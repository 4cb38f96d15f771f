/** The director's broadcasts to agents: `delete_arp_entries`, a fire-and-forget
    call to every selected agent, and `sync_dns`, a deadline-bounded request to
    every target whose successes are written to the shared version ledger. */
module AgentBroadcaster {
  import opened Wrappers
  import opened Values
  import opened InstanceSelector
  import opened VersionLedger
  import opened ResponseTracker

  /** What a broadcast asks of the agent proxies, in the order it asks. */
  datatype Event =
    | DeleteArpEntriesSent(agentId: string, ips: seq<string>)
    | SyncDnsSent(agentId: string, blobId: string, sha1: string, version: int)
    | TimeoutStarted
    | CancelSyncDnsSent(agentId: string, requestId: string)

  /** A completion callback: the body an agent replied with, for the request
      dispatched in position `slot` of the target list, before the deadline. */
  datatype Reply = Reply(slot: nat, body: Value)

  datatype Summary = Summary(attempted: nat, successful: nat, failed: nat, unresponsive: nat)

  /** The log lines of sync_dns, with their contents but not their formatting. */
  datatype LogLine =
    | SendingTo(agentIds: seq<string>)
    | UnexpectedResponse(agentId: string, body: Value)
    | NoResponseFrom(agentIds: seq<string>)
    | Attempted(summary: Summary)

  datatype BroadcastError = TargetWithoutVm

  predicate AllHaveVm(targets: seq<Instance>) {
    forall i :: 0 <= i < |targets| ==> targets[i].vm.Some?
  }

  function AgentIds(targets: seq<Instance>): (r: seq<string>)
    requires AllHaveVm(targets)
    ensures |r| == |targets| && forall i :: 0 <= i < |targets| ==> r[i] == AgentOf(targets[i])
  {
    seq(|targets|, i requires 0 <= i < |targets| => AgentOf(targets[i]))
  }

  // ----- delete_arp_entries -----

  function ArpCalls(targets: seq<Instance>, ips: seq<string>): (r: seq<Event>)
    requires AllHaveVm(targets)
    ensures |r| == |targets|
    ensures forall i :: 0 <= i < |targets| ==> r[i] == DeleteArpEntriesSent(AgentOf(targets[i]), ips)
  {
    if targets == [] then []
    else ArpCalls(targets[..|targets| - 1], ips) + [DeleteArpEntriesSent(AgentOf(targets[|targets| - 1]), ips)]
  }

  /** No two VMs of the inventory run the same agent. */
  ghost predicate DistinctAgents(instances: seq<Instance>) {
    forall i, j :: 0 <= i < j < |instances| && instances[i].vm.Some? && instances[j].vm.Some? ==>
      AgentOf(instances[i]) != AgentOf(instances[j])
  }

  lemma {:induction false} SelectionKeepsAgentsDistinct(instances: seq<Instance>, excludeCid: Option<string>)
    requires DistinctAgents(instances)
    ensures DistinctAgents(FilterInstances(instances, excludeCid))
  {
    if instances != [] {
      var h, rest := instances[0], instances[1..];
      DistinctTail(instances);
      SelectionKeepsAgentsDistinct(rest, excludeCid);
      assert instances == [h] + rest;
      if Eligible(h, excludeCid) {
        var fr := FilterInstances(rest, excludeCid);
        forall k | 0 <= k < |fr| && fr[k].vm.Some? ensures AgentOf(fr[k]) != AgentOf(h) {
          HeadAgentUnique(instances, excludeCid, fr[k]);
        }
        ConsDistinct(h, fr);
      }
    }
  }

  /** Dropping the first instance keeps the agents distinct. */
  lemma DistinctTail(instances: seq<Instance>)
    requires DistinctAgents(instances) && instances != []
    ensures DistinctAgents(instances[1..])
  {
    var rest := instances[1..];
    forall i, j | 0 <= i < j < |rest| && rest[i].vm.Some? && rest[j].vm.Some?
      ensures AgentOf(rest[i]) != AgentOf(rest[j])
    {
      assert rest[i] == instances[i + 1] && rest[j] == instances[j + 1];
    }
  }

  /** An instance selected from the rest of the inventory runs another agent than the first. */
  lemma HeadAgentUnique(instances: seq<Instance>, excludeCid: Option<string>, y: Instance)
    requires DistinctAgents(instances) && instances != [] && instances[0].vm.Some?
    requires y in FilterInstances(instances[1..], excludeCid)
    ensures AgentOf(y) != AgentOf(instances[0])
  {
    var q :| 0 <= q < |instances[1..]| && instances[1..][q] == y;
    assert instances[q + 1] == y;
  }

  /** An instance whose agent no later one runs can go in front. */
  lemma ConsDistinct(h: Instance, fr: seq<Instance>)
    requires h.vm.Some? && DistinctAgents(fr)
    requires forall k :: 0 <= k < |fr| && fr[k].vm.Some? ==> AgentOf(fr[k]) != AgentOf(h)
    ensures DistinctAgents([h] + fr)
  {
    var r := [h] + fr;
    forall i, j | 0 <= i < j < |r| && r[i].vm.Some? && r[j].vm.Some?
      ensures AgentOf(r[i]) != AgentOf(r[j])
    {
      assert r[j] == fr[j - 1];
      if i > 0 {
        assert r[i] == fr[i - 1];
      }
    }
  }

  lemma SameAgentSameIndex(instances: seq<Instance>, i: nat, j: nat)
    requires DistinctAgents(instances) && i < |instances| && j < |instances|
    requires instances[i].vm.Some? && instances[j].vm.Some? && AgentOf(instances[i]) == AgentOf(instances[j])
    ensures i == j
  {
  }

  lemma DistinctIndicesDistinctAgents(instances: seq<Instance>, i: nat, j: nat)
    requires DistinctAgents(instances) && i < |instances| && j < |instances| && i != j
    requires instances[i].vm.Some? && instances[j].vm.Some?
    ensures AgentOf(instances[i]) != AgentOf(instances[j])
  {
  }

  /** `delete_arp_entries`: a selected agent gets a call carrying the IP list,
      and no agent gets two. */
  lemma SelectedAgentGetsOneArpCall(inventory: seq<Instance>, excludeCid: string, ips: seq<string>, x: Instance)
    requires DistinctAgents(inventory)
    requires x in inventory && Eligible(x, Some(excludeCid))
    ensures DeleteArpEntriesSent(AgentOf(x), ips) in ArpCalls(FilterInstances(inventory, Some(excludeCid)), ips)
    ensures var calls := ArpCalls(FilterInstances(inventory, Some(excludeCid)), ips);
      forall k, k' :: 0 <= k < |calls| && 0 <= k' < |calls| && calls[k].agentId == calls[k'].agentId ==> k == k'
  {
    var targets := FilterInstances(inventory, Some(excludeCid));
    var k :| 0 <= k < |targets| && targets[k] == x;
    ArpCallAt(targets, ips, k);
    SelectionKeepsAgentsDistinct(inventory, Some(excludeCid));
    ArpCallsToDistinctAgents(targets, ips);
  }

  lemma ArpCallAt(targets: seq<Instance>, ips: seq<string>, k: nat)
    requires AllHaveVm(targets) && k < |targets|
    ensures DeleteArpEntriesSent(AgentOf(targets[k]), ips) in ArpCalls(targets, ips)
  {
    assert ArpCalls(targets, ips)[k] == DeleteArpEntriesSent(AgentOf(targets[k]), ips);
  }

  lemma ArpCallsToDistinctAgents(targets: seq<Instance>, ips: seq<string>)
    requires AllHaveVm(targets) && DistinctAgents(targets)
    ensures var calls := ArpCalls(targets, ips);
      forall k, k' :: 0 <= k < |calls| && 0 <= k' < |calls| && calls[k].agentId == calls[k'].agentId ==> k == k'
  {
    var calls := ArpCalls(targets, ips);
    forall k1, k2 | 0 <= k1 < |calls| && 0 <= k2 < |calls| && calls[k1].agentId == calls[k2].agentId
      ensures k1 == k2
    {
      SameAgentSameIndex(targets, k1, k2);
    }
  }

  /** `delete_arp_entries`: an agent that is not selected (the VM being created,
      a compilation VM, an inactive VM) gets no call. */
  lemma UnselectedAgentGetsNoArpCall(inventory: seq<Instance>, excludeCid: string, ips: seq<string>, x: Instance)
    requires DistinctAgents(inventory)
    requires x in inventory && x.vm.Some? && !Eligible(x, Some(excludeCid))
    ensures var calls := ArpCalls(FilterInstances(inventory, Some(excludeCid)), ips);
      forall k :: 0 <= k < |calls| ==> calls[k].agentId != AgentOf(x)
  {
    var targets := FilterInstances(inventory, Some(excludeCid));
    var calls := ArpCalls(targets, ips);
    var i :| 0 <= i < |inventory| && inventory[i] == x;
    forall k | 0 <= k < |calls| ensures calls[k].agentId != AgentOf(x) {
      var t := targets[k];
      assert t in targets && Eligible(t, Some(excludeCid));
      var j :| 0 <= j < |inventory| && inventory[j] == t;
      assert calls[k].agentId == AgentOf(t);
      assert t != x;
      DistinctIndicesDistinctAgents(inventory, i, j);
    }
  }

  // ----- sync_dns: the specification of one broadcast -----

  function SyncDnsCalls(targets: seq<Instance>, blobId: string, sha1: string, version: int): (r: seq<Event>)
    requires AllHaveVm(targets)
    ensures |r| == |targets|
    ensures forall i :: 0 <= i < |targets| ==> r[i] == SyncDnsSent(AgentOf(targets[i]), blobId, sha1, version)
  {
    if targets == [] then []
    else
      var last := targets[|targets| - 1];
      SyncDnsCalls(targets[..|targets| - 1], blobId, sha1, version) + [SyncDnsSent(AgentOf(last), blobId, sha1, version)]
  }

  /** The body of the first completion for `slot`, if one arrived. */
  function FirstReply(replies: seq<Reply>, slot: nat): (r: Option<Value>)
    ensures r.None? <==> forall k :: 0 <= k < |replies| ==> replies[k].slot != slot
    ensures r.Some? ==>
      exists k :: 0 <= k < |replies| && replies[k] == Reply(slot, r.value) && forall j :: 0 <= j < k ==> replies[j].slot != slot
  {
    if replies == [] then None
    else
      var init := replies[..|replies| - 1];
      var earlier := FirstReply(init, slot);
      assert forall k :: 0 <= k < |init| ==> init[k] == replies[k];
      if earlier.Some? then earlier
      else if replies[|replies| - 1].slot == slot then Some(replies[|replies| - 1].body)
      else None
  }

  /** Where a request stands once the replies so far have been processed. */
  function OutcomeSoFar(replies: seq<Reply>, slot: nat): (o: Outcome)
    ensures o != Unresponsive
  {
    match FirstReply(replies, slot)
    case None => Pending
    case Some(body) => Classify(body)
  }

  function RequestsSoFar(targets: seq<Instance>, requestIds: seq<string>, replies: seq<Reply>): (r: seq<Request>)
    requires AllHaveVm(targets) && |requestIds| == |targets|
    ensures |r| == |targets|
    ensures forall i :: 0 <= i < |targets| ==>
      r[i] == Request(AgentOf(targets[i]), requestIds[i], OutcomeSoFar(replies, i))
  {
    seq(|targets|, i requires 0 <= i < |targets| => Request(AgentOf(targets[i]), requestIds[i], OutcomeSoFar(replies, i)))
  }

  /** The requests after the deadline: a request with no reply is unresponsive,
      otherwise its first reply decides. */
  function FinalRequests(targets: seq<Instance>, requestIds: seq<string>, replies: seq<Reply>): seq<Request>
    requires AllHaveVm(targets) && |requestIds| == |targets|
  {
    Expire(RequestsSoFar(targets, requestIds, replies))
  }

  /** One reply more: only the request of its slot can change, and only if it was
      still pending. */
  lemma RequestsStep(targets: seq<Instance>, requestIds: seq<string>, replies: seq<Reply>, k: nat)
    requires AllHaveVm(targets) && |requestIds| == |targets|
    requires k < |replies| && replies[k].slot < |targets|
    ensures var before := RequestsSoFar(targets, requestIds, replies[..k]);
      RequestsSoFar(targets, requestIds, replies[..k + 1])
        == before[replies[k].slot := ResolveRequest(before[replies[k].slot], replies[k].body)]
  {
    assert replies[..k + 1][..k] == replies[..k];
  }

  function RequestAgents(rs: seq<Request>): (r: seq<string>)
    ensures |r| == |rs| && forall i :: 0 <= i < |rs| ==> r[i] == rs[i].agentId
  {
    seq(|rs|, i requires 0 <= i < |rs| => rs[i].agentId)
  }

  /** Before any reply, no request is resolved. */
  lemma NoneResolvedYet(rs: seq<Request>, o: Outcome)
    requires forall i :: 0 <= i < |rs| ==> rs[i].outcome == Pending
    requires o != Pending
    ensures WithOutcome(rs, o) == [] && SuccessfulAgents(rs) == {}
  {
  }

  lemma SuccessfulAgentsAfterResolve(before: seq<Request>, slot: nat, after: seq<Request>, o: Outcome)
    requires slot < |before| && before[slot].outcome == Pending && o != Pending
    requires after == before[slot := before[slot].(outcome := o)]
    ensures SuccessfulAgents(after) == SuccessfulAgents(before) + (if o == Successful then {before[slot].agentId} else {})
  {
    var rhs := SuccessfulAgents(before) + (if o == Successful then {before[slot].agentId} else {});
    forall a ensures a in SuccessfulAgents(after) <==> a in rhs {
      if a in SuccessfulAgents(after) {
        var i :| 0 <= i < |after| && after[i].outcome == Successful && after[i].agentId == a;
        if i != slot {
          assert before[i] == after[i];
        }
      }
      if a in SuccessfulAgents(before) {
        var i :| 0 <= i < |before| && before[i].outcome == Successful && before[i].agentId == a;
        assert after[i] == before[i];
      }
      if o == Successful && a == before[slot].agentId {
        assert after[slot].outcome == Successful;
      }
    }
  }

  /** The agents whose requests succeeded. */
  function SuccessfulAgents(rs: seq<Request>): set<string> {
    set i | 0 <= i < |rs| && rs[i].outcome == Successful :: rs[i].agentId
  }

  /** The ledger after a broadcast: every successful agent holds the new version,
      every other row is as it was. */
  function Stamped(before: map<string, int>, agents: set<string>, version: int): (m: map<string, int>)
    ensures m.Keys == before.Keys + agents
    ensures forall a :: a in agents ==> m[a] == version
    ensures forall a :: a in before && a !in agents ==> m[a] == before[a]
  {
    before + map a | a in agents :: version
  }

  function CancelCalls(stragglers: seq<Request>): (r: seq<Event>)
    ensures |r| == |stragglers|
    ensures forall i :: 0 <= i < |stragglers| ==>
      r[i] == CancelSyncDnsSent(stragglers[i].agentId, stragglers[i].requestId)
  {
    seq(|stragglers|, i requires 0 <= i < |stragglers| => CancelSyncDnsSent(stragglers[i].agentId, stragglers[i].requestId))
  }

  /** The error lines, one per counted reply that was not an acknowledgement, in
      the order the replies arrived. */
  function UnexpectedLines(targets: seq<Instance>, replies: seq<Reply>): (r: seq<LogLine>)
    requires AllHaveVm(targets)
    requires forall k :: 0 <= k < |replies| ==> replies[k].slot < |targets|
    ensures |r| <= |replies|
    ensures forall i :: 0 <= i < |r| ==> r[i].UnexpectedResponse? && Classify(r[i].body) == Failed
  {
    if replies == [] then []
    else
      var init := replies[..|replies| - 1];
      UnexpectedLines(targets, init) + LineFor(targets, init, replies[|replies| - 1])
  }

  /** The error line `reply` adds after the replies `earlier`: one when it is the
      first reply for its request and not an acknowledgement. */
  function LineFor(targets: seq<Instance>, earlier: seq<Reply>, reply: Reply): (r: seq<LogLine>)
    requires AllHaveVm(targets) && reply.slot < |targets|
    ensures |r| <= 1
    ensures |r| == 1 <==> FirstReply(earlier, reply.slot).None? && Classify(reply.body) == Failed
    ensures |r| == 1 ==> r[0] == UnexpectedResponse(AgentOf(targets[reply.slot]), reply.body)
  {
    if FirstReply(earlier, reply.slot).None? && Classify(reply.body) == Failed
    then [UnexpectedResponse(AgentOf(targets[reply.slot]), reply.body)] else []
  }

  /** The summary of a broadcast: the requests attempted and how many ended in each
      outcome; with none left pending, the three counts add up to the attempts. */
  function SummaryOf(final: seq<Request>): (s: Summary)
    ensures s.attempted == |final|
    ensures WithOutcome(final, Pending) == [] ==> s.successful + s.failed + s.unresponsive == s.attempted
  {
    CountsAddUp(final);
    Summary(|final|, |WithOutcome(final, Successful)|, |WithOutcome(final, Failed)|,
            |WithOutcome(final, Unresponsive)|)
  }

  /** The summary's three counts always add up to the number of targets. */
  lemma {:induction false} SummaryAddsUp(targets: seq<Instance>, requestIds: seq<string>, replies: seq<Reply>)
    requires AllHaveVm(targets) && |requestIds| == |targets|
    ensures var s := SummaryOf(FinalRequests(targets, requestIds, replies));
      s.successful + s.failed + s.unresponsive == s.attempted == |targets|
  {
    var rs := RequestsSoFar(targets, requestIds, replies);
    CountsAddUp(Expire(rs));
    NothingPendingAfterDeadline(rs);
  }

  /** A target that never replied is unresponsive: it is neither successful nor
      failed, and the broadcast cancels its request once, by its request id. */
  lemma UnrepliedTargetIsCancelledOnce(targets: seq<Instance>, requestIds: seq<string>, replies: seq<Reply>, i: nat)
    requires AllHaveVm(targets) && |requestIds| == |targets| && i < |targets|
    requires forall k :: 0 <= k < |replies| ==> replies[k].slot != i
    ensures var final := FinalRequests(targets, requestIds, replies);
      && final[i].outcome == Unresponsive
      && final[i] !in WithOutcome(final, Successful) && final[i] !in WithOutcome(final, Failed)
      && CancelSyncDnsSent(AgentOf(targets[i]), requestIds[i]) in CancelCalls(WithOutcome(final, Unresponsive))
  {
    var final := FinalRequests(targets, requestIds, replies);
    assert final[i] in WithOutcome(final, Unresponsive);
    var u := WithOutcome(final, Unresponsive);
    var k :| 0 <= k < |u| && u[k] == final[i];
    assert CancelCalls(u)[k] == CancelSyncDnsSent(AgentOf(targets[i]), requestIds[i]);
  }

  /** A replied target is never cancelled: every cancel call is for an
      unresponsive request. */
  lemma RepliedTargetIsNotCancelled(targets: seq<Instance>, requestIds: seq<string>, replies: seq<Reply>, i: nat)
    requires AllHaveVm(targets) && |requestIds| == |targets| && i < |targets|
    requires exists k :: 0 <= k < |replies| && replies[k].slot == i
    ensures var final := FinalRequests(targets, requestIds, replies);
      final[i].outcome != Unresponsive && final[i] !in WithOutcome(final, Unresponsive)
  {
  }

  /** The error lines grow by at most the one line of the newest reply. */
  lemma {:induction false} UnexpectedLinesStep(targets: seq<Instance>, replies: seq<Reply>, k: nat)
    requires AllHaveVm(targets) && k < |replies|
    requires forall j :: 0 <= j < |replies| ==> replies[j].slot < |targets|
    ensures UnexpectedLines(targets, replies[..k + 1]) == UnexpectedLines(targets, replies[..k]) + LineFor(targets, replies[..k], replies[k])
  {
    var prefix := replies[..k + 1];
    assert prefix[..|prefix| - 1] == replies[..k];
  }

  lemma StampOneMore(before: map<string, int>, agents: set<string>, a: string, version: int)
    ensures Stamped(before, agents, version)[a := version] == Stamped(before, agents + {a}, version)
  {
  }

  /** At the deadline the stragglers (the still-pending requests) are exactly the
      unresponsive requests of the final state, and resolved requests stay put. */
  lemma DeadlineFacts(rs: seq<Request>)
    requires forall i :: 0 <= i < |rs| ==> rs[i].outcome != Unresponsive
    ensures CancelCalls(WithOutcome(rs, Pending)) == CancelCalls(WithOutcome(Expire(rs), Unresponsive))
    ensures RequestAgents(WithOutcome(rs, Pending)) == RequestAgents(WithOutcome(Expire(rs), Unresponsive))
    ensures |WithOutcome(rs, Pending)| == |WithOutcome(Expire(rs), Unresponsive)|
    ensures WithOutcome(Expire(rs), Successful) == WithOutcome(rs, Successful)
    ensures WithOutcome(Expire(rs), Failed) == WithOutcome(rs, Failed)
    ensures SuccessfulAgents(Expire(rs)) == SuccessfulAgents(rs)
  {
    ExpiredArePending(rs);
    StragglersAgree(WithOutcome(rs, Pending), WithOutcome(Expire(rs), Unresponsive));
    ExpireKeepsResolved(rs, Successful);
    ExpireKeepsResolved(rs, Failed);
    ExpireKeepsSuccessfulAgents(rs);
  }

  /** Requests that differ only in their outcomes give the same cancel calls and
      the same agents. */
  lemma StragglersAgree(ps: seq<Request>, us: seq<Request>)
    requires |ps| == |us|
    requires forall k :: 0 <= k < |ps| ==> us[k] == ps[k].(outcome := Unresponsive)
    ensures CancelCalls(ps) == CancelCalls(us)
    ensures RequestAgents(ps) == RequestAgents(us)
  {
    assert forall k :: 0 <= k < |ps| ==> CancelCalls(ps)[k] == CancelCalls(us)[k];
    assert forall k :: 0 <= k < |ps| ==> RequestAgents(ps)[k] == RequestAgents(us)[k];
  }

  /** The deadline changes no successful request, so the same agents succeeded. */
  lemma ExpireKeepsSuccessfulAgents(rs: seq<Request>)
    ensures SuccessfulAgents(Expire(rs)) == SuccessfulAgents(rs)
  {
    var e := Expire(rs);
    forall a ensures a in SuccessfulAgents(e) <==> a in SuccessfulAgents(rs) {
      if a in SuccessfulAgents(e) {
        var i :| 0 <= i < |e| && e[i].outcome == Successful && e[i].agentId == a;
        assert rs[i].outcome == Successful;
      }
      if a in SuccessfulAgents(rs) {
        var i :| 0 <= i < |rs| && rs[i].outcome == Successful && rs[i].agentId == a;
        assert e[i].outcome == Successful;
      }
    }
  }

  /** One completion callback, on the specification side: the tracker's requests
      and the counts move exactly as the first-reply rule says. */
  lemma {:induction false} CollectStep(targets: seq<Instance>, requestIds: seq<string>, replies: seq<Reply>, k: nat,
                                       before: seq<Request>, after: seq<Request>)
    requires AllHaveVm(targets) && |requestIds| == |targets|
    requires k < |replies| && forall j :: 0 <= j < |replies| ==> replies[j].slot < |targets|
    requires before == RequestsSoFar(targets, requestIds, replies[..k])
    requires after == before[replies[k].slot := ResolveRequest(before[replies[k].slot], replies[k].body)]
    ensures after == RequestsSoFar(targets, requestIds, replies[..k + 1])
    ensures before[replies[k].slot].agentId == AgentOf(targets[replies[k].slot])
    ensures before[replies[k].slot].outcome == Pending <==> FirstReply(replies[..k], replies[k].slot).None?
    ensures before[replies[k].slot].outcome != Pending ==> after == before
    ensures before[replies[k].slot].outcome == Pending ==>
      var o := Classify(replies[k].body);
      && CountOf(after, o) == CountOf(before, o) + 1
      && (o == Successful ==> CountOf(after, Failed) == CountOf(before, Failed))
      && (o == Failed ==> CountOf(after, Successful) == CountOf(before, Successful))
      && SuccessfulAgents(after) == SuccessfulAgents(before) + (if o == Successful then {before[replies[k].slot].agentId} else {})
  {
    RequestsStep(targets, requestIds, replies, k);
    var slot, o := replies[k].slot, Classify(replies[k].body);
    if before[slot].outcome == Pending {
      ResolveMovesOne(before, slot, after, o, if o == Successful then Failed else Successful);
      SuccessfulAgentsAfterResolve(before, slot, after, o);
    }
  }

  /** What the collection phase has built once some replies are processed: the
      tracker's requests, the two counters, the agents written to the ledger and
      the error lines. */
  datatype Progress = Progress(requests: seq<Request>, successful: nat, failed: nat,
                               stamped: set<string>, lines: seq<LogLine>)

  /** One completion callback: only the first reply of a pending request counts. */
  function Absorb(p: Progress, reply: Reply): (q: Progress)
    requires reply.slot < |p.requests|
    ensures |q.requests| == |p.requests|
    ensures forall i :: 0 <= i < |p.requests| ==> q.requests[i].agentId == p.requests[i].agentId
  {
    var r := p.requests[reply.slot];
    if r.outcome != Pending then p
    else
      var o := Classify(reply.body);
      Progress(p.requests[reply.slot := r.(outcome := o)],
               p.successful + (if o == Successful then 1 else 0),
               p.failed + (if o == Failed then 1 else 0),
               p.stamped + (if o == Successful then {r.agentId} else {}),
               p.lines + (if o == Failed then [UnexpectedResponse(r.agentId, reply.body)] else []))
  }

  function Collected(targets: seq<Instance>, requestIds: seq<string>, replies: seq<Reply>): (p: Progress)
    requires AllHaveVm(targets) && |requestIds| == |targets|
    requires forall k :: 0 <= k < |replies| ==> replies[k].slot < |targets|
    ensures |p.requests| == |targets|
    ensures forall i :: 0 <= i < |targets| ==> p.requests[i].agentId == AgentOf(targets[i])
  {
    if replies == [] then Progress(RequestsSoFar(targets, requestIds, []), 0, 0, {}, [])
    else Absorb(Collected(targets, requestIds, replies[..|replies| - 1]), replies[|replies| - 1])
  }

  /** One reply more is one more callback absorbed. */
  lemma CollectedStep(targets: seq<Instance>, requestIds: seq<string>, replies: seq<Reply>, k: nat)
    requires AllHaveVm(targets) && |requestIds| == |targets|
    requires k < |replies| && forall j :: 0 <= j < |replies| ==> replies[j].slot < |targets|
    ensures Collected(targets, requestIds, replies[..k + 1])
      == Absorb(Collected(targets, requestIds, replies[..k]), replies[k])
  {
    assert replies[..k + 1][..k] == replies[..k];
  }

  /** The collection phase, after the replies `done`, agrees with the first-reply
      specification: its requests are the requests so far, its counters count
      them, it has stamped exactly the successful agents and logged exactly the
      unexpected replies. */
  ghost predicate Agrees(targets: seq<Instance>, requestIds: seq<string>, done: seq<Reply>, p: Progress)
    requires AllHaveVm(targets) && |requestIds| == |targets|
    requires forall k :: 0 <= k < |done| ==> done[k].slot < |targets|
  {
    && p.requests == RequestsSoFar(targets, requestIds, done)
    && p.successful == CountOf(p.requests, Successful)
    && p.failed == CountOf(p.requests, Failed)
    && p.stamped == SuccessfulAgents(p.requests)
    && p.lines == UnexpectedLines(targets, done)
  }

  lemma AgreesAtStart(targets: seq<Instance>, requestIds: seq<string>)
    requires AllHaveVm(targets) && |requestIds| == |targets|
    ensures Agrees(targets, requestIds, [], Progress(RequestsSoFar(targets, requestIds, []), 0, 0, {}, []))
  {
    var rs := RequestsSoFar(targets, requestIds, []);
    NoneResolvedYet(rs, Successful);
    CountIsLength(rs, Successful);
    NoneResolvedYet(rs, Failed);
    CountIsLength(rs, Failed);
  }

  lemma {:induction false} AbsorbAgrees(targets: seq<Instance>, requestIds: seq<string>, replies: seq<Reply>, k: nat, p: Progress)
    requires AllHaveVm(targets) && |requestIds| == |targets|
    requires k < |replies| && forall j :: 0 <= j < |replies| ==> replies[j].slot < |targets|
    requires Agrees(targets, requestIds, replies[..k], p)
    ensures Agrees(targets, requestIds, replies[..k + 1], Absorb(p, replies[k]))
  {
    var before := p.requests;
    var slot := replies[k].slot;
    var after := before[slot := ResolveRequest(before[slot], replies[k].body)];
    CollectStep(targets, requestIds, replies, k, before, after);
    UnexpectedLinesStep(targets, replies, k);
  }

  lemma CollectedMeaning(targets: seq<Instance>, requestIds: seq<string>, replies: seq<Reply>)
    requires AllHaveVm(targets) && |requestIds| == |targets|
    requires forall k :: 0 <= k < |replies| ==> replies[k].slot < |targets|
    ensures Agrees(targets, requestIds, replies, Collected(targets, requestIds, replies))
  {
    CollectedPrefix(targets, requestIds, replies, |replies|);
    assert replies[..|replies|] == replies;
  }

  /** The agreement holds after every prefix of the replies. */
  lemma {:induction false} CollectedPrefix(targets: seq<Instance>, requestIds: seq<string>, replies: seq<Reply>, n: nat)
    requires AllHaveVm(targets) && |requestIds| == |targets|
    requires n <= |replies| && forall k :: 0 <= k < |replies| ==> replies[k].slot < |targets|
    ensures Agrees(targets, requestIds, replies[..n], Collected(targets, requestIds, replies[..n]))
    decreases n
  {
    if n == 0 {
      assert replies[..0] == [];
      AgreesAtStart(targets, requestIds);
    } else {
      CollectedPrefix(targets, requestIds, replies, n - 1);
      AbsorbAgrees(targets, requestIds, replies, n - 1, Collected(targets, requestIds, replies[..n - 1]));
      CollectedStep(targets, requestIds, replies, n - 1);
    }
  }

  /** The requests no agent answered before the deadline, in dispatch order. */
  function Stragglers(targets: seq<Instance>, requestIds: seq<string>, replies: seq<Reply>): seq<Request>
    requires AllHaveVm(targets) && |requestIds| == |targets|
  {
    WithOutcome(FinalRequests(targets, requestIds, replies), Unresponsive)
  }

  /** The warning about stragglers, only when there are any. */
  function NoResponseLines(stragglers: seq<Request>): (r: seq<LogLine>)
    ensures stragglers == [] ==> r == []
    ensures stragglers != [] ==> r == [NoResponseFrom(RequestAgents(stragglers))]
  {
    if stragglers == [] then [] else [NoResponseFrom(RequestAgents(stragglers))]
  }

  /** What the deadline makes of the collection phase: the final requests, the
      stragglers to cancel, and the summary counts. */
  lemma AfterDeadline(targets: seq<Instance>, requestIds: seq<string>, replies: seq<Reply>)
    requires AllHaveVm(targets) && |requestIds| == |targets|
    requires forall k :: 0 <= k < |replies| ==> replies[k].slot < |targets|
    ensures var p := Collected(targets, requestIds, replies);
      var pending := WithOutcome(p.requests, Pending);
      var final := FinalRequests(targets, requestIds, replies);
      && Expire(p.requests) == final
      && CancelCalls(pending) == CancelCalls(Stragglers(targets, requestIds, replies))
      && NoResponseLines(pending) == NoResponseLines(Stragglers(targets, requestIds, replies))
      && SummaryOf(final) == Summary(|targets|, p.successful, p.failed, |pending|)
      && SuccessfulAgents(final) == p.stamped
      && p.lines == UnexpectedLines(targets, replies)
  {
    CollectedMeaning(targets, requestIds, replies);
    var p := Collected(targets, requestIds, replies);
    CountIsLength(p.requests, Successful);
    CountIsLength(p.requests, Failed);
    DeadlineFacts(p.requests);
  }

  /** In the calls one sync_dns adds, the n requests come first, then the single timer
      start, and only cancellations follow it. */
  predicate TimerAfterDispatches(added: seq<Event>, n: nat) {
    && n < |added| && added[n] == TimeoutStarted
    && (forall j :: 0 <= j < n ==> added[j].SyncDnsSent?)
    && (forall j :: n < j < |added| ==> added[j].CancelSyncDnsSent?)
  }

  /** The deadline timer starts after the last dispatch and before any cancellation. */
  lemma TimerStartsAfterLastDispatch(targets: seq<Instance>, blobId: string, sha1: string, version: int,
                                     stragglers: seq<Request>)
    requires AllHaveVm(targets)
    ensures TimerAfterDispatches(SyncDnsCalls(targets, blobId, sha1, version) + [TimeoutStarted] + CancelCalls(stragglers),
                                 |targets|)
  {
    var added := SyncDnsCalls(targets, blobId, sha1, version) + [TimeoutStarted] + CancelCalls(stragglers);
    forall j | |targets| < j < |added| ensures added[j].CancelSyncDnsSent? {
      assert added[j] == CancelCalls(stragglers)[j - |targets| - 1];
    }
  }

  /** The same order in a call log that one sync_dns has extended. */
  lemma TimerInTrace(before: seq<Event>, after: seq<Event>, targets: seq<Instance>, blobId: string, sha1: string,
                     version: int, stragglers: seq<Request>)
    requires AllHaveVm(targets)
    requires after == before + SyncDnsCalls(targets, blobId, sha1, version) + [TimeoutStarted] + CancelCalls(stragglers)
    ensures TimerAfterDispatches(after[|before|..], |targets|)
  {
    TimerStartsAfterLastDispatch(targets, blobId, sha1, version, stragglers);
    assert after[|before|..] == SyncDnsCalls(targets, blobId, sha1, version) + [TimeoutStarted] + CancelCalls(stragglers);
  }

  // ----- Scenarios of the broadcaster's unit tests -----
  // Two agents with fixed ids and request ids, the replies of one test each; the
  // lemmas without a doc comment below are the steps these scenarios are proved by.

  function TestInstance(n: nat, agentId: string): Instance {
    Instance(n, "fake-job", false, Some(Vm(agentId, "fake-cid-" + agentId, true)))
  }

  const synced := Hash([Entry("value", Str("synced"))])
  const unsynced := Hash([Entry("value", Str("unsynced"))])
  const twoAgents := [TestInstance(1, "agent-1"), TestInstance(2, "agent-2")]
  const twoRequestIds := ["sync_dns_request_id_1", "sync_dns_request_id_2"]

  lemma WithOutcomeOfPair(a: Request, b: Request, o: Outcome)
    ensures WithOutcome([a, b], o) == (if a.outcome == o then [a] else []) + (if b.outcome == o then [b] else [])
  {
    assert [a, b][..1] == [a];
    WithOutcomeOfOne(a, o);
  }

  lemma WithOutcomeOfOne(a: Request, o: Outcome)
    ensures WithOutcome([a], o) == if a.outcome == o then [a] else []
  {
    assert [a][..0] == [];
  }

  /** Two agents, one acknowledging and one answering 'unsynced': one success
      stamped in the ledger, one failure logged with its body, nobody cancelled. */
  lemma OneSyncedOneUnsynced()
    ensures SummaryOf(FinalRequests(twoAgents, twoRequestIds, [Reply(0, synced), Reply(1, unsynced)])) == Summary(2, 1, 1, 0)
    ensures SuccessfulAgents(FinalRequests(twoAgents, twoRequestIds, [Reply(0, synced), Reply(1, unsynced)])) == {"agent-1"}
    ensures UnexpectedLines(twoAgents, [Reply(0, synced), Reply(1, unsynced)]) == [UnexpectedResponse("agent-2", unsynced)]
    ensures Stragglers(twoAgents, twoRequestIds, [Reply(0, synced), Reply(1, unsynced)]) == []
  {
    var r1, r2 := Request("agent-1", twoRequestIds[0], Successful), Request("agent-2", twoRequestIds[1], Failed);
    UnsyncedFinal();
    WithOutcomeOfPair(r1, r2, Successful);
    WithOutcomeOfPair(r1, r2, Failed);
    WithOutcomeOfPair(r1, r2, Unresponsive);
    assert SuccessfulAgents([r1, r2]) == {"agent-1"} by {
      assert [r1, r2][0].outcome == Successful;
    }
    UnsyncedLines();
  }

  lemma UnsyncedFinal()
    ensures FinalRequests(twoAgents, twoRequestIds, [Reply(0, synced), Reply(1, unsynced)])
      == [Request("agent-1", twoRequestIds[0], Successful), Request("agent-2", twoRequestIds[1], Failed)]
  {
    var replies := [Reply(0, synced), Reply(1, unsynced)];
    assert Classify(synced) == Successful && Classify(unsynced) == Failed;
    assert replies[..1] == [Reply(0, synced)];
    assert [Reply(0, synced)][..0] == [];
    assert FirstReply(replies, 0) == Some(synced);
    assert FirstReply(replies, 1) == Some(unsynced);
  }

  lemma UnsyncedLines()
    ensures UnexpectedLines(twoAgents, [Reply(0, synced), Reply(1, unsynced)]) == [UnexpectedResponse("agent-2", unsynced)]
  {
    var replies := [Reply(0, synced), Reply(1, unsynced)];
    assert replies[..1] == [Reply(0, synced)];
    assert [Reply(0, synced)][..0] == [];
    assert Classify(synced) == Successful && Classify(unsynced) == Failed;
    assert UnexpectedLines(twoAgents, [Reply(0, synced)]) == [];
  }

  lemma SilentFinal()
    ensures FinalRequests(twoAgents, twoRequestIds, [Reply(0, synced)])
      == [Request("agent-1", "sync_dns_request_id_1", Successful), Request("agent-2", "sync_dns_request_id_2", Unresponsive)]
  {
    assert Classify(synced) == Successful;
    assert [Reply(0, synced)][..0] == [];
  }

  /** Two agents, the second never answering: one success and one unresponsive
      request, and only the first agent is stamped. */
  lemma OneSyncedOneSilent()
    ensures SummaryOf(FinalRequests(twoAgents, twoRequestIds, [Reply(0, synced)])) == Summary(2, 1, 0, 1)
    ensures SuccessfulAgents(FinalRequests(twoAgents, twoRequestIds, [Reply(0, synced)])) == {"agent-1"}
  {
    var r1, r2 := Request("agent-1", "sync_dns_request_id_1", Successful), Request("agent-2", "sync_dns_request_id_2", Unresponsive);
    SilentFinal();
    WithOutcomeOfPair(r1, r2, Successful);
    WithOutcomeOfPair(r1, r2, Failed);
    WithOutcomeOfPair(r1, r2, Unresponsive);
    assert SuccessfulAgents([r1, r2]) == {"agent-1"} by {
      assert [r1, r2][0].outcome == Successful;
    }
  }

  /** In the same run the silent agent's request is cancelled once, by its
      request id, and named in the warning. */
  lemma SilentAgentIsCancelled()
    ensures CancelCalls(Stragglers(twoAgents, twoRequestIds, [Reply(0, synced)]))
      == [CancelSyncDnsSent("agent-2", "sync_dns_request_id_2")]
    ensures NoResponseLines(Stragglers(twoAgents, twoRequestIds, [Reply(0, synced)])) == [NoResponseFrom(["agent-2"])]
  {
    var r2 := Request("agent-2", "sync_dns_request_id_2", Unresponsive);
    SilentStragglers();
    assert NoResponseLines([r2]) == [NoResponseFrom(["agent-2"])] by {
      assert RequestAgents([r2]) == ["agent-2"];
    }
    assert CancelCalls([r2]) == [CancelSyncDnsSent("agent-2", "sync_dns_request_id_2")];
  }

  lemma SilentStragglers()
    ensures Stragglers(twoAgents, twoRequestIds, [Reply(0, synced)])
      == [Request("agent-2", "sync_dns_request_id_2", Unresponsive)]
  {
    var r1, r2 := Request("agent-1", "sync_dns_request_id_1", Successful), Request("agent-2", "sync_dns_request_id_2", Unresponsive);
    SilentFinal();
    WithOutcomeOfPair(r1, r2, Unresponsive);
    assert [] + [r2] == [r2];
  }

  class Broadcaster {
    var events: seq<Event>
    var log: seq<LogLine>
    const ledger: Ledger

    constructor (ledger: Ledger)
      ensures this.ledger == ledger && events == [] && log == []
    {
      this.ledger := ledger;
      events := [];
      log := [];
    }

    /** `delete_arp_entries(vm_cid_to_exclude, ip_addresses)` over the inventory. */
    method DeleteArpEntries(inventory: seq<Instance>, excludeCid: string, ips: seq<string>)
      modifies this`events
      ensures events == old(events) + ArpCalls(FilterInstances(inventory, Some(excludeCid)), ips)
    {
      var targets := FilterInstances(inventory, Some(excludeCid));
      SendArp(targets, ips);
    }

    /** One `delete_arp_entries` message to each target's agent, in order. */
    method SendArp(targets: seq<Instance>, ips: seq<string>)
      requires AllHaveVm(targets)
      modifies this`events
      ensures events == old(events) + ArpCalls(targets, ips)
    {
      var i := 0;
      ghost var start := events;
      while i < |targets|
        invariant 0 <= i <= |targets|
        invariant events == start + ArpCalls(targets[..i], ips)
      {
        assert targets[..i + 1][..i] == targets[..i];
        events := events + [DeleteArpEntriesSent(AgentOf(targets[i]), ips)];
        i := i + 1;
      }
      assert targets[..i] == targets;
    }

    /** Step 2 of sync_dns: one request per target, all registered pending. */
    method Dispatch(targets: seq<Instance>, blobId: string, sha1: string, version: int,
                    requestIds: seq<string>, tracker: Tracker)
      requires AllHaveVm(targets) && |requestIds| == |targets|
      requires tracker.requests == []
      modifies this`events, tracker
      ensures events == old(events) + SyncDnsCalls(targets, blobId, sha1, version)
      ensures tracker.requests == RequestsSoFar(targets, requestIds, [])
    {
      var i := 0;
      ghost var start := events;
      while i < |targets|
        invariant 0 <= i <= |targets|
        invariant events == start + SyncDnsCalls(targets[..i], blobId, sha1, version)
        invariant tracker.requests == RequestsSoFar(targets[..i], requestIds[..i], [])
      {
        assert targets[..i + 1][..i] == targets[..i];
        events := events + [SyncDnsSent(AgentOf(targets[i]), blobId, sha1, version)];
        tracker.Register(AgentOf(targets[i]), requestIds[i]);
        i := i + 1;
      }
      assert targets[..i] == targets && requestIds[..i] == requestIds;
    }

    /** One completion callback, for the request in `reply.slot`. The first one
        for a request is counted: an acknowledgement sets the agent's DNS version
        in the ledger, anything else is logged as unexpected. `p` is what the
        callbacks so far have built, `startVersions` and `startLog` the ledger and
        log before the first of them. */
    method Deliver(version: int, reply: Reply, racer: Option<int>, tracker: Tracker, ghost p: Progress,
                   ghost startVersions: map<string, int>, ghost startLog: seq<LogLine>)
      returns (succeeded: bool, failed: bool)
      requires reply.slot < |p.requests| && ledger.Valid()
      requires tracker.requests == p.requests && log == startLog + p.lines
      requires Versions(ledger.rows) == Stamped(startVersions, p.stamped, version)
      modifies this`log, tracker, ledger
      ensures ledger.Valid()
      ensures var q := Absorb(p, reply);
        && tracker.requests == q.requests && log == startLog + q.lines
        && Versions(ledger.rows) == Stamped(startVersions, q.stamped, version)
        && q.successful == p.successful + (if succeeded then 1 else 0)
        && q.failed == p.failed + (if failed then 1 else 0)
    {
      var agent := tracker.requests[reply.slot].agentId;
      var counted := tracker.Resolve(reply.slot, reply.body);
      ghost var q := Absorb(p, reply);
      succeeded, failed := false, false;
      if !counted {
        assert q == p;
      } else if Classify(reply.body) == Successful {
        ledger.Upsert(agent, version, racer);
        StampOneMore(startVersions, p.stamped, agent, version);
        succeeded := true;
      } else {
        log := log + [UnexpectedResponse(agent, reply.body)];
        assert startLog + q.lines == startLog + p.lines + [UnexpectedResponse(agent, reply.body)];
        failed := true;
      }
    }

    /** Step 4: the completion callbacks, in the order they arrive. */
    method Collect(targets: seq<Instance>, version: int, requestIds: seq<string>, replies: seq<Reply>,
                   racers: map<string, int>, tracker: Tracker) returns (successful: nat, failed: nat)
      requires AllHaveVm(targets) && |requestIds| == |targets|
      requires forall k :: 0 <= k < |replies| ==> replies[k].slot < |targets|
      requires tracker.requests == RequestsSoFar(targets, requestIds, [])
      requires ledger.Valid()
      modifies this`log, tracker, ledger
      ensures ledger.Valid()
      ensures var p := Collected(targets, requestIds, replies);
        && tracker.requests == p.requests && successful == p.successful && failed == p.failed
        && Versions(ledger.rows) == Stamped(Versions(old(ledger.rows)), p.stamped, version)
        && log == old(log) + p.lines
    {
      successful, failed := 0, 0;
      ghost var startLog := log;
      ghost var startVersions := Versions(ledger.rows);
      assert replies[..0] == [];
      ghost var p := Collected(targets, requestIds, replies[..0]);
      var k := 0;
      while k < |replies|
        invariant 0 <= k <= |replies|
        invariant ledger.Valid()
        invariant p == Collected(targets, requestIds, replies[..k])
        invariant tracker.requests == p.requests && successful == p.successful && failed == p.failed
        invariant Versions(ledger.rows) == Stamped(startVersions, p.stamped, version)
        invariant log == startLog + p.lines
      {
        var reply := replies[k];
        var agent := AgentOf(targets[reply.slot]);
        CollectedStep(targets, requestIds, replies, k);
        var s, f := Deliver(version, reply, if agent in racers then Some(racers[agent]) else None, tracker,
                            p, startVersions, startLog);
        p := Absorb(p, reply);
        if s {
          successful := successful + 1;
        }
        if f {
          failed := failed + 1;
        }
        k := k + 1;
      }
      assert replies[..k] == replies;
    }

    /** The deadline passed: cancel every straggler's request, in dispatch order,
        then log the stragglers and the summary. */
    method Finish(stragglers: seq<Request>, summary: Summary)
      modifies this`events, this`log
      ensures events == old(events) + CancelCalls(stragglers)
      ensures log == old(log) + NoResponseLines(stragglers) + [Attempted(summary)]
    {
      var i := 0;
      ghost var start := events;
      while i < |stragglers|
        invariant 0 <= i <= |stragglers|
        invariant events == start + CancelCalls(stragglers[..i])
        invariant log == old(log)
      {
        events := events + [CancelSyncDnsSent(stragglers[i].agentId, stragglers[i].requestId)];
        i := i + 1;
      }
      assert stragglers[..i] == stragglers;
      if |stragglers| > 0 {
        log := log + [NoResponseFrom(RequestAgents(stragglers))];
      }
      log := log + [Attempted(summary)];
    }

    /** sync_dns(instances, blob_id, sha1, version). The proxy's side of the run is
        given: the request id each dispatch returns, the replies that arrive before
        the deadline (in arrival order), and the agents whose ledger insert races
        with another writer and the version that writer inserts. */
    method SyncDns(targets: seq<Instance>, blobId: string, sha1: string, version: int,
                   requestIds: seq<string>, replies: seq<Reply>, racers: map<string, int>)
      returns (r: Result<Summary, BroadcastError>)
      requires |requestIds| == |targets|
      requires forall k :: 0 <= k < |replies| ==> replies[k].slot < |targets|
      requires ledger.Valid()
      modifies this`events, this`log, ledger
      ensures ledger.Valid()
      ensures !AllHaveVm(targets) ==>
        r == Failure(TargetWithoutVm) && events == old(events) && log == old(log) && ledger.rows == old(ledger.rows)
      ensures AllHaveVm(targets) ==>
        && r == Success(SummaryOf(FinalRequests(targets, requestIds, replies)))
        && events == old(events) + SyncDnsCalls(targets, blobId, sha1, version) + [TimeoutStarted]
                      + CancelCalls(Stragglers(targets, requestIds, replies))
        && Versions(ledger.rows) ==
             Stamped(Versions(old(ledger.rows)), SuccessfulAgents(FinalRequests(targets, requestIds, replies)), version)
        && log == old(log) + [SendingTo(AgentIds(targets))] + UnexpectedLines(targets, replies)
                  + NoResponseLines(Stragglers(targets, requestIds, replies))
                  + [Attempted(SummaryOf(FinalRequests(targets, requestIds, replies)))]
      ensures AllHaveVm(targets) ==> TimerAfterDispatches(events[|old(events)|..], |targets|)
    {
      if !AllHaveVm(targets) {
        return Failure(TargetWithoutVm);
      }
      log := log + [SendingTo(AgentIds(targets))];
      var tracker := new Tracker();
      Dispatch(targets, blobId, sha1, version, requestIds, tracker);
      events := events + [TimeoutStarted];
      var successful, failed := Collect(targets, version, requestIds, replies, racers, tracker);
      var stragglers := tracker.ExpirePending();
      AfterDeadline(targets, requestIds, replies);
      var summary := Summary(|targets|, successful, failed, |stragglers|);
      Finish(stragglers, summary);
      TimerInTrace(old(events), events, targets, blobId, sha1, version, Stragglers(targets, requestIds, replies));
      r := Success(summary);
    }
  }
}
