/** Per-broadcast bookkeeping of `sync_dns`: one slot per dispatched request,
    each moving once from pending to successful, failed or unresponsive. */
module ResponseTracker {
  import opened Wrappers
  import opened Values

  datatype Outcome = Pending | Successful | Failed | Unresponsive

  /** One dispatched request: the agent, the request id the proxy returned, and
      where the request stands. */
  datatype Request = Request(agentId: string, requestId: string, outcome: Outcome)

  /** An agent acknowledges with a hash whose 'value' is 'synced'; any other
      body is a failure. */
  function Classify(body: Value): (o: Outcome)
    ensures o == Successful <==> Get(body, "value") == Some(Str("synced"))
    ensures o == Successful || o == Failed
  {
    if Get(body, "value") == Some(Str("synced")) then Successful else Failed
  }

  /** A completion for a request: only the first resolution of a pending
      request counts, a later one (or one after the deadline) is dropped. */
  function ResolveRequest(r: Request, body: Value): (r': Request)
    ensures r'.agentId == r.agentId && r'.requestId == r.requestId
    ensures r.outcome != Pending ==> r' == r
    ensures r.outcome == Pending ==> r'.outcome == Classify(body)
  {
    if r.outcome == Pending then r.(outcome := Classify(body)) else r
  }

  /** What the deadline does to the requests: pending ones become unresponsive. */
  function Expire(rs: seq<Request>): (r: seq<Request>)
    ensures |r| == |rs|
    ensures forall i :: 0 <= i < |rs| ==> r[i].agentId == rs[i].agentId && r[i].requestId == rs[i].requestId
    ensures forall i :: 0 <= i < |rs| ==>
      r[i].outcome == if rs[i].outcome == Pending then Unresponsive else rs[i].outcome
  {
    if rs == [] then []
    else
      var last := rs[|rs| - 1];
      Expire(rs[..|rs| - 1]) + [if last.outcome == Pending then last.(outcome := Unresponsive) else last]
  }

  /** The requests with outcome o, in dispatch order. */
  function WithOutcome(rs: seq<Request>, o: Outcome): (r: seq<Request>)
    ensures forall x :: x in r <==> x in rs && x.outcome == o
  {
    if rs == [] then []
    else
      var last := rs[|rs| - 1];
      WithOutcome(rs[..|rs| - 1], o) + (if last.outcome == o then [last] else [])
  }

  /** How many requests have outcome o. */
  function CountOf(rs: seq<Request>, o: Outcome): (n: nat)
    ensures n <= |rs|
  {
    if rs == [] then 0
    else CountOf(rs[..|rs| - 1], o) + if rs[|rs| - 1].outcome == o then 1 else 0
  }

  lemma {:induction false} CountIsLength(rs: seq<Request>, o: Outcome)
    ensures CountOf(rs, o) == |WithOutcome(rs, o)|
  {
    if rs != [] {
      CountIsLength(rs[..|rs| - 1], o);
    }
  }

  /** Resolving a pending request adds one to the count of its new outcome and
      leaves the counts of the other resolved outcomes as they were. */
  lemma {:induction false} ResolveMovesOne(before: seq<Request>, slot: nat, after: seq<Request>, o: Outcome, o': Outcome)
    requires slot < |before| && before[slot].outcome == Pending && o != Pending
    requires after == before[slot := before[slot].(outcome := o)]
    ensures CountOf(after, o) == CountOf(before, o) + 1
    ensures o' != o && o' != Pending ==> CountOf(after, o') == CountOf(before, o')
    decreases |before|
  {
    var n := |before| - 1;
    if slot == n {
      assert after[..n] == before[..n];
    } else {
      assert after[..n] == before[..n][slot := before[slot].(outcome := o)];
      ResolveMovesOne(before[..n], slot, after[..n], o, o');
    }
  }

  /** The requests that were still pending become exactly the unresponsive ones,
      in the same order. */
  lemma {:induction false} ExpiredArePending(rs: seq<Request>)
    requires forall i :: 0 <= i < |rs| ==> rs[i].outcome != Unresponsive
    ensures |WithOutcome(Expire(rs), Unresponsive)| == |WithOutcome(rs, Pending)|
    ensures forall k :: 0 <= k < |WithOutcome(rs, Pending)| ==>
      WithOutcome(Expire(rs), Unresponsive)[k] == WithOutcome(rs, Pending)[k].(outcome := Unresponsive)
  {
    if rs != [] {
      var n := |rs| - 1;
      var init := rs[..n];
      var e := Expire(rs);
      assert e[..n] == Expire(init);
      ExpiredArePending(init);
      assert WithOutcome(e, Unresponsive)
        == WithOutcome(Expire(init), Unresponsive) + (if rs[n].outcome == Pending then [e[n]] else []);
      assert WithOutcome(rs, Pending) == WithOutcome(init, Pending) + (if rs[n].outcome == Pending then [rs[n]] else []);
    }
  }

  /** The deadline leaves successful and failed requests alone. */
  lemma {:induction false} ExpireKeepsResolved(rs: seq<Request>, o: Outcome)
    requires o == Successful || o == Failed
    ensures WithOutcome(Expire(rs), o) == WithOutcome(rs, o)
  {
    if rs != [] {
      var init := rs[..|rs| - 1];
      assert Expire(rs)[..|rs| - 1] == Expire(init);
      ExpireKeepsResolved(init, o);
    }
  }

  /** Every request has exactly one outcome, so the four counts add up to the
      number of requests. */
  lemma {:induction false} CountsAddUp(rs: seq<Request>)
    ensures |WithOutcome(rs, Pending)| + |WithOutcome(rs, Successful)|
          + |WithOutcome(rs, Failed)| + |WithOutcome(rs, Unresponsive)| == |rs|
  {
    if rs != [] {
      CountsAddUp(rs[..|rs| - 1]);
    }
  }

  /** After the deadline nothing is pending. */
  lemma {:induction false} NothingPendingAfterDeadline(rs: seq<Request>)
    ensures WithOutcome(Expire(rs), Pending) == []
  {
    if rs != [] {
      var init := rs[..|rs| - 1];
      assert Expire(rs)[..|rs| - 1] == Expire(init);
      NothingPendingAfterDeadline(init);
    }
  }

  class Tracker {
    var requests: seq<Request>

    constructor ()
      ensures requests == []
    {
      requests := [];
    }

    /** A request was dispatched: its slot starts pending. */
    method Register(agentId: string, requestId: string)
      modifies this
      ensures requests == old(requests) + [Request(agentId, requestId, Pending)]
    {
      requests := requests + [Request(agentId, requestId, Pending)];
    }

    /** A completion callback for the request in `slot`; `counted` says whether it
        resolved the request (it was still pending). */
    method Resolve(slot: nat, body: Value) returns (counted: bool)
      requires slot < |requests|
      modifies this
      ensures counted <==> old(requests)[slot].outcome == Pending
      ensures requests == old(requests)[slot := ResolveRequest(old(requests)[slot], body)]
    {
      counted := requests[slot].outcome == Pending;
      requests := requests[slot := ResolveRequest(requests[slot], body)];
    }

    /** The deadline fired: every pending request becomes unresponsive, and the
        stragglers are returned in dispatch order. */
    method ExpirePending() returns (stragglers: seq<Request>)
      modifies this
      ensures requests == Expire(old(requests))
      ensures stragglers == WithOutcome(old(requests), Pending)
    {
      var i := 0;
      var expired: seq<Request> := [];
      stragglers := [];
      while i < |requests|
        invariant 0 <= i <= |requests|
        invariant expired == Expire(requests[..i])
        invariant stragglers == WithOutcome(requests[..i], Pending)
      {
        var r := requests[i];
        assert requests[..i + 1][..i] == requests[..i];
        if r.outcome == Pending {
          stragglers := stragglers + [r];
          expired := expired + [r.(outcome := Unresponsive)];
        } else {
          expired := expired + [r];
        }
        i := i + 1;
      }
      assert requests[..i] == requests;
      requests := expired;
    }
  }
}
