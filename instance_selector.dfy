/** Which instances a broadcast goes to: every instance that has an active VM,
    is not a compilation instance, and whose VM is not the one being created. */
module InstanceSelector {
  import opened Wrappers

  /** A VM record: the agent running on it, its cloud id and whether it is the
      instance's active VM. */
  datatype Vm = Vm(agentId: string, cid: string, active: bool)

  /** An instance of the inventory with its optional VM. */
  datatype Instance = Instance(id: nat, name: string, compilation: bool, vm: Option<Vm>)

  /** The three exclusion rules of `filter_instances`. */
  predicate Eligible(x: Instance, excludeCid: Option<string>) {
    && x.vm.Some? && x.vm.value.active
    && !x.compilation
    && excludeCid != Some(x.vm.value.cid)
  }

  /** `filter_instances(vm_cid_to_exclude)` over the inventory, in its order. */
  function FilterInstances(instances: seq<Instance>, excludeCid: Option<string>): (r: seq<Instance>)
    ensures forall x :: x in r <==> x in instances && Eligible(x, excludeCid)
    ensures forall i :: 0 <= i < |r| ==> Eligible(r[i], excludeCid)
    ensures forall x :: x in r ==> multiset(r)[x] == multiset(instances)[x]
    ensures |r| <= |instances|
  {
    if instances == [] then []
    else
      var rest := FilterInstances(instances[1..], excludeCid);
      assert instances == [instances[0]] + instances[1..];
      if Eligible(instances[0], excludeCid) then [instances[0]] + rest else rest
  }

  /** The selection keeps the enumeration order: filtering distributes over
      concatenation of the inventory. */
  lemma {:induction false} FilterKeepsOrder(a: seq<Instance>, b: seq<Instance>, excludeCid: Option<string>)
    ensures FilterInstances(a + b, excludeCid) == FilterInstances(a, excludeCid) + FilterInstances(b, excludeCid)
  {
    if a == [] {
      assert a + b == b;
    } else {
      assert (a + b)[1..] == a[1..] + b;
      FilterKeepsOrder(a[1..], b, excludeCid);
    }
  }

  /** Every selected instance has a VM, so its agent can be addressed. */
  function AgentOf(x: Instance): string
    requires x.vm.Some?
  {
    x.vm.value.agentId
  }

  /** Instance without a VM, or compilation instances, are never selected,
      whatever is excluded (also when nothing is). */
  lemma NeverSelected(instances: seq<Instance>, x: Instance, excludeCid: Option<string>)
    requires x.vm.None? || x.compilation || !x.vm.value.active
    ensures x !in FilterInstances(instances, excludeCid)
  {
  }

  /** The instance whose VM has the excluded cid is dropped; any other eligible
      instance of the inventory stays. */
  lemma ExcludesExactlyTheVmBeingCreated(instances: seq<Instance>, x: Instance, cid: string)
    requires x in instances && x.vm.Some? && x.vm.value.active && !x.compilation
    ensures x in FilterInstances(instances, Some(cid)) <==> x.vm.value.cid != cid
  {
  }
}
