/** The deployment-plan entities an instance group is built from and into, the
    errors its parser raises, and typed access to the properties of a manifest
    hash. */
module DeploymentPlan {
  import opened Wrappers
  import opened Values

  /** A release version of the deployment. */
  datatype Release = Release(name: string, version: string)

  /** A job of a release version as the template table records it, with the link
      declarations of its release spec. */
  datatype TemplateModel = TemplateModel(name: string, consumed: Option<seq<Value>>, provided: Option<seq<Value>>)

  datatype LinkKind = Consumes | Provides

  /** Whether a link was declared by the job's release or in the manifest. */
  datatype LinkOrigin = FromRelease | FromManifest

  /** A link declaration added to a job for an instance group. */
  datatype Link = Link(group: string, kind: LinkKind, origin: LinkOrigin, name: Value, source: Value)

  /** The properties a job entry scopes to one instance group. */
  datatype ScopedProperties = ScopedProperties(group: string, properties: Option<Value>, uninterpolated: Option<Value>)

  /** A job colocated on the group's VMs (a "template" in the director's terms). */
  datatype Job = Job(name: string, release: Release, links: seq<Link>, scoped: Option<ScopedProperties>)

  datatype DiskType = DiskType(name: string, diskSize: int, cloudProperties: Value)
  datatype VmType = VmType(name: string, cloudProperties: Value)
  datatype VmExtension = VmExtension(name: string, cloudProperties: Value)
  datatype Stemcell = Stemcell(alias: string)
  datatype ResourcePool = ResourcePool(name: string, cloudProperties: Value, stemcell: Stemcell, env: seq<Entry>)

  /** What the instance-group parser reads from the deployment plan. Releases are
      looked up by name; the template table is what the release manager finds for
      a release version; the other lookups are partial maps by name. */
  datatype Deployment = Deployment(
    releases: seq<Release>,
    templateTable: map<Release, seq<TemplateModel>>,
    diskTypes: map<string, DiskType>,
    vmTypes: map<string, VmType>,
    vmExtensions: map<string, VmExtension>,
    stemcells: map<string, Stemcell>,
    resourcePools: map<string, ResourcePool>,
    properties: Value,
    uninterpolatedProperties: Value,
    update: Value)

  /** `deployment.release(name)` */
  function ReleaseNamed(d: Deployment, name: string): (r: Option<Release>)
    ensures r.Some? ==> r.value in d.releases && r.value.name == name
    ensures r.None? ==> forall i :: 0 <= i < |d.releases| ==> d.releases[i].name != name
  {
    FirstNamed(d.releases, name)
  }

  function FirstNamed(rs: seq<Release>, name: string): (r: Option<Release>)
    ensures r.Some? ==> r.value in rs && r.value.name == name
    ensures r.None? ==> forall i :: 0 <= i < |rs| ==> rs[i].name != name
  {
    if rs == [] then None
    else if rs[0].name == name then Some(rs[0])
    else FirstNamed(rs[1..], name)
  }

  /** The release found is the first one carrying the name. */
  lemma {:induction false} FirstNamedFirst(rs: seq<Release>, name: string) returns (i: nat)
    requires FirstNamed(rs, name).Some?
    ensures i < |rs| && rs[i] == FirstNamed(rs, name).value
    ensures forall j :: 0 <= j < i ==> rs[j].name != name
  {
    if rs[0].name == name {
      i := 0;
    } else {
      var k := FirstNamedFirst(rs[1..], name);
      i := k + 1;
    }
  }

  /** A network of the group as the networks parser returns it: its static IPs,
      when it has any, and the properties (`dns`, `gateway`) it is the default for. */
  datatype JobNetwork = JobNetwork(name: string, staticIps: Option<seq<string>>, defaults: seq<string>)

  /** The environment handed to the group's VMs, and its uninterpolated form. */
  datatype Env = Env(spec: seq<Entry>, uninterpolated: seq<Entry>)

  /** The input of the group's update configuration: the manifest's `update` hash
      with the command-line overrides merged in, over the deployment's update. */
  datatype UpdateSettings = UpdateSettings(manifest: seq<Entry>, deploymentDefaults: Value)

  datatype MigratedFromJob = MigratedFromJob(name: string, az: Option<string>)

  /** One instance the group should have. */
  datatype DesiredInstance = DesiredInstance(group: string)

  const DefaultLifecycleProfile: string := "service"
  const ValidLifecycleProfiles: seq<string> := ["service", "errand"]
  const ValidStates: seq<string> := ["started", "stopped", "detached", "recreate", "restart"]
  const ValidDefaults: seq<string> := ["dns", "gateway"]

  /** The disk key a disk name came from. */
  datatype DiskSource = TypeKey | PoolKey

  /** The errors the parser raises, each with what its message names. */
  datatype ParseError =
    // ValidationMissingField / ValidationInvalidType raised by property access
    | MissingField(key: string)
    | InvalidType(key: string)
    | NotAHash(key: string)
    | JobInvalidLifecycle(lifecycle: string, group: string)
    | UnknownRelease(group: string, release: string)
    | JobUnknownRelease(job: string, group: string, release: string)
    // InstanceGroupInvalidTemplates for two of template / templates / jobs
    | BothTemplateAndTemplates(group: string)
    | BothTemplatesAndJobs(group: string)
    | BothTemplateAndJobs(group: string)
    // ValidationMissingField when none of them is given
    | NoJobsKey(group: string)
    | MissingRelease(group: string)
    | JobMissingRelease(job: string, group: string)
    | ReleaseVersionUnknown(version: Release)
    | JobNotInTemplateTable(job: string)
    | DuplicateJob(job: string, group: string)
    | BothDiskTypeAndPool(group: string)
    | DiskSizeAndName(group: string, size: int, source: DiskSource, disk: string)
    | InvalidDiskSize(group: string, size: int)
    | UnknownDisk(group: string, source: DiskSource, disk: string)
    | InvalidPropertyMapping(to: string, from: Value)
    | UnknownResourcePool(group: string, pool: string)
    | AmbiguousEnv(group: string, pool: string)
    | UnknownVmType(group: string, vmType: string)
    | UnknownStemcell(group: string, stemcell: string)
    | EnvBoshNotHash(group: string)
    | StaticIpMismatch(group: string, instances: int, ips: nat, network: string)
    | InvalidInstanceState(group: string, indexOrId: string, stateValue: Value)
    | InvalidState(group: string, state: string)
    | InvalidMigratedFromAz(job: string, group: string, az: string)

  /** The class a property must have. */
  datatype Kind = AnyKind | StringKind | IntegerKind | ArrayKind | HashKind

  predicate OfKind(v: Value, k: Kind) {
    match k
    case AnyKind => true
    case StringKind => v.Str?
    case IntegerKind => v.Int?
    case ArrayKind => v.Arr?
    case HashKind => v.Hash?
  }

  /** `safe_property(h, key, class:, optional:, default:)`: a present key must hold a
      value of the class; an absent one gives the default, nothing when optional,
      and otherwise a missing-field error. A nil hash has no keys. */
  function SafeProperty(h: Value, key: string, kind: Kind, optional: bool, default: Option<Value>)
    : (r: Result<Option<Value>, ParseError>)
    ensures !h.Null? && !h.Hash? ==> r == Failure(NotAHash(key))
    ensures h.Hash? && HasKey(h.entries, key) ==>
      var v := Lookup(h.entries, key).value;
      r == if OfKind(v, kind) then Success(Some(v)) else Failure(InvalidType(key))
    ensures (h.Null? || (h.Hash? && !HasKey(h.entries, key))) ==>
      r == if default.Some? then Success(default)
           else if optional then Success(None) else Failure(MissingField(key))
  {
    if !h.Null? && !h.Hash? then Failure(NotAHash(key))
    else if h.Hash? && HasKey(h.entries, key) then
      var v := Lookup(h.entries, key).value;
      if OfKind(v, kind) then Success(Some(v)) else Failure(InvalidType(key))
    else if default.Some? then Success(default)
    else if optional then Success(None)
    else Failure(MissingField(key))
  }

  /** A key is given when it is present with a value other than nil. */
  predicate Given(h: Value, key: string) {
    h.Hash? && HasKey(h.entries, key) && !Lookup(h.entries, key).value.Null?
  }

  /** A required string property. */
  function RequiredString(h: Value, key: string): Result<string, ParseError> {
    var v :- SafeProperty(h, key, StringKind, false, None);
    if v.Some? && v.value.Str? then Success(v.value.s) else Failure(MissingField(key))
  }

  /** An optional string property. */
  function OptionalString(h: Value, key: string): Result<Option<string>, ParseError> {
    var v :- SafeProperty(h, key, StringKind, true, None);
    if v.Some? && v.value.Str? then Success(Some(v.value.s)) else Success(None)
  }

  /** An optional integer property. */
  function OptionalInt(h: Value, key: string): Result<Option<int>, ParseError> {
    var v :- SafeProperty(h, key, IntegerKind, true, None);
    if v.Some? && v.value.Int? then Success(Some(v.value.i)) else Success(None)
  }

  /** A required integer property. */
  function RequiredInt(h: Value, key: string): Result<int, ParseError> {
    var v :- SafeProperty(h, key, IntegerKind, false, None);
    if v.Some? && v.value.Int? then Success(v.value.i) else Failure(MissingField(key))
  }

  /** An optional array property. */
  function OptionalArray(h: Value, key: string): Result<Option<seq<Value>>, ParseError> {
    var v :- SafeProperty(h, key, ArrayKind, true, None);
    if v.Some? && v.value.Arr? then Success(Some(v.value.items)) else Success(None)
  }

  /** An optional hash property. */
  function OptionalHash(h: Value, key: string): Result<Option<seq<Entry>>, ParseError> {
    var v :- SafeProperty(h, key, HashKind, true, None);
    if v.Some? && v.value.Hash? then Success(Some(v.value.entries)) else Success(None)
  }

  /** A hash property that defaults to `{}`. */
  function HashOrEmpty(h: Value, key: string): Result<seq<Entry>, ParseError> {
    var v :- SafeProperty(h, key, HashKind, true, Some(Hash([])));
    if v.Some? && v.value.Hash? then Success(v.value.entries) else Success([])
  }

  /** A property of any class, nil when absent. */
  function AnyProperty(h: Value, key: string): Result<Value, ParseError> {
    var v :- SafeProperty(h, key, AnyKind, true, None);
    Success(v.GetOr(Null))
  }

  /** Appends the value of each outcome to `acc`, stopping at the first error: the
      director raises at the first entry it cannot take. */
  function Collect<T>(acc: seq<T>, rs: seq<Result<T, ParseError>>): (r: Result<seq<T>, ParseError>)
    ensures r.Success? <==> forall i :: 0 <= i < |rs| ==> rs[i].Success?
    ensures r.Success? ==>
      |r.value| == |acc| + |rs| && r.value[..|acc|] == acc
      && forall i :: 0 <= i < |rs| ==> r.value[|acc| + i] == rs[i].value
    ensures r.Failure? ==> exists i :: FirstFailure(rs, i) && r.error == rs[i].error
    decreases |rs|
  {
    if rs == [] then Success(acc)
    else if rs[0].Failure? then
      assert FirstFailure(rs, 0);
      Failure(rs[0].error)
    else
      var r := Collect(acc + [rs[0].value], rs[1..]);
      assert forall i :: 1 <= i < |rs| ==> rs[i] == rs[1..][i - 1];
      assert r.Success? ==>
        r.value[..|acc|] == acc
        && forall i :: 0 <= i < |rs| ==> r.value[|acc| + i] == rs[i].value by {
        if r.Success? {
          assert r.value[..|acc| + 1] == acc + [rs[0].value];
          assert r.value[..|acc|] == (acc + [rs[0].value])[..|acc|];
          forall i | 0 <= i < |rs| ensures r.value[|acc| + i] == rs[i].value {
            if i == 0 {
              assert r.value[|acc|] == (acc + [rs[0].value])[|acc|];
            } else {
              assert |acc| + i == |acc + [rs[0].value]| + (i - 1);
            }
          }
        }
      }
      assert r.Failure? ==> exists i :: FirstFailure(rs, i) && r.error == rs[i].error by {
        if r.Failure? {
          var i :| FirstFailure(rs[1..], i) && r.error == rs[1..][i].error;
          assert FirstFailure(rs, i + 1);
        }
      }
      r
  }

  /** Outcome i is the first error. */
  ghost predicate FirstFailure<T>(rs: seq<Result<T, ParseError>>, i: int) {
    0 <= i < |rs| && rs[i].Failure? && forall k :: 0 <= k < i ==> rs[k].Success?
  }
}
