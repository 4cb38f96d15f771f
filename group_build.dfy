/** The instance group an instance-group spec builds, as one value: every step of
    the parser, each updating the fields it sets, in the order `parse` runs them,
    with the first error raised. */
module GroupBuild {
  import opened Wrappers
  import opened Values
  import opened DeploymentPlan
  import opened JobResolution
  import opened GroupSettings

  /** Everything the parser sets on an instance group. */
  datatype GroupState = GroupState(
    name: string,
    canonicalName: string,
    lifecycle: string,
    release: Option<Release>,
    jobs: seq<Job>,
    persistentDisk: Option<int>,
    persistentDiskType: Option<DiskType>,
    allProperties: Value,
    allUninterpolatedProperties: Value,
    vmType: Option<VmType>,
    vmExtensions: seq<Option<VmExtension>>,
    stemcell: Option<Stemcell>,
    env: Env,
    update: Option<UpdateSettings>,
    networks: seq<JobNetwork>,
    defaultNetwork: map<string, string>,
    availabilityZones: seq<string>,
    migratedFrom: seq<MigratedFromJob>,
    state: Option<string>,
    instanceStates: map<string, string>,
    desiredInstances: seq<DesiredInstance>)

  /** What a new instance group holds before any step has run. */
  const Unset: GroupState := GroupState("", "", "", None, [], None, None, Null, Null, None, [], None, Env([], []),
                                        None, [], map[], [], [], None, map[], [])

  /** What one parse reads: the spec and the command-line options, the deployment
      plan, the director's `Canonicalizer.canonicalize`, its `remove_dev_tools`
      setting, and what the networks and availability-zone parsers return for the
      spec. */
  datatype Inputs = Inputs(spec: Value, options: seq<Entry>, d: Deployment, canonicalize: string -> string,
                           removeDevTools: Value, networks: seq<JobNetwork>, zones: seq<string>)

  // One function per step of `parse`, on the instance group built so far.

  function NameStage(g: GroupState, spec: Value, canonicalize: string -> string): Result<GroupState, ParseError> {
    var name :- GroupName(spec);
    Success(g.(name := name, canonicalName := canonicalize(name)))
  }

  function LifecycleStage(g: GroupState, spec: Value): Result<GroupState, ParseError> {
    var lifecycle :- Lifecycle(spec, g.name);
    Success(g.(lifecycle := lifecycle))
  }

  function ReleaseStage(g: GroupState, spec: Value, d: Deployment): Result<GroupState, ParseError> {
    var release :- GroupRelease(spec, d, g.name);
    Success(g.(release := release))
  }

  function JobsKeyStage(g: GroupState, spec: Value): Result<GroupState, ParseError> {
    var _ :- ValidateJobs(spec, g.name);
    Success(g)
  }

  function LegacyStage(g: GroupState, spec: Value): Result<GroupState, ParseError> {
    var legacy :- LegacyTemplate(spec, g.release, g.name);
    Success(g.(jobs := g.jobs + legacy))
  }

  function JobsStage(g: GroupState, spec: Value, d: Deployment): Result<GroupState, ParseError> {
    var jobs :- Jobs(g.jobs, spec, d, g.release, g.name);
    Success(g.(jobs := jobs))
  }

  function UniquenessStage(g: GroupState): Result<GroupState, ParseError> {
    var _ :- CheckUniqueness(g.jobs, g.name);
    Success(g)
  }

  function DiskStage(g: GroupState, spec: Value, d: Deployment): Result<GroupState, ParseError> {
    var disk :- Disk(spec, d, g.name);
    Success(g.(persistentDisk := disk.size, persistentDiskType := disk.diskType))
  }

  function PropertiesStage(g: GroupState, spec: Value, d: Deployment): Result<GroupState, ParseError> {
    var props :- Properties(spec, d);
    Success(g.(allProperties := props.all, allUninterpolatedProperties := props.allUninterpolated))
  }

  function PoolStage(g: GroupState, spec: Value, d: Deployment): Result<GroupState, ParseError> {
    var placement :- VmPlacement(spec, d, g.name);
    Success(g.(vmType := Some(placement.vmType), vmExtensions := placement.vmExtensions,
               stemcell := Some(placement.stemcell), env := placement.env))
  }

  function DevToolsStage(g: GroupState, removeDevTools: Value): Result<GroupState, ParseError> {
    var env :- WithRemoveDevTools(g.env, removeDevTools, g.name);
    Success(g.(env := env))
  }

  function UpdateStage(g: GroupState, spec: Value, options: seq<Entry>, d: Deployment): Result<GroupState, ParseError> {
    var update :- Update(spec, options, d);
    Success(g.(update := Some(update)))
  }

  /** `assign_default_networks` */
  function DefaultsStage(g: GroupState, networks: seq<JobNetwork>): GroupState {
    g.(defaultNetwork := AssignDefaults(g.defaultNetwork, networks, ValidDefaults))
  }

  function MigratedStage(g: GroupState, spec: Value): Result<GroupState, ParseError> {
    var migrated :- MigratedFrom(g.migratedFrom, spec, g.availabilityZones, g.name);
    Success(g.(migratedFrom := migrated))
  }

  function DesiredStage(g: GroupState, spec: Value): Result<GroupState, ParseError> {
    var desired :- DesiredInstances(g.instanceStates, spec, g.networks, g.name);
    Success(g.(state := desired.state, instanceStates := desired.instanceStates, desiredInstances := desired.instances))
  }

  /** From `parse_name` to `check_job_uniqueness`. */
  function JobsSection(g: GroupState, x: Inputs): Result<GroupState, ParseError> {
    var g :- NameStage(g, x.spec, x.canonicalize);
    var g :- LifecycleStage(g, x.spec);
    var g :- ReleaseStage(g, x.spec, x.d);
    var g :- JobsKeyStage(g, x.spec);
    var g :- LegacyStage(g, x.spec);
    var g :- JobsStage(g, x.spec, x.d);
    UniquenessStage(g)
  }

  /** From `parse_disk` to `parse_update_config`. */
  function SettingsSection(g: GroupState, x: Inputs): Result<GroupState, ParseError> {
    var g :- DiskStage(g, x.spec, x.d);
    var g :- PropertiesStage(g, x.spec, x.d);
    var g :- PoolStage(g, x.spec, x.d);
    var g :- DevToolsStage(g, x.removeDevTools);
    UpdateStage(g, x.spec, x.options, x.d)
  }

  /** The networks and their defaults, the availability zones, `parse_migrated_from`
      and `parse_desired_instances`. */
  function InstancesSection(g: GroupState, x: Inputs): Result<GroupState, ParseError> {
    var g := DefaultsStage(g.(networks := x.networks), x.networks).(availabilityZones := x.zones);
    var g :- MigratedStage(g, x.spec);
    DesiredStage(g, x.spec)
  }

  /** The instance group of a spec, or the first error the parser raises; every group
      it builds obeys the rules. */
  function Build(x: Inputs): (r: Result<GroupState, ParseError>)
    ensures r.Success? ==> Consistent(r.value, x)
  {
    var jobsDone :- JobsSection(Unset, x);
    JobsSectionConsistent(x);
    var settingsDone :- SettingsSection(jobsDone, x);
    SettingsSectionConsistent(jobsDone, x);
    var r := InstancesSection(settingsDone, x);
    if r.Success? then InstancesSectionConsistent(settingsDone, x); r else r
  }

  /** The rules every built instance group satisfies. */
  predicate Consistent(g: GroupState, x: Inputs) {
    && JobsConsistent(g, x.d)
    && SettingsConsistent(g, x)
    && InstancesConsistent(g, x.zones)
  }

  /** A valid lifecycle, releases of the deployment, distinct job names. */
  predicate JobsConsistent(g: GroupState, d: Deployment) {
    && g.lifecycle in ValidLifecycleProfiles
    && (g.release.Some? ==> g.release.value in d.releases)
    && (forall i :: 0 <= i < |g.jobs| ==> g.jobs[i].release in d.releases)
    && Distinct(Names(g.jobs))
  }

  /** At most one of disk size and disk type, a size that is not negative, a disk type
      of the deployment, hash properties, and the dev-tools setting when it is on. */
  predicate SettingsConsistent(g: GroupState, x: Inputs) {
    && !(g.persistentDisk.Some? && g.persistentDiskType.Some?)
    && (g.persistentDisk.Some? ==> g.persistentDisk.value >= 0)
    && (g.persistentDiskType.Some? ==> g.persistentDiskType.value in x.d.diskTypes.Values)
    && g.allProperties.Hash? && g.allUninterpolatedProperties.Hash?
    && (Truthy(x.removeDevTools) ==> DevToolsSetting(g.env.spec).Some?)
  }

  /** Default networks among the group's networks, migrated availability zones among
      the group's, valid states, and as many static IPs on a network as instances. */
  predicate InstancesConsistent(g: GroupState, zones: seq<string>) {
    && (forall p :: p in g.defaultNetwork ==>
          exists i :: 0 <= i < |g.networks| && g.networks[i].name == g.defaultNetwork[p] && p in g.networks[i].defaults)
    && (forall i :: 0 <= i < |g.migratedFrom| ==>
          g.migratedFrom[i].az.None? || g.migratedFrom[i].az.value in zones)
    && (g.state.Some? ==> g.state.value in ValidStates)
    && (forall k :: k in g.instanceStates ==> g.instanceStates[k] in ValidStates)
    && (forall i :: 0 <= i < |g.networks| && g.networks[i].staticIps.Some? ==>
          |g.networks[i].staticIps.value| == |g.desiredInstances|)
  }

  /** The steps that set an instance group's fields leave the others as they were;
      these are the fields the later sections do not touch. */
  predicate SameJobs(a: GroupState, b: GroupState) {
    a.name == b.name && a.lifecycle == b.lifecycle && a.release == b.release && a.jobs == b.jobs
  }

  predicate SameSettings(a: GroupState, b: GroupState) {
    && a.persistentDisk == b.persistentDisk && a.persistentDiskType == b.persistentDiskType
    && a.allProperties == b.allProperties && a.allUninterpolatedProperties == b.allUninterpolatedProperties
    && a.env == b.env
  }

  predicate Unstarted(g: GroupState) {
    g.defaultNetwork == map[] && g.migratedFrom == [] && g.instanceStates == map[]
  }

  /** The legacy templates of a new group are jobs of the group's release. */
  lemma LegacyJobsOfRelease(g: GroupState, spec: Value, d: Deployment)
    requires LegacyStage(g, spec).Success? && g.jobs == []
    requires g.release.Some? ==> g.release.value in d.releases
    ensures var jobs := LegacyStage(g, spec).value.jobs;
      forall i :: 0 <= i < |jobs| ==> jobs[i].release in d.releases
  {
    LegacyJobsReleased(spec, g.release, g.name);
  }

  /** Jobs resolved from job entries belong to the deployment's releases. */
  lemma JobsOfReleases(g: GroupState, spec: Value, d: Deployment)
    requires JobsStage(g, spec, d).Success?
    requires g.release.Some? ==> g.release.value in d.releases
    requires forall i :: 0 <= i < |g.jobs| ==> g.jobs[i].release in d.releases
    ensures var jobs := JobsStage(g, spec, d).value.jobs;
      forall i :: 0 <= i < |jobs| ==> jobs[i].release in d.releases
  {
    var specs := JobSpecs(spec).value;
    if specs.Some? {
      JobsFromReleases(g.jobs, specs.value, d, g.release, g.name);
    }
  }

  /** The job steps of a new group give a valid lifecycle, jobs of the deployment's
      releases with distinct names, and set nothing else. */
  lemma JobsSectionConsistent(x: Inputs)
    requires JobsSection(Unset, x).Success?
    ensures JobsConsistent(JobsSection(Unset, x).value, x.d)
    ensures var g := JobsSection(Unset, x).value;
      SameSettings(g, Unset) && g.networks == [] && Unstarted(g)
  {
    var g1 := NameStage(Unset, x.spec, x.canonicalize).value;
    var g2 := LifecycleStage(g1, x.spec).value;
    var g3 := ReleaseStage(g2, x.spec, x.d).value;
    var g4 := JobsKeyStage(g3, x.spec).value;
    LegacyJobsOfRelease(g4, x.spec, x.d);
    var g5 := LegacyStage(g4, x.spec).value;
    JobsOfReleases(g5, x.spec, x.d);
    var g6 := JobsStage(g5, x.spec, x.d).value;
    assert JobsSection(Unset, x) == UniquenessStage(g6);
  }

  /** The settings steps obey the disk, property and dev-tools rules, and change no
      job and no instance field. */
  lemma SettingsSectionConsistent(g: GroupState, x: Inputs)
    requires SettingsSection(g, x).Success?
    ensures SettingsConsistent(SettingsSection(g, x).value, x)
    ensures var r := SettingsSection(g, x).value;
      SameJobs(r, g) && r.networks == g.networks && r.defaultNetwork == g.defaultNetwork
      && r.migratedFrom == g.migratedFrom && r.instanceStates == g.instanceStates
  {
    var g1 := DiskStage(g, x.spec, x.d).value;
    var g2 := PropertiesStage(g1, x.spec, x.d).value;
    var g3 := PoolStage(g2, x.spec, x.d).value;
    var g4 := DevToolsStage(g3, x.removeDevTools).value;
    assert SettingsSection(g, x) == UpdateStage(g4, x.spec, x.options, x.d);
  }

  /** Assigning the defaults of a group with none assigns each default to a network
      that is the default for it. */
  lemma DefaultsFromNetworks(g: GroupState, networks: seq<JobNetwork>)
    requires g.defaultNetwork == map[]
    ensures var m := DefaultsStage(g, networks).defaultNetwork;
      forall p :: p in m ==>
        exists i :: 0 <= i < |networks| && networks[i].name == m[p] && p in networks[i].defaults
  {
    var m := DefaultsStage(g, networks).defaultNetwork;
    forall p | p in m
      ensures exists i :: 0 <= i < |networks| && networks[i].name == m[p] && p in networks[i].defaults
    {
      var i :| FirstDefaultAt(networks, p, i) && networks[i].name == FirstDefault(networks, p).value;
    }
  }

  /** The instance steps of a group with no instance fields set assign defaults from
      its networks, keep migrated zones among its zones, states valid, and as many
      static IPs as instances; they change no job field and no setting. */
  lemma InstancesSectionConsistent(g: GroupState, x: Inputs)
    requires InstancesSection(g, x).Success? && Unstarted(g)
    ensures InstancesConsistent(InstancesSection(g, x).value, x.zones)
    ensures var r := InstancesSection(g, x).value; SameJobs(r, g) && SameSettings(r, g)
  {
    DefaultsFromNetworks(g.(networks := x.networks), x.networks);
    var g1 := DefaultsStage(g.(networks := x.networks), x.networks).(availabilityZones := x.zones);
    var g2 := MigratedStage(g1, x.spec).value;
    assert InstancesSection(g, x) == DesiredStage(g2, x.spec);
  }
}
