/** The instance-group spec parser as the director runs it: it creates an instance
    group and fills in its fields one private step after the other, raising at the
    first invalid setting. Each step is proved to compute what the matching stage
    of `GroupBuild.Build` says. */
module InstanceGroupParsing {
  import opened Wrappers
  import opened Values
  import opened DeploymentPlan
  import opened JobResolution
  import opened GroupSettings
  import opened GroupBuild

  /** An instance group of the deployment plan, as the parser fills it in. */
  class InstanceGroup {
    var name: string
    var canonicalName: string
    var lifecycle: string
    var release: Option<Release>
    var jobs: seq<Job>
    var persistentDisk: Option<int>
    var persistentDiskType: Option<DiskType>
    var allProperties: Value
    var allUninterpolatedProperties: Value
    var vmType: Option<VmType>
    var vmExtensions: seq<Option<VmExtension>>
    var stemcell: Option<Stemcell>
    var env: Env
    var update: Option<UpdateSettings>
    var networks: seq<JobNetwork>
    var defaultNetwork: map<string, string>
    var availabilityZones: seq<string>
    var migratedFrom: seq<MigratedFromJob>
    var state: Option<string>
    var instanceStates: map<string, string>
    var desiredInstances: seq<DesiredInstance>

    /** A group with nothing set yet. */
    constructor()
      ensures State() == Unset
    {
      name, canonicalName, lifecycle, release, jobs := "", "", "", None, [];
      persistentDisk, persistentDiskType := None, None;
      allProperties, allUninterpolatedProperties := Null, Null;
      vmType, vmExtensions, stemcell, env := None, [], None, Env([], []);
      update, networks, defaultNetwork, availabilityZones := None, [], map[], [];
      migratedFrom, state, instanceStates, desiredInstances := [], None, map[], [];
    }

    /** The fields of the group as one value. */
    function State(): GroupState
      reads this
    {
      GroupState(name, canonicalName, lifecycle, release, jobs, persistentDisk, persistentDiskType,
                 allProperties, allUninterpolatedProperties, vmType, vmExtensions, stemcell, env,
                 update, networks, defaultNetwork, availabilityZones, migratedFrom,
                 state, instanceStates, desiredInstances)
    }

    /** `name=` */
    method SetName(n: string)
      modifies this`name
      ensures State() == old(State()).(name := n)
    {
      name := n;
    }

    /** `canonical_name=` */
    method SetCanonicalName(n: string)
      modifies this`canonicalName
      ensures State() == old(State()).(canonicalName := n)
    {
      canonicalName := n;
    }

    /** `templates << job` */
    method AddJob(job: Job)
      modifies this`jobs
      ensures State() == old(State()).(jobs := old(jobs) + [job])
    {
      jobs := jobs + [job];
    }

    /** `migrated_from << job` */
    method AddMigratedFrom(job: MigratedFromJob)
      modifies this`migratedFrom
      ensures State() == old(State()).(migratedFrom := old(migratedFrom) + [job])
    {
      migratedFrom := migratedFrom + [job];
    }

    /** `all_properties=` and `all_uninterpolated_properties=` */
    method SetProperties(all: Value, uninterpolated: Value)
      modifies this`allProperties, this`allUninterpolatedProperties
      ensures State() == old(State()).(allProperties := all, allUninterpolatedProperties := uninterpolated)
    {
      allProperties := all;
      allUninterpolatedProperties := uninterpolated;
    }

    /** `all_properties[key] = value` */
    method StoreProperty(key: string, value: Value)
      requires allProperties.Hash?
      modifies this`allProperties
      ensures State() == old(State()).(allProperties := Hash(Put(old(allProperties.entries), key, value)))
    {
      allProperties := Hash(Put(allProperties.entries, key, value));
    }

    /** `networks=` */
    method SetNetworks(ns: seq<JobNetwork>)
      modifies this`networks
      ensures State() == old(State()).(networks := ns)
    {
      networks := ns;
    }

    /** `default_network[property] = network` */
    method StoreDefaultNetwork(property: string, network: string)
      modifies this`defaultNetwork
      ensures State() == old(State()).(defaultNetwork := old(defaultNetwork)[property := network])
    {
      defaultNetwork := defaultNetwork[property := network];
    }

    /** `availability_zones=` */
    method SetAvailabilityZones(zones: seq<string>)
      modifies this`availabilityZones
      ensures State() == old(State()).(availabilityZones := zones)
    {
      availabilityZones := zones;
    }

    /** `state=` */
    method SetState(s: Option<string>)
      modifies this`state
      ensures State() == old(State()).(state := s)
    {
      state := s;
    }

    /** `instance_states[indexOrId] = s` */
    method StoreInstanceState(indexOrId: string, s: string)
      modifies this`instanceStates
      ensures State() == old(State()).(instanceStates := old(instanceStates)[indexOrId := s])
    {
      instanceStates := instanceStates[indexOrId := s];
    }

    /** `desired_instances=` */
    method SetDesiredInstances(ds: seq<DesiredInstance>)
      modifies this`desiredInstances
      ensures State() == old(State()).(desiredInstances := ds)
    {
      desiredInstances := ds;
    }

    /** `vm_type=` */
    method SetVmType(t: VmType)
      modifies this`vmType
      ensures State() == old(State()).(vmType := Some(t))
    {
      vmType := Some(t);
    }

    /** `vm_extensions=` */
    method SetVmExtensions(es: seq<Option<VmExtension>>)
      modifies this`vmExtensions
      ensures State() == old(State()).(vmExtensions := es)
    {
      vmExtensions := es;
    }

    /** `stemcell=` */
    method SetStemcell(sc: Stemcell)
      modifies this`stemcell
      ensures State() == old(State()).(stemcell := Some(sc))
    {
      stemcell := Some(sc);
    }

    /** `env=` */
    method SetEnv(e: Env)
      modifies this`env
      ensures State() == old(State()).(env := e)
    {
      env := e;
    }
  }

  /** A step reported `err` exactly when its stage fails, with the stage's error, and
      otherwise left the group in the state the stage gives. */
  predicate Stepped(err: Option<ParseError>, r: Result<GroupState, ParseError>, now: GroupState) {
    && (err.None? <==> r.Success?)
    && (err.Some? ==> r.error == err.value)
    && (err.None? ==> now == r.value)
  }

  /** `err` is the error of `r`, when it has one. */
  predicate Reports<T>(err: Option<ParseError>, r: Result<T, ParseError>) {
    (err.None? <==> r.Success?) && (err.Some? ==> r.error == err.value)
  }

  class InstanceGroupSpecParser {
    /** The deployment plan the groups belong to. */
    const deployment: Deployment
    /** `Canonicalizer.canonicalize`, whose definition is not part of this model. */
    const canonicalize: string -> string
    /** The director's `remove_dev_tools` setting. */
    const removeDevTools: Value

    constructor(deployment: Deployment, canonicalize: string -> string, removeDevTools: Value)
      ensures this.deployment == deployment && this.canonicalize == canonicalize
      ensures this.removeDevTools == removeDevTools
    {
      this.deployment := deployment;
      this.canonicalize := canonicalize;
      this.removeDevTools := removeDevTools;
    }

    /** The instance group of a spec: what `Build` gives for the same inputs, or the
        error it raises. `networks` and `zones` are what the networks and
        availability-zone parsers return for the spec. */
    method Parse(spec: Value, options: seq<Entry>, networks: seq<JobNetwork>, zones: seq<string>)
      returns (r: Result<InstanceGroup, ParseError>)
      ensures var x := Inputs(spec, options, deployment, canonicalize, removeDevTools, networks, zones);
        (r.Success? <==> Build(x).Success?)
        && (r.Success? ==> fresh(r.value) && r.value.State() == Build(x).value && Consistent(r.value.State(), x))
        && (r.Failure? ==> r.error == Build(x).error)
    {
      ghost var x := Inputs(spec, options, deployment, canonicalize, removeDevTools, networks, zones);
      var ig := new InstanceGroup();
      var err := ParseJobSteps(spec, x, ig);
      if err.Some? { return Failure(err.value); }
      ghost var jobsDone := ig.State();
      err := ParseSettingSteps(spec, options, x, ig);
      if err.Some? { return Failure(err.value); }
      ghost var settingsDone := ig.State();
      err := ParseInstanceSteps(spec, networks, zones, x, ig);
      if err.Some? { return Failure(err.value); }
      return Success(ig);
    }

    /** `parse_name` to `check_job_uniqueness`, in the order `parse` calls them. */
    method ParseJobSteps(spec: Value, ghost x: Inputs, ig: InstanceGroup) returns (err: Option<ParseError>)
      requires x.spec == spec && x.d == deployment && x.canonicalize == canonicalize
      modifies ig`name, ig`canonicalName, ig`lifecycle, ig`release, ig`jobs
      ensures Stepped(err, JobsSection(old(ig.State()), x), ig.State())
    {
      err := ParseName(spec, ig);
      if err.Some? { return; }
      err := ParseLifecycle(spec, ig);
      if err.Some? { return; }
      err := ParseRelease(spec, ig);
      if err.Some? { return; }
      err := ValidateJobKeys(spec, ig);
      if err.Some? { return; }
      err := ParseLegacyTemplate(spec, ig);
      if err.Some? { return; }
      err := ParseJobs(spec, ig);
      if err.Some? { return; }
      err := CheckJobUniqueness(ig);
    }

    /** `parse_disk` to `parse_update_config`, in the order `parse` calls them. */
    method ParseSettingSteps(spec: Value, options: seq<Entry>, ghost x: Inputs, ig: InstanceGroup)
      returns (err: Option<ParseError>)
      requires x.spec == spec && x.options == options && x.d == deployment && x.removeDevTools == removeDevTools
      modifies ig`persistentDisk, ig`persistentDiskType, ig`allProperties, ig`allUninterpolatedProperties
      modifies ig`vmType, ig`vmExtensions, ig`stemcell, ig`env, ig`update
      ensures Stepped(err, SettingsSection(old(ig.State()), x), ig.State())
    {
      err := ParseDisk(spec, ig);
      if err.Some? { return; }
      err := ParseProperties(spec, ig);
      if err.Some? { return; }
      err := ParseResourcePool(spec, ig);
      if err.Some? { return; }
      err := CheckRemoveDevTools(ig);
      if err.Some? { return; }
      err := ParseUpdateConfig(spec, options, ig);
    }

    /** The networks and their defaults, the availability zones, `parse_migrated_from`
        and `parse_desired_instances`, in the order `parse` sets them. */
    method ParseInstanceSteps(spec: Value, networks: seq<JobNetwork>, zones: seq<string>, ghost x: Inputs, ig: InstanceGroup)
      returns (err: Option<ParseError>)
      requires x.spec == spec && x.networks == networks && x.zones == zones
      modifies ig`networks, ig`defaultNetwork, ig`availabilityZones, ig`migratedFrom
      modifies ig`state, ig`instanceStates, ig`desiredInstances
      ensures Stepped(err, InstancesSection(old(ig.State()), x), ig.State())
    {
      ig.SetNetworks(networks);
      AssignDefaultNetworks(networks, ig);
      ig.SetAvailabilityZones(zones);
      err := ParseMigratedFrom(spec, ig);
      if err.Some? { return; }
      var desired;
      err, desired := ParseDesiredInstances(spec, networks, ig);
      if err.Some? { return; }
      ig.SetDesiredInstances(desired);
    }

    method ParseName(spec: Value, ig: InstanceGroup) returns (err: Option<ParseError>)
      modifies ig`name, ig`canonicalName
      ensures Stepped(err, NameStage(old(ig.State()), spec, canonicalize), ig.State())
    {
      var name := GroupName(spec);
      if name.Failure? { return Some(name.error); }
      ig.SetName(name.value);
      ig.SetCanonicalName(canonicalize(name.value));
      return None;
    }

    method ParseLifecycle(spec: Value, ig: InstanceGroup) returns (err: Option<ParseError>)
      modifies ig`lifecycle
      ensures Stepped(err, LifecycleStage(old(ig.State()), spec), ig.State())
    {
      var lifecycle := Lifecycle(spec, ig.name);
      if lifecycle.Failure? { return Some(lifecycle.error); }
      ig.lifecycle := lifecycle.value;
      return None;
    }

    method ParseRelease(spec: Value, ig: InstanceGroup) returns (err: Option<ParseError>)
      modifies ig`release
      ensures Stepped(err, ReleaseStage(old(ig.State()), spec, deployment), ig.State())
    {
      var release := GroupRelease(spec, deployment, ig.name);
      if release.Failure? { return Some(release.error); }
      ig.release := release.value;
      return None;
    }

    /** `validate_jobs` */
    method ValidateJobKeys(spec: Value, ig: InstanceGroup) returns (err: Option<ParseError>)
      ensures Reports(err, ValidateJobs(spec, ig.name))
    {
      var check := ValidateJobs(spec, ig.name);
      if check.Failure? { return Some(check.error); }
      return None;
    }

    /** The jobs the legacy `template` key names, appended one by one. */
    method ParseLegacyTemplate(spec: Value, ig: InstanceGroup) returns (err: Option<ParseError>)
      modifies ig`jobs
      ensures Stepped(err, LegacyStage(old(ig.State()), spec), ig.State())
    {
      var property := AnyProperty(spec, "template");
      if property.Failure? { return Some(property.error); }
      var t := property.value;
      if !Truthy(t) { return None; }
      if !t.Arr? && !t.Str? { return Some(InvalidType("template")); }
      if ig.release.None? { return Some(MissingRelease(ig.name)); }
      var release := ig.release.value;
      var names := TemplateNames(t);
      ghost var added: seq<Job> := [];
      ghost var before := ig.State();
      var i := 0;
      while i < |names|
        invariant 0 <= i <= |names|
        invariant ig.jobs == old(ig.jobs) + added
        invariant ig.State() == before.(jobs := ig.jobs)
        invariant LegacyJobs([], names, release) == LegacyJobs(added, names[i..], release)
      {
        assert names[i..][0] == names[i] && names[i..][1..] == names[i + 1..];
        if !names[i].Str? { return Some(InvalidType("template")); }
        ig.AddJob(LegacyJob(names[i].s, release));
        added := added + [LegacyJob(names[i].s, release)];
        i := i + 1;
      }
      assert names[i..] == [];
      return None;
    }

    /** The jobs of the `jobs` (or legacy `templates`) entries. */
    method ParseJobs(spec: Value, ig: InstanceGroup) returns (err: Option<ParseError>)
      modifies ig`jobs
      ensures Stepped(err, JobsStage(old(ig.State()), spec, deployment), ig.State())
    {
      var legacyJobs := OptionalArray(spec, "templates");
      if legacyJobs.Failure? { return Some(legacyJobs.error); }
      var jobs := OptionalArray(spec, "jobs");
      if jobs.Failure? { return Some(jobs.error); }
      var specs := if jobs.value.None? then legacyJobs.value else jobs.value;
      if specs.None? { return None; }
      err := AppendJobs(specs.value, ig);
    }

    /** Resolves the job entries in turn and appends their jobs; the templates of each
        release are looked up once per release key. */
    method AppendJobs(entries: seq<Value>, ig: InstanceGroup) returns (err: Option<ParseError>)
      modifies ig`jobs
      ensures var r := JobsFrom(old(ig.jobs), entries, deployment, old(ig.release), old(ig.name));
        Reports(err, r) && (err.None? ==> ig.State() == old(ig.State()).(jobs := r.value))
    {
      ghost var rs := JobResults(entries, deployment, ig.release, ig.name);
      // release key => the template models of that release version
      var templatesByRelease: map<Option<string>, seq<TemplateModel>> := map[];
      ghost var before := ig.State();
      var i := 0;
      while i < |entries|
        invariant 0 <= i <= |entries|
        invariant ig.State() == before.(jobs := ig.jobs)
        invariant Collect(old(ig.jobs), rs) == Collect(ig.jobs, rs[i..])
        invariant Memoized(templatesByRelease, ig.release)
      {
        assert rs[i..][0] == rs[i] && rs[i..][1..] == rs[i + 1..];
        var job;
        job, templatesByRelease := ResolveJob(entries[i], ig.release, ig.name, templatesByRelease);
        if job.Failure? { return Some(job.error); }
        ig.AddJob(job.value);
        i := i + 1;
      }
      assert rs[i..] == [];
      return None;
    }

    /** Each cached entry holds the template models of the release its key names. */
    predicate Memoized(templatesByRelease: map<Option<string>, seq<TemplateModel>>, groupRelease: Option<Release>) {
      forall k :: k in templatesByRelease ==>
        KeyRelease(deployment, groupRelease, k).Some?
        && KeyRelease(deployment, groupRelease, k).value in deployment.templateTable
        && templatesByRelease[k] == deployment.templateTable[KeyRelease(deployment, groupRelease, k).value]
    }

    /** One job entry of `parse_jobs`, looking up its release's templates once per
        release key. */
    method ResolveJob(jobSpec: Value, groupRelease: Option<Release>, group: string,
                      templatesByRelease: map<Option<string>, seq<TemplateModel>>)
      returns (job: Result<Job, ParseError>, memo: map<Option<string>, seq<TemplateModel>>)
      requires Memoized(templatesByRelease, groupRelease)
      ensures job == JobFrom(jobSpec, deployment, groupRelease, group)
      ensures Memoized(memo, groupRelease)
    {
      memo := templatesByRelease;
      var templateName := RequiredString(jobSpec, "name");
      if templateName.Failure? { return Failure(templateName.error), memo; }
      var releaseName := OptionalString(jobSpec, "release");
      if releaseName.Failure? { return Failure(releaseName.error), memo; }
      var release := JobRelease(deployment, groupRelease, group, templateName.value, releaseName.value);
      if release.Failure? { return Failure(release.error), memo; }
      if releaseName.value !in memo {
        var models := TemplatesOf(deployment, release.value);
        if models.Failure? { return Failure(models.error), memo; }
        memo := memo[releaseName.value := models.value];
      }
      job := JobWith(jobSpec, templateName.value, release.value, memo[releaseName.value], group);
    }

    /** Each job in turn is refused when its name occurs more than once. */
    method CheckJobUniqueness(ig: InstanceGroup) returns (err: Option<ParseError>)
      ensures Reports(err, CheckUniqueness(ig.jobs, ig.name))
    {
      var allNames := Names(ig.jobs);
      var i := 0;
      while i < |ig.jobs|
        invariant 0 <= i <= |ig.jobs|
        invariant UniqueFrom(allNames, 0, ig.name) == UniqueFrom(allNames, i, ig.name)
      {
        if Count(allNames, ig.jobs[i].name) > 1 {
          return Some(DuplicateJob(ig.jobs[i].name, ig.name));
        }
        i := i + 1;
      }
      return None;
    }

    method ParseDisk(spec: Value, ig: InstanceGroup) returns (err: Option<ParseError>)
      modifies ig`persistentDisk, ig`persistentDiskType
      ensures Stepped(err, DiskStage(old(ig.State()), spec, deployment), ig.State())
    {
      var disk := Disk(spec, deployment, ig.name);
      if disk.Failure? { return Some(disk.error); }
      ig.persistentDisk := disk.value.size;
      ig.persistentDiskType := disk.value.diskType;
      return None;
    }

    /** The merged properties, then each property mapping stored in turn. */
    method ParseProperties(spec: Value, ig: InstanceGroup) returns (err: Option<ParseError>)
      modifies ig`allProperties, ig`allUninterpolatedProperties
      ensures Stepped(err, PropertiesStage(old(ig.State()), spec, deployment), ig.State())
    {
      var own := HashOrEmpty(spec, "properties");
      if own.Failure? { return Some(own.error); }
      var ownUninterpolated := HashOrEmpty(spec, "uninterpolated_properties");
      if ownUninterpolated.Failure? { return Some(ownUninterpolated.error); }
      var merged := MergedProperties(deployment, own.value);
      var uninterpolated := DeepMerge(deployment.uninterpolatedProperties, Hash(ownUninterpolated.value));
      ig.SetProperties(Hash(merged), uninterpolated);
      var mappings := HashOrEmpty(spec, "property_mappings");
      if mappings.Failure? { return Some(mappings.error); }
      PropertiesSteps(spec, deployment);
      err := ApplyMappings(mappings.value, ig);
    }

    /** Each property mapping in turn sets its target to the value its source names. */
    method ApplyMappings(ms: seq<Entry>, ig: InstanceGroup) returns (err: Option<ParseError>)
      requires ig.allProperties.Hash?
      modifies ig`allProperties
      ensures var r := Mapped(old(ig.allProperties.entries), ms);
        Reports(err, r) && (err.None? ==> ig.State() == old(ig.State()).(allProperties := Hash(r.value)))
    {
      ghost var before := ig.State();
      var i := 0;
      while i < |ms|
        invariant 0 <= i <= |ms|
        invariant ig.allProperties.Hash?
        invariant ig.State() == before.(allProperties := ig.allProperties)
        invariant Mapped(before.allProperties.entries, ms) == Mapped(ig.allProperties.entries, ms[i..])
      {
        assert ms[i..][0] == ms[i] && ms[i..][1..] == ms[i + 1..];
        var resolved := LookupProperty(ig.allProperties, ms[i].val);
        if resolved.None? { return Some(InvalidPropertyMapping(ms[i].key, ms[i].val)); }
        ig.StoreProperty(ms[i].key, resolved.value);
        i := i + 1;
      }
      assert ms[i..] == [];
      return None;
    }

    method ParseResourcePool(spec: Value, ig: InstanceGroup) returns (err: Option<ParseError>)
      modifies ig`vmType, ig`vmExtensions, ig`stemcell, ig`env
      ensures Stepped(err, PoolStage(old(ig.State()), spec, deployment), ig.State())
    {
      var placement := VmPlacement(spec, deployment, ig.name);
      if placement.Failure? { return Some(placement.error); }
      ig.SetVmType(placement.value.vmType);
      ig.SetVmExtensions(placement.value.vmExtensions);
      ig.SetStemcell(placement.value.stemcell);
      ig.SetEnv(placement.value.env);
      return None;
    }

    method CheckRemoveDevTools(ig: InstanceGroup) returns (err: Option<ParseError>)
      modifies ig`env
      ensures Stepped(err, DevToolsStage(old(ig.State()), removeDevTools), ig.State())
    {
      var env := WithRemoveDevTools(ig.env, removeDevTools, ig.name);
      if env.Failure? { return Some(env.error); }
      ig.env := env.value;
      return None;
    }

    method ParseUpdateConfig(spec: Value, options: seq<Entry>, ig: InstanceGroup) returns (err: Option<ParseError>)
      modifies ig`update
      ensures Stepped(err, UpdateStage(old(ig.State()), spec, options, deployment), ig.State())
    {
      var update := Update(spec, options, deployment);
      if update.Failure? { return Some(update.error); }
      ig.update := Some(update.value);
      return None;
    }

    /** For each property a network can be the default for, the first network that is. */
    method AssignDefaultNetworks(networks: seq<JobNetwork>, ig: InstanceGroup)
      modifies ig`defaultNetwork
      ensures ig.State() == DefaultsStage(old(ig.State()), networks)
    {
      ghost var before := ig.State();
      var i := 0;
      while i < |ValidDefaults|
        invariant 0 <= i <= |ValidDefaults|
        invariant ig.State() == before.(defaultNetwork := ig.defaultNetwork)
        invariant AssignDefaults(old(ig.defaultNetwork), networks, ValidDefaults)
          == AssignDefaults(ig.defaultNetwork, networks, ValidDefaults[i..])
      {
        assert ValidDefaults[i..][0] == ValidDefaults[i] && ValidDefaults[i..][1..] == ValidDefaults[i + 1..];
        var property := ValidDefaults[i];
        var network := FirstDefault(networks, property);
        if network.Some? {
          ig.StoreDefaultNetwork(property, network.value);
        }
        i := i + 1;
      }
      assert ValidDefaults[i..] == [];
    }

    /** Each `migrated_from` entry in turn, appended once its az is checked. */
    method ParseMigratedFrom(spec: Value, ig: InstanceGroup) returns (err: Option<ParseError>)
      modifies ig`migratedFrom
      ensures Stepped(err, MigratedStage(old(ig.State()), spec), ig.State())
    {
      var migrated := MigratedEntries(spec);
      if migrated.Failure? { return Some(migrated.error); }
      err := AppendMigrated(migrated.value, ig);
    }

    /** Each `migrated_from` entry in turn, with its availability zone checked. */
    method AppendMigrated(entries: seq<Value>, ig: InstanceGroup) returns (err: Option<ParseError>)
      modifies ig`migratedFrom
      ensures var r := Collect(old(ig.migratedFrom), MigratedResults(entries, old(ig.availabilityZones), old(ig.name)));
        Reports(err, r) && (err.None? ==> ig.State() == old(ig.State()).(migratedFrom := r.value))
    {
      ghost var rs := MigratedResults(entries, ig.availabilityZones, ig.name);
      ghost var before := ig.State();
      var i := 0;
      while i < |entries|
        invariant 0 <= i <= |entries|
        invariant ig.State() == before.(migratedFrom := ig.migratedFrom)
        invariant Collect(old(ig.migratedFrom), rs) == Collect(ig.migratedFrom, rs[i..])
      {
        assert rs[i..][0] == rs[i] && rs[i..][1..] == rs[i + 1..];
        var job := ResolveMigrated(entries[i], ig.availabilityZones, ig.name);
        if job.Failure? { return Some(job.error); }
        ig.AddMigratedFrom(job.value);
        i := i + 1;
      }
      assert rs[i..] == [];
      return None;
    }

    /** One `migrated_from` entry: its name, and its `az` when that is a zone of the group. */
    method ResolveMigrated(entry: Value, zones: seq<string>, group: string) returns (job: Result<MigratedFromJob, ParseError>)
      ensures job == MigratedJob(entry, zones, group)
    {
      var name := RequiredString(entry, "name");
      if name.Failure? { return Failure(name.error); }
      var az := OptionalString(entry, "az");
      if az.Failure? { return Failure(az.error); }
      if az.value.Some? && az.value.value !in zones {
        return Failure(InvalidMigratedFromAz(name.value, group, az.value.value));
      }
      return Success(MigratedFromJob(name.value, az.value));
    }

    /** The group's state, the static IP counts checked against `instances`, each
        instance state checked and stored, and the desired instances. */
    method ParseDesiredInstances(spec: Value, networks: seq<JobNetwork>, ig: InstanceGroup)
      returns (err: Option<ParseError>, desired: seq<DesiredInstance>)
      modifies ig`state, ig`instanceStates
      ensures var r := DesiredInstances(old(ig.instanceStates), spec, networks, ig.name);
        Reports(err, r)
        && (err.None? ==>
              ig.State() == old(ig.State()).(state := r.value.state, instanceStates := r.value.instanceStates)
              && desired == r.value.instances)
    {
      desired := [];
      var state := OptionalString(spec, "state");
      if state.Failure? { return Some(state.error), desired; }
      ig.SetState(state.value);
      var instances := RequiredInt(spec, "instances");
      if instances.Failure? { return Some(instances.error), desired; }
      var count := instances.value;
      var states := HashOrEmpty(spec, "instance_states");
      if states.Failure? { return Some(states.error), desired; }
      err := CheckStaticIps(networks, count, ig.name);
      if err.Some? { return err, desired; }
      err := StoreInstanceStates(states.value, ig);
      if err.Some? { return err, desired; }
      if ig.state.Some? && ig.state.value !in ValidStates {
        return Some(InvalidState(ig.name, ig.state.value)), desired;
      }
      desired := DesiredList(count, ig.name);
      return None, desired;
    }

    /** Each network in turn: one with static IPs must have one per instance. */
    method CheckStaticIps(networks: seq<JobNetwork>, count: int, group: string) returns (err: Option<ParseError>)
      ensures Reports(err, StaticIpsMatch(networks, count, group))
    {
      var i := 0;
      while i < |networks|
        invariant 0 <= i <= |networks|
        invariant StaticIpsMatch(networks, count, group) == StaticIpsMatch(networks[i..], count, group)
      {
        assert networks[i..][0] == networks[i] && networks[i..][1..] == networks[i + 1..];
        var staticIps := networks[i].staticIps;
        if staticIps.Some? && |staticIps.value| != count {
          return Some(StaticIpMismatch(group, count, |staticIps.value|, networks[i].name));
        }
        i := i + 1;
      }
      return None;
    }

    /** Each `instance_states` entry in turn, stored once its state is checked. */
    method StoreInstanceStates(entries: seq<Entry>, ig: InstanceGroup) returns (err: Option<ParseError>)
      modifies ig`instanceStates
      ensures var r := InstanceStates(old(ig.instanceStates), entries, ig.name);
        Reports(err, r) && (err.None? ==> ig.State() == old(ig.State()).(instanceStates := r.value))
    {
      ghost var before := ig.State();
      var j := 0;
      while j < |entries|
        invariant 0 <= j <= |entries|
        invariant ig.State() == before.(instanceStates := ig.instanceStates)
        invariant InstanceStates(old(ig.instanceStates), entries, ig.name)
          == InstanceStates(ig.instanceStates, entries[j..], ig.name)
      {
        assert entries[j..][0] == entries[j] && entries[j..][1..] == entries[j + 1..];
        if !ValidStateValue(entries[j].val) {
          return Some(InvalidInstanceState(ig.name, entries[j].key, entries[j].val));
        }
        ig.StoreInstanceState(entries[j].key, entries[j].val.s);
        j := j + 1;
      }
      assert entries[j..] == [];
      return None;
    }
  }
}
