/** How an instance-group spec names the group, picks its lifecycle and release,
    and resolves the jobs colocated on its VMs. Each function is one step of the
    parser, returning the value it stores or the error it raises. */
module JobResolution {
  import opened Wrappers
  import opened Values
  import opened DeploymentPlan

  /** The value a manifest hash holds under a key, when it is a hash that has it. */
  function Field(spec: Value, key: string): Option<Value> {
    if spec.Hash? then Lookup(spec.entries, key) else None
  }

  /** The group's name, a required string. */
  function GroupName(spec: Value): (r: Result<string, ParseError>)
    ensures r.Success? <==> exists s :: Field(spec, "name") == Some(Str(s))
    ensures r.Success? ==> Field(spec, "name") == Some(Str(r.value))
  {
    var v :- SafeProperty(spec, "name", StringKind, false, None);
    if v.Some? && v.value.Str? then Success(v.value.s) else Failure(MissingField("name"))
  }

  /** The lifecycle profile: `service` unless given, and one of the valid profiles;
      a valid given profile is kept as it is. */
  function Lifecycle(spec: Value, group: string): (r: Result<string, ParseError>)
    ensures r.Success? ==> r.value in ValidLifecycleProfiles
    ensures spec.Hash? && Field(spec, "lifecycle").None? ==> r == Success(DefaultLifecycleProfile)
    ensures Field(spec, "lifecycle").Some? ==>
      var v := Field(spec, "lifecycle").value;
      r == if !v.Str? then Failure(InvalidType("lifecycle"))
           else if v.s in ValidLifecycleProfiles then Success(v.s)
           else Failure(JobInvalidLifecycle(v.s, group))
  {
    var v :- SafeProperty(spec, "lifecycle", StringKind, true, Some(Str(DefaultLifecycleProfile)));
    var profile := if v.Some? && v.value.Str? then v.value.s else DefaultLifecycleProfile;
    if profile in ValidLifecycleProfiles then Success(profile)
    else Failure(JobInvalidLifecycle(profile, group))
  }

  /** The group's release: the named one, which must exist, or else the deployment's
      only release, or none when the deployment has several. */
  function GroupRelease(spec: Value, d: Deployment, group: string): (r: Result<Option<Release>, ParseError>)
    ensures r.Success? && r.value.Some? ==> r.value.value in d.releases
    ensures spec.Hash? && Field(spec, "release").None? ==>
      r == Success(if |d.releases| == 1 then Some(d.releases[0]) else None)
    ensures Field(spec, "release").Some? && Field(spec, "release").value.Str? ==>
      var name := Field(spec, "release").value.s;
      (r.Success? <==> ReleaseNamed(d, name).Some?)
      && (r.Success? ==> r.value.Some? && r.value.value.name == name)
      && (r.Failure? ==> r.error == UnknownRelease(group, name))
  {
    var name :- OptionalString(spec, "release");
    if name.None? then Success(if |d.releases| == 1 then Some(d.releases[0]) else None)
    else
      var release := ReleaseNamed(d, name.value);
      if release.None? then Failure(UnknownRelease(group, name.value)) else Success(release)
  }

  /** A key is declared when the spec holds a truthy value under it. */
  predicate Declares(spec: Value, key: string) {
    Field(spec, key).Some? && Truthy(Field(spec, key).value)
  }

  /** Exactly one of `template`, `templates` and `jobs`: no two of them truthy, and
      at least one of them given a value other than nil. */
  function ValidateJobs(spec: Value, group: string): (r: Result<(), ParseError>)
    ensures spec.Hash? ==>
      (r == Failure(BothTemplateAndTemplates(group)) <==> Declares(spec, "template") && Declares(spec, "templates"))
    ensures spec.Hash? ==>
      (r == Failure(BothTemplatesAndJobs(group)) <==>
        !Declares(spec, "template") && Declares(spec, "templates") && Declares(spec, "jobs"))
    ensures spec.Hash? ==>
      (r == Failure(BothTemplateAndJobs(group)) <==>
        Declares(spec, "template") && !Declares(spec, "templates") && Declares(spec, "jobs"))
    ensures spec.Hash? ==>
      (r == Failure(NoJobsKey(group)) <==>
        !Given(spec, "template") && !Given(spec, "templates") && !Given(spec, "jobs"))
    ensures spec.Hash? ==>
      (r.Success? <==>
        !(Declares(spec, "template") && Declares(spec, "templates"))
        && !(Declares(spec, "templates") && Declares(spec, "jobs"))
        && !(Declares(spec, "template") && Declares(spec, "jobs"))
        && (Given(spec, "template") || Given(spec, "templates") || Given(spec, "jobs")))
  {
    var template :- AnyProperty(spec, "template");
    var templates :- AnyProperty(spec, "templates");
    var jobs :- AnyProperty(spec, "jobs");
    if Truthy(template) && Truthy(templates) then Failure(BothTemplateAndTemplates(group))
    else if Truthy(templates) && Truthy(jobs) then Failure(BothTemplatesAndJobs(group))
    else if Truthy(template) && Truthy(jobs) then Failure(BothTemplateAndJobs(group))
    else if template.Null? && templates.Null? && jobs.Null? then Failure(NoJobsKey(group))
    else Success(())
  }

  /** When none of the three keys holds `false`, the check passes exactly when one of
      them is given. */
  lemma ExactlyOneJobsKey(spec: Value, group: string)
    requires spec.Hash?
    requires forall k :: k in ["template", "templates", "jobs"] ==> Field(spec, k) != Some(Bool(false))
    ensures ValidateJobs(spec, group).Success? <==>
      (Given(spec, "template") && !Given(spec, "templates") && !Given(spec, "jobs"))
      || (!Given(spec, "template") && Given(spec, "templates") && !Given(spec, "jobs"))
      || (!Given(spec, "template") && !Given(spec, "templates") && Given(spec, "jobs"))
  {
    assert Field(spec, "template") != Some(Bool(false));
    assert Field(spec, "templates") != Some(Bool(false));
    assert Field(spec, "jobs") != Some(Bool(false));
  }

  /** `Array(template)`: an array as it is, anything else as a one-element list. */
  function TemplateNames(t: Value): (names: seq<Value>)
    ensures t.Arr? ==> names == t.items
    ensures !t.Arr? ==> names == [t]
  {
    if t.Arr? then t.items else [t]
  }

  /** A job named by the legacy `template` key: no links and no scoped properties. */
  function LegacyJob(name: string, release: Release): Job {
    Job(name, release, [], None)
  }

  /** Appends a job per legacy template name to `acc`; a name that is not a string
      is refused. */
  function LegacyJobs(acc: seq<Job>, names: seq<Value>, release: Release): (r: Result<seq<Job>, ParseError>)
    ensures r.Success? <==> forall i :: 0 <= i < |names| ==> names[i].Str?
    ensures r.Failure? ==> r.error == InvalidType("template")
    ensures r.Success? ==>
      |r.value| == |acc| + |names| && r.value[..|acc|] == acc
      && forall i :: 0 <= i < |names| ==> r.value[|acc| + i] == LegacyJob(names[i].s, release)
    decreases |names|
  {
    if names == [] then Success(acc)
    else if !names[0].Str? then Failure(InvalidType("template"))
    else
      var r := LegacyJobs(acc + [LegacyJob(names[0].s, release)], names[1..], release);
      assert r.Success? ==> forall i :: 1 <= i < |names| ==> names[i] == names[1..][i - 1];
      r
  }

  /** The legacy `template` key: when truthy it must be a string or an array of
      names, and the group must have a release for them. */
  function LegacyTemplate(spec: Value, release: Option<Release>, group: string): (r: Result<seq<Job>, ParseError>)
    ensures Field(spec, "template").None? && spec.Hash? ==> r == Success([])
    ensures Declares(spec, "template") ==>
      var t := Field(spec, "template").value;
      (!t.Arr? && !t.Str? ==> r == Failure(InvalidType("template")))
      && ((t.Arr? || t.Str?) && release.None? ==> r == Failure(MissingRelease(group)))
      && ((t.Arr? || t.Str?) && release.Some? ==> r == LegacyJobs([], TemplateNames(t), release.value))
    ensures r.Success? && |r.value| > 0 ==> Declares(spec, "template") && release.Some?
  {
    var t :- AnyProperty(spec, "template");
    if !Truthy(t) then Success([])
    else if !t.Arr? && !t.Str? then Failure(InvalidType("template"))
    else if release.None? then Failure(MissingRelease(group))
    else LegacyJobs([], TemplateNames(t), release.value)
  }

  /** Every job of the legacy `template` key is of the group's release. */
  lemma LegacyJobsReleased(spec: Value, release: Option<Release>, group: string)
    requires LegacyTemplate(spec, release, group).Success?
    ensures var jobs := LegacyTemplate(spec, release, group).value;
      forall i :: 0 <= i < |jobs| ==> release.Some? && jobs[i].release == release.value
  {
    var jobs := LegacyTemplate(spec, release, group).value;
    if |jobs| > 0 {
      var t := Field(spec, "template").value;
      assert t.Arr? || t.Str?;
      var none: seq<Job> := [];
      var names := TemplateNames(t);
      var legacy := LegacyJobs(none, names, release.value);
      assert jobs == legacy.value && |jobs| == |none| + |names|;
      forall i | 0 <= i < |jobs| ensures jobs[i].release == release.value {
        assert legacy.value[|none| + i] == LegacyJob(names[i].s, release.value);
      }
    }
  }

  /** The job entries: `jobs` when given, otherwise the legacy `templates`. Both must
      be arrays when present. */
  function JobSpecs(spec: Value): (r: Result<Option<seq<Value>>, ParseError>)
    ensures (Field(spec, "jobs").Some? && Field(spec, "jobs").value.Arr?
             && (Field(spec, "templates").None? || Field(spec, "templates").value.Arr?)) ==>
      r == Success(Some(Field(spec, "jobs").value.items))
    ensures spec.Hash? && Field(spec, "jobs").None? && Field(spec, "templates").Some? && Field(spec, "templates").value.Arr? ==>
      r == Success(Some(Field(spec, "templates").value.items))
    ensures spec.Hash? && Field(spec, "jobs").None? && Field(spec, "templates").None? ==> r == Success(None)
  {
    var legacy :- OptionalArray(spec, "templates");
    var jobs :- OptionalArray(spec, "jobs");
    Success(if jobs.None? then legacy else jobs)
  }

  /** The release a job entry's `release` value stands for: the named one, or the
      group's release when it names none. */
  function KeyRelease(d: Deployment, groupRelease: Option<Release>, name: Option<string>): Option<Release> {
    if name.Some? then ReleaseNamed(d, name.value) else groupRelease
  }

  /** The release of one job entry; a named release must exist, and an entry without
      one needs the group's. */
  function JobRelease(d: Deployment, groupRelease: Option<Release>, group: string, job: string, name: Option<string>)
    : (r: Result<Release, ParseError>)
    ensures r.Success? <==> KeyRelease(d, groupRelease, name).Some?
    ensures r.Success? ==> r.value == KeyRelease(d, groupRelease, name).value
    ensures r.Failure? && name.Some? ==> r.error == JobUnknownRelease(job, group, name.value)
    ensures r.Failure? && name.None? ==> r.error == JobMissingRelease(job, group)
  {
    if name.Some? then
      var release := ReleaseNamed(d, name.value);
      if release.None? then Failure(JobUnknownRelease(job, group, name.value)) else Success(release.value)
    else if groupRelease.None? then Failure(JobMissingRelease(job, group))
    else Success(groupRelease.value)
  }

  /** The jobs the template table records for a release version. */
  function TemplatesOf(d: Deployment, release: Release): (r: Result<seq<TemplateModel>, ParseError>)
    ensures r.Success? <==> release in d.templateTable
    ensures r.Success? ==> r.value == d.templateTable[release]
  {
    if release in d.templateTable then Success(d.templateTable[release])
    else Failure(ReleaseVersionUnknown(release))
  }

  /** `models.find { |m| m.name == name }` */
  function FindTemplate(models: seq<TemplateModel>, name: string): (r: Option<TemplateModel>)
    ensures r.Some? ==> r.value in models && r.value.name == name
    ensures r.None? ==> forall i :: 0 <= i < |models| ==> models[i].name != name
  {
    if models == [] then None
    else if models[0].name == name then Some(models[0])
    else FindTemplate(models[1..], name)
  }

  /** The model found is the first one carrying the name. */
  lemma {:induction false} FindTemplateFirst(models: seq<TemplateModel>, name: string) returns (i: nat)
    requires FindTemplate(models, name).Some?
    ensures i < |models| && models[i] == FindTemplate(models, name).value
    ensures forall j :: 0 <= j < i ==> models[j].name != name
  {
    if models[0].name == name {
      i := 0;
    } else {
      var k := FindTemplateFirst(models[1..], name);
      i := k + 1;
    }
  }

  /** Link declarations of a release spec, as added to a job for the group. */
  function ReleaseLinks(group: string, kind: LinkKind, decls: Option<seq<Value>>): (ls: seq<Link>)
    ensures decls.None? ==> ls == []
    ensures decls.Some? ==>
      |ls| == |decls.value|
      && forall i :: 0 <= i < |ls| ==>
        ls[i] == Link(group, kind, FromRelease, Get(decls.value[i], "name").GetOr(Null), decls.value[i])
  {
    if decls.None? then []
    else
      seq(|decls.value|, i requires 0 <= i < |decls.value| =>
        Link(group, kind, FromRelease, Get(decls.value[i], "name").GetOr(Null), decls.value[i]))
  }

  /** Link entries of a job's manifest `provides` or `consumes` hash. */
  function ManifestLinks(group: string, kind: LinkKind, decls: Option<seq<Entry>>): (ls: seq<Link>)
    ensures decls.None? ==> ls == []
    ensures decls.Some? ==>
      |ls| == |decls.value|
      && forall i :: 0 <= i < |ls| ==>
        ls[i] == Link(group, kind, FromManifest, Str(decls.value[i].key), decls.value[i].val)
  {
    if decls.None? then []
    else
      seq(|decls.value|, i requires 0 <= i < |decls.value| =>
        Link(group, kind, FromManifest, Str(decls.value[i].key), decls.value[i].val))
  }

  /** The properties a job entry scopes to the group, when it has a `properties` key. */
  function ScopedOf(js: Value, group: string): (r: Result<Option<ScopedProperties>, ParseError>)
    ensures r.Success? && r.value.Some? ==> js.Hash? && HasKey(js.entries, "properties") && r.value.value.group == group
    ensures js.Hash? && !HasKey(js.entries, "properties") ==> r == Success(None)
    ensures js.Hash? && HasKey(js.entries, "properties") ==>
      var p := Lookup(js.entries, "properties").value;
      var u := Lookup(js.entries, "uninterpolated_properties");
      (r.Success? <==> OfKind(p, HashKind) && (u.None? || OfKind(u.value, HashKind)))
      && (r.Success? ==> r.value == Some(ScopedProperties(group, Some(p), u)))
      && (!OfKind(p, HashKind) ==> r == Failure(InvalidType("properties")))
      && (OfKind(p, HashKind) && u.Some? && !OfKind(u.value, HashKind) ==>
            r == Failure(InvalidType("uninterpolated_properties")))
  {
    if js.Hash? && HasKey(js.entries, "properties") then
      var p :- SafeProperty(js, "properties", HashKind, true, None);
      var u :- SafeProperty(js, "uninterpolated_properties", HashKind, true, None);
      Success(Some(ScopedProperties(group, p, u)))
    else Success(None)
  }

  /** The rest of a job entry once its release's templates are known: the job must be
      in the template table; it gets the release's links, then the manifest's. */
  function JobWith(js: Value, name: string, release: Release, models: seq<TemplateModel>, group: string)
    : (r: Result<Job, ParseError>)
    ensures FindTemplate(models, name).None? ==> r == Failure(JobNotInTemplateTable(name))
    ensures r.Success? ==>
      r.value.name == name && r.value.release == release && FindTemplate(models, name).Some?
    ensures r.Success? <==>
      FindTemplate(models, name).Some? && OptionalHash(js, "provides").Success?
      && OptionalHash(js, "consumes").Success? && ScopedOf(js, group).Success?
    ensures r.Success? ==>
      var model := FindTemplate(models, name).value;
      r.value.links == ReleaseLinks(group, Consumes, model.consumed)
        + ReleaseLinks(group, Provides, model.provided)
        + ManifestLinks(group, Provides, OptionalHash(js, "provides").value)
        + ManifestLinks(group, Consumes, OptionalHash(js, "consumes").value)
      && r.value.scoped == ScopedOf(js, group).value
  {
    var model := FindTemplate(models, name);
    if model.None? then Failure(JobNotInTemplateTable(name))
    else
      var provided :- OptionalHash(js, "provides");
      var consumed :- OptionalHash(js, "consumes");
      var scoped :- ScopedOf(js, group);
      var links := ReleaseLinks(group, Consumes, model.value.consumed)
        + ReleaseLinks(group, Provides, model.value.provided)
        + ManifestLinks(group, Provides, provided)
        + ManifestLinks(group, Consumes, consumed);
      Success(Job(name, release, links, scoped))
  }

  /** One entry of `jobs` (or `templates`) resolved to a job of a known release. */
  function JobFrom(js: Value, d: Deployment, groupRelease: Option<Release>, group: string)
    : (r: Result<Job, ParseError>)
    ensures r.Success? ==>
      Field(js, "name") == Some(Str(r.value.name))
      && r.value.release in d.releases + (if groupRelease.Some? then [groupRelease.value] else [])
      && r.value.release in d.templateTable
      && FindTemplate(d.templateTable[r.value.release], r.value.name).Some?
  {
    var name :- RequiredString(js, "name");
    var releaseName :- OptionalString(js, "release");
    var release :- JobRelease(d, groupRelease, group, name, releaseName);
    var models :- TemplatesOf(d, release);
    JobWith(js, name, release, models, group)
  }

  /** The outcome of resolving each job entry. */
  function JobResults(specs: seq<Value>, d: Deployment, groupRelease: Option<Release>, group: string)
    : (rs: seq<Result<Job, ParseError>>)
    ensures |rs| == |specs| && forall i :: 0 <= i < |specs| ==> rs[i] == JobFrom(specs[i], d, groupRelease, group)
  {
    seq(|specs|, i requires 0 <= i < |specs| => JobFrom(specs[i], d, groupRelease, group))
  }

  /** Appends the job of each entry to `acc`, stopping at the first entry that fails. */
  function JobsFrom(acc: seq<Job>, specs: seq<Value>, d: Deployment, groupRelease: Option<Release>, group: string)
    : (r: Result<seq<Job>, ParseError>)
  {
    Collect(acc, JobResults(specs, d, groupRelease, group))
  }

  /** Jobs resolved from job entries belong to the deployment's releases, as do the
      ones before them. */
  lemma JobsFromReleases(acc: seq<Job>, specs: seq<Value>, d: Deployment, groupRelease: Option<Release>, group: string)
    requires JobsFrom(acc, specs, d, groupRelease, group).Success?
    requires groupRelease.Some? ==> groupRelease.value in d.releases
    requires forall i :: 0 <= i < |acc| ==> acc[i].release in d.releases
    ensures var jobs := JobsFrom(acc, specs, d, groupRelease, group).value;
      forall i :: 0 <= i < |jobs| ==> jobs[i].release in d.releases
  {
    var rs := JobResults(specs, d, groupRelease, group);
    var jobs := Collect(acc, rs).value;
    forall i | 0 <= i < |jobs| ensures jobs[i].release in d.releases {
      if i < |acc| {
        assert jobs[i] == jobs[..|acc|][i];
      } else {
        assert jobs[|acc| + (i - |acc|)] == rs[i - |acc|].value;
      }
    }
  }

  /** The jobs of the spec, appended after the legacy ones. */
  function Jobs(acc: seq<Job>, spec: Value, d: Deployment, groupRelease: Option<Release>, group: string)
    : (r: Result<seq<Job>, ParseError>)
    ensures JobSpecs(spec).Success? ==>
      r == if JobSpecs(spec).value.None? then Success(acc)
           else JobsFrom(acc, JobSpecs(spec).value.value, d, groupRelease, group)
  {
    var specs :- JobSpecs(spec);
    if specs.None? then Success(acc) else JobsFrom(acc, specs.value, d, groupRelease, group)
  }

  /** `names.count(n)` */
  function Count(names: seq<string>, n: string): (c: nat)
    ensures c <= |names|
    ensures c == 0 <==> n !in names
  {
    if names == [] then 0 else (if names[0] == n then 1 else 0) + Count(names[1..], n)
  }

  function Names(jobs: seq<Job>): (names: seq<string>)
    ensures |names| == |jobs| && forall i :: 0 <= i < |jobs| ==> names[i] == jobs[i].name
  {
    seq(|jobs|, i requires 0 <= i < |jobs| => jobs[i].name)
  }

  predicate Distinct(names: seq<string>) {
    forall i, j :: 0 <= i < j < |names| ==> names[i] != names[j]
  }

  /** A name at two indices is counted at least twice. */
  lemma {:induction false} CountsRepeat(names: seq<string>, i: nat, j: nat)
    requires i < j < |names| && names[i] == names[j]
    ensures Count(names, names[i]) >= 2
  {
    if i > 0 {
      CountsRepeat(names[1..], i - 1, j - 1);
    } else {
      assert names[1..][j - 1] == names[i];
    }
  }

  /** In a list without repeats every name is counted once. */
  lemma {:induction false} CountsOnce(names: seq<string>, i: nat)
    requires i < |names| && Distinct(names)
    ensures Count(names, names[i]) == 1
  {
    if i > 0 {
      assert Distinct(names[1..]) by {
        forall a, b | 0 <= a < b < |names| - 1 ensures names[1..][a] != names[1..][b] {
          assert names[1..][a] == names[a + 1] && names[1..][b] == names[b + 1];
        }
      }
      CountsOnce(names[1..], i - 1);
    } else {
      assert names[0] !in names[1..] by {
        forall k | 0 <= k < |names| - 1 ensures names[1..][k] != names[0] {
          assert names[1..][k] == names[k + 1];
        }
      }
    }
  }

  /** The uniqueness check from index i on: the first name counted more than once
      is refused. */
  function UniqueFrom(names: seq<string>, i: nat, group: string): (r: Result<(), ParseError>)
    requires i <= |names|
    ensures r.Success? <==> forall k :: i <= k < |names| ==> Count(names, names[k]) <= 1
    ensures r.Failure? ==>
      exists k :: i <= k < |names| && Count(names, names[k]) > 1
        && r.error == DuplicateJob(names[k], group)
        && forall m :: i <= m < k ==> Count(names, names[m]) <= 1
    decreases |names| - i
  {
    if i == |names| then Success(())
    else if Count(names, names[i]) > 1 then Failure(DuplicateJob(names[i], group))
    else UniqueFrom(names, i + 1, group)
  }

  /** The name at index k occurs at another index too, and no name before it does. */
  predicate FirstRepeated(names: seq<string>, k: int) {
    && 0 <= k < |names|
    && (exists j :: 0 <= j < |names| && j != k && names[j] == names[k])
    && forall m, j :: 0 <= m < k && 0 <= j < |names| && j != m ==> names[j] != names[m]
  }

  /** Colocated jobs must have distinct names; the first job whose name occurs twice
      is the one reported. */
  function CheckUniqueness(jobs: seq<Job>, group: string): (r: Result<(), ParseError>)
    ensures r.Success? <==> Distinct(Names(jobs))
    ensures r.Failure? ==>
      exists k :: FirstRepeated(Names(jobs), k) && r.error == DuplicateJob(jobs[k].name, group)
  {
    UniquenessMeansDistinct(Names(jobs));
    FirstDuplicateReported(Names(jobs), group);
    UniqueFrom(Names(jobs), 0, group)
  }

  /** The name the uniqueness check reports occurs twice, and no earlier name does. */
  lemma FirstDuplicateReported(names: seq<string>, group: string)
    ensures var r := UniqueFrom(names, 0, group);
      r.Failure? ==> exists k :: FirstRepeated(names, k) && r.error == DuplicateJob(names[k], group)
  {
    var r := UniqueFrom(names, 0, group);
    if r.Failure? {
      var k :| 0 <= k < |names| && Count(names, names[k]) > 1 && r.error == DuplicateJob(names[k], group)
        && forall m :: 0 <= m < k ==> Count(names, names[m]) <= 1;
      FirstRepeatedName(names, k);
    }
  }

  /** The first name counted more than once occurs at another index, and every name
      before it occurs nowhere else. */
  lemma FirstRepeatedName(names: seq<string>, k: nat)
    requires k < |names| && Count(names, names[k]) > 1
    requires forall m :: 0 <= m < k ==> Count(names, names[m]) <= 1
    ensures FirstRepeated(names, k)
  {
    OtherNameRepeat(names, k);
    forall m, j | 0 <= m < k && 0 <= j < |names| && j != m ensures names[j] != names[m] {
      if names[j] == names[m] {
        if j < m { CountsRepeat(names, j, m); } else { CountsRepeat(names, m, j); }
      }
    }
  }

  /** A name counted twice has an index besides any one index holding it. */
  lemma {:induction false} OtherNameRepeat(names: seq<string>, k: nat)
    requires k < |names| && Count(names, names[k]) > 1
    ensures exists j :: 0 <= j < |names| && j != k && names[j] == names[k]
  {
    if k == 0 {
      assert Count(names[1..], names[0]) > 0;
      var j :| 0 <= j < |names| - 1 && names[1..][j] == names[0];
      assert names[j + 1] == names[0];
    } else if names[0] == names[k] {
      assert names[0] == names[k];
    } else {
      assert names[1..][k - 1] == names[k];
      OtherNameRepeat(names[1..], k - 1);
      var j :| 0 <= j < |names| - 1 && j != k - 1 && names[1..][j] == names[k];
      assert names[j + 1] == names[k];
    }
  }

  /** All counts at most one is the same as no repeated name. */
  lemma UniquenessMeansDistinct(names: seq<string>)
    ensures (forall k :: 0 <= k < |names| ==> Count(names, names[k]) <= 1) <==> Distinct(names)
  {
    if Distinct(names) {
      forall k | 0 <= k < |names| ensures Count(names, names[k]) <= 1 {
        CountsOnce(names, k);
      }
    }
    if forall k :: 0 <= k < |names| ==> Count(names, names[k]) <= 1 {
      forall i, j | 0 <= i < j < |names| ensures names[i] != names[j] {
        if names[i] == names[j] { CountsRepeat(names, i, j); }
      }
    }
  }
}
