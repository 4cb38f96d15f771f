# BOSH director: instance-group parsing, agent broadcasts and the config-server client

This project models three parts of the BOSH director and proves properties of the model.

1. **`InstanceGroupSpecParser`.** It turns one `instance_groups` entry of a deployment manifest into an `InstanceGroup`:
   - name, canonical name, lifecycle and release;
   - the colocated jobs, whether named by the legacy `template` key or by `templates`/`jobs`, with their links and scoped properties;
   - the persistent disk;
   - properties and property mappings;
   - VM placement, from a resource pool or from a VM type, extensions and stemcell;
   - the `remove_dev_tools` env;
   - update settings and default networks;
   - `migrated_from`;
   - desired instances, with their static-IP and state checks.

   The group is a class whose setters the parser calls step by step. Every step is tied to a pure stage function (`GroupBuild`). `Parse` succeeds exactly when the composed build succeeds, and the group it builds satisfies the invariants listed under `GroupBuild.Consistent`.
2. **`AgentBroadcaster`.**
   - `filter_instances` selects the instances whose agents a broadcast reaches.
   - `delete_arp_entries` is a fire-and-forget call to each selected agent.
   - `sync_dns`:
     - sends one request per target, then starts the deadline timer;
     - counts only the first reply of each request; `value == 'synced'` is a success;
     - cancels the requests still pending at the deadline, by request id;
     - logs the failures, the stragglers and a summary;
     - writes the new DNS version of every successful agent into the shared `AgentDnsVersion` table. The write is an insert that falls back to an update on a unique violation, so two broadcasts racing on one agent still leave exactly one row.
3. **The config-server client.**
   - Placeholder names: `((name))`, `((!name))`, dot syntax, name validity, and namespacing under `/director/deployment/`.
   - `EnabledClient#interpolate`:
     - collects the placeholders outside the ignored subtrees;
     - raises on the first malformed name before any request is sent;
     - fetches each variable once;
     - collects every fetch error into one message;
     - otherwise replaces the placeholders.
   - `interpolate_deployment_manifest` and `interpolate_runtime_manifest`.
   - `prepare_and_get_property`: found, default, generate, or the certificate parameters.
   - `generate_values`.
   - `DisabledClient`.

Manifests, property hashes and JSON bodies are one value type, `Values.Value`, whose hashes are ordered lists of entries (Ruby hashes keep insertion order). `Values.Document` says that every hash in a value holds each key once, as a Ruby Hash does; the rows below that say "in a document" assume it. Errors are `Result` values, one constructor per error class the director raises.

The broadcaster and the client are specified by their RSpec files. The model follows what those tests require; a test's stubs and expectations become the parameters and `ensures` clauses of the model. The constants of the parser live in other classes of the director; the model takes them from there:
- `InstanceGroup::VALID_LIFECYCLE_PROFILES` is `service` and `errand`, and the default is `service`;
- `InstanceGroup::VALID_STATES` is `started`, `stopped`, `detached`, `recreate` and `restart`;
- `Network::VALID_DEFAULTS` is `dns` and `gateway`.

## Model

| member | source | states |
|---|---|---|
| Values.Lookup | bosh-director/lib/bosh/director/deployment_plan/instance_group_spec_parser.rb:423-424 | a found value is the value of an entry with that key; nothing is found exactly when no entry has the key |
| Values.Put | bosh-director/lib/bosh/director/deployment_plan/instance_group_spec_parser.rb:281 | after `hash[k] = v` the key holds v, every other key keeps its value, and the hash grows only when the key was new |
| Values.Merge | bosh-director/lib/bosh/director/deployment_plan/instance_group_spec_parser.rb:342 | `Hash#merge`: keys of the second hash take its values, the other keys keep the first hash's values |
| Values.At | src/bosh-director/spec/unit/config_server/client_spec.rb:360-367 | the empty path reaches the document itself |
| Values.AtConcat | src/bosh-director/spec/unit/config_server/client_spec.rb:360-367 | navigating by p + q is navigating by p and then, from the value reached, by q; nothing is reached when p reaches nothing |
| Values.AtThrough | src/bosh-director/spec/unit/config_server/client_spec.rb:360-367 | a path that reaches a value passes, at every step, through a hash that has the step's key or an array that has the step's index |
| DeploymentPlan.FirstNamedFirst | bosh-director/lib/bosh/director/deployment_plan/instance_group_spec_parser.rb:84-89 | the release found by name is the first of the deployment's releases with the name: none before it has the name |
| DeploymentPlan.ReleaseNamed | bosh-director/lib/bosh/director/deployment_plan/instance_group_spec_parser.rb:84-89 | `deployment.release(name)`: a returned release has the name; none is returned only when no release of the deployment has it |
| DeploymentPlan.SafeProperty | bosh-director/lib/bosh/director/deployment_plan/instance_group_spec_parser.rb:61 | `safe_property`: a non-hash is refused; a present key yields its value when it has the required class and an InvalidType error otherwise; a missing key yields the default, nothing when optional, or a missing-field error |
| DeploymentPlan.Collect | bosh-director/lib/bosh/director/deployment_plan/instance_group_spec_parser.rb:138-204 | a loop that stops at the first failing entry: it succeeds exactly when every entry does, the values are appended after the prefix in order, and the error is the first failure's |
| JobResolution.GroupName | bosh-director/lib/bosh/director/deployment_plan/instance_group_spec_parser.rb:60-63 | the group is named exactly when the spec holds a string `name`, and that string is the name |
| JobResolution.Lifecycle | bosh-director/lib/bosh/director/deployment_plan/instance_group_spec_parser.rb:65-79 | the lifecycle is always a valid profile; a missing key gives `service`; a given string is kept when valid and reported as JobInvalidLifecycle otherwise; a non-string is InvalidType |
| JobResolution.GroupRelease | bosh-director/lib/bosh/director/deployment_plan/instance_group_spec_parser.rb:81-96 | a named release must exist in the deployment (else UnknownRelease with the name); without the key the deployment's only release is used, and no release when there are several |
| JobResolution.ValidateJobs | bosh-director/lib/bosh/director/deployment_plan/instance_group_spec_parser.rb:391-412 | for each of the four errors (`template` with `templates`, `templates` with `jobs`, `template` with `jobs`, none given) the exact condition under which it is raised, and success exactly when none applies |
| JobResolution.ExactlyOneJobsKey | bosh-director/lib/bosh/director/deployment_plan/instance_group_spec_parser.rb:391-412 | when none of the three keys holds `false`, validation passes exactly when one and only one of them is given |
| JobResolution.TemplateNames | bosh-director/lib/bosh/director/deployment_plan/instance_group_spec_parser.rb:117 | `Array(template)`: an array as it is, anything else as a one-element list |
| JobResolution.LegacyJobs | bosh-director/lib/bosh/director/deployment_plan/instance_group_spec_parser.rb:117-119 | succeeds exactly when every legacy name is a string, appending one job of the group release per name in order |
| JobResolution.LegacyTemplate | bosh-director/lib/bosh/director/deployment_plan/instance_group_spec_parser.rb:99-121 | no key gives no jobs; a value that is neither string nor array is InvalidType; without a group release it is MissingRelease; otherwise one job per name |
| JobResolution.LegacyJobsReleased | bosh-director/lib/bosh/director/deployment_plan/instance_group_spec_parser.rb:113-119 | every job named by `template` belongs to the group's release |
| JobResolution.JobSpecs | bosh-director/lib/bosh/director/deployment_plan/instance_group_spec_parser.rb:124-131 | the entries come from `jobs` when it is given, else from `templates`, each of which must be an array |
| JobResolution.JobRelease | bosh-director/lib/bosh/director/deployment_plan/instance_group_spec_parser.rb:142-153 | a job's release is its named release or the group's; success exactly when that release exists, with JobUnknownRelease for an unknown name and JobMissingRelease when neither is there |
| JobResolution.TemplatesOf | bosh-director/lib/bosh/director/deployment_plan/instance_group_spec_parser.rb:155-162 | the templates of a release version are found exactly when the template table records that release |
| JobResolution.FindTemplate | bosh-director/lib/bosh/director/deployment_plan/instance_group_spec_parser.rb:161-168 | a found template is among the release's and has the name; none is found only when no template has it |
| JobResolution.FindTemplateFirst | bosh-director/lib/bosh/director/deployment_plan/instance_group_spec_parser.rb:161-168 | the template found is the first of the release's templates with the name: none before it has the name |
| JobResolution.ReleaseLinks | bosh-director/lib/bosh/director/deployment_plan/instance_group_spec_parser.rb:170-179 | one link per declaration of the release spec, each of the group, its kind and marked as coming from the release |
| JobResolution.ManifestLinks | bosh-director/lib/bosh/director/deployment_plan/instance_group_spec_parser.rb:181-189 | one link per entry of the job's `provides`/`consumes` hash, each of the group, its kind and marked as coming from the manifest |
| JobResolution.ScopedOf | bosh-director/lib/bosh/director/deployment_plan/instance_group_spec_parser.rb:191-201 | a job entry scopes properties to the group only when it has a `properties` key; with that key, it succeeds exactly when `properties` is a hash and `uninterpolated_properties` is absent or a hash, and then scopes both values as given (an absent `uninterpolated_properties` stays absent); a `properties` of another kind is InvalidType(`properties`), an `uninterpolated_properties` of another kind InvalidType(`uninterpolated_properties`) |
| JobResolution.JobWith | bosh-director/lib/bosh/director/deployment_plan/instance_group_spec_parser.rb:164-203 | a job missing from its release's templates is JobNotInTemplateTable; the job resolves exactly when its template is found, `provides` and `consumes` read as optional hashes and the scoped properties read; a resolved job keeps its name and release, its links are the release's consumes, the release's provides, the manifest's provides and the manifest's consumes in that order, and its scoped properties are those read from the entry |
| JobResolution.JobFrom | bosh-director/lib/bosh/director/deployment_plan/instance_group_spec_parser.rb:138-204 | a resolved job is named as its entry, of a release of the deployment or the group, recorded in the template table, whose templates include it |
| JobResolution.JobsFromReleases | bosh-director/lib/bosh/director/deployment_plan/instance_group_spec_parser.rb:142-153 | every job resolved from `jobs`/`templates` belongs to one of the deployment's releases |
| JobResolution.Jobs | bosh-director/lib/bosh/director/deployment_plan/instance_group_spec_parser.rb:123-206 | the entries' jobs are appended after the legacy ones, stopping at the first entry that fails |
| JobResolution.Count | bosh-director/lib/bosh/director/deployment_plan/instance_group_spec_parser.rb:211 | `names.count(n)` is zero exactly when n is absent |
| JobResolution.CheckUniqueness | bosh-director/lib/bosh/director/deployment_plan/instance_group_spec_parser.rb:208-216 | succeeds exactly when the job names are distinct; a failure names the first job whose name occurs twice |
| JobResolution.FirstDuplicateReported | bosh-director/lib/bosh/director/deployment_plan/instance_group_spec_parser.rb:210-214 | the reported name is counted more than once and no earlier name is |
| JobResolution.UniquenessMeansDistinct | bosh-director/lib/bosh/director/deployment_plan/instance_group_spec_parser.rb:210-214 | every name counted at most once is the same as no name repeated |
| GroupSettings.Disk | bosh-director/lib/bosh/director/deployment_plan/instance_group_spec_parser.rb:218-261 | a disk has a size or a type, never both; the exact conditions of each error (type with pool, size with a name, negative size, unknown disk type or pool), and success exactly when none applies, with the type found by its name |
| GroupSettings.DeepMerge | bosh-director/lib/bosh/director/deployment_plan/instance_group_spec_parser.rb:265-269 | `recursive_merge`: a non-hash side gives the second value; two hashes give the union of keys, with the first hash's values where the second lacks the key |
| GroupSettings.DeepMergeOverrides | bosh-director/lib/bosh/director/deployment_plan/instance_group_spec_parser.rb:265-269 | a key of the second hash ends with the second hash's value, merged with the first's |
| GroupSettings.LookupProperty | bosh-director/lib/bosh/director/deployment_plan/instance_group_spec_parser.rb:274-281 | a mapping source resolves exactly when it is a string whose dotted key path reaches a non-nil value, and then to that value |
| GroupSettings.DropTrailingEmpty | bosh-director/lib/bosh/director/deployment_plan/instance_group_spec_parser.rb:274 | Ruby's `split('.')` drops only trailing empty segments |
| GroupSettings.Mapped | bosh-director/lib/bosh/director/deployment_plan/instance_group_spec_parser.rb:271-282 | a failure is InvalidPropertyMapping naming one of the mappings |
| GroupSettings.MappedKeys | bosh-director/lib/bosh/director/deployment_plan/instance_group_spec_parser.rb:271-282 | after mapping, every key the properties had is still there, every target key is set, and a key no mapping targets keeps its value |
| GroupSettings.MappedMeaning | bosh-director/lib/bosh/director/deployment_plan/instance_group_spec_parser.rb:271-282 | the mappings succeed exactly when each one's source resolves in the properties as the earlier mappings left them; a failure is InvalidPropertyMapping naming a mapping whose source does not resolve there |
| GroupSettings.FailsAtIsFirst | bosh-director/lib/bosh/director/deployment_plan/instance_group_spec_parser.rb:271-282 | a mapping that fails is the first to fail: every earlier one resolves |
| GroupSettings.MappedTargetValue | bosh-director/lib/bosh/director/deployment_plan/instance_group_spec_parser.rb:277-281 | the last mapping to a key leaves that key holding the value its source resolved to when the mapping was applied |
| GroupSettings.Properties | bosh-director/lib/bosh/director/deployment_plan/instance_group_spec_parser.rb:263-283 | the group's properties are hashes; a key no mapping targets has its deep-merged value; every mapping target is set; the uninterpolated properties are the deep merge; once the three hashes are read, a failure is InvalidPropertyMapping |
| GroupSettings.PropertiesSteps | bosh-director/lib/bosh/director/deployment_plan/instance_group_spec_parser.rb:263-283 | the properties are the two merges followed by the mappings, and a mapping failure is the step's failure |
| GroupSettings.PropertiesMappings | bosh-director/lib/bosh/director/deployment_plan/instance_group_spec_parser.rb:263-283 | the properties succeed exactly when every mapping resolves in order over the merged properties; a failure names the mapping that fails, and the last mapping to a key gives that key its resolved value |
| GroupSettings.Extensions | bosh-director/lib/bosh/director/deployment_plan/instance_group_spec_parser.rb:323-324 | one lookup per extension name, giving nothing for an unknown name |
| GroupSettings.VmPlacement | bosh-director/lib/bosh/director/deployment_plan/instance_group_spec_parser.rb:285-338 | the uninterpolated env is the group's own; with `resource_pool`: UnknownResourcePool for an unknown pool, AmbiguousEnv exactly when both envs are given, and a success carries the pool's VM type and stemcell, no extensions and the group's env or the pool's; without it: an unknown `vm_type` is UnknownVmType, and a success uses the named VM type, the named stemcell and the group's env |
| GroupSettings.PlacementWithPool | bosh-director/lib/bosh/director/deployment_plan/instance_group_spec_parser.rb:291-314 | with a known `resource_pool` and the env hashes read: AmbiguousEnv exactly when the group and the pool both give an env, success exactly when they do not, and then the placement is the pool's VM type, no extensions, the pool's stemcell, the group's env (the pool's when the group gives none) and the group's uninterpolated env |
| GroupSettings.PlacementWithoutPool | bosh-director/lib/bosh/director/deployment_plan/instance_group_spec_parser.rb:318-337 | without `resource_pool`, once the env hashes, a known `vm_type`, the extension list and a `stemcell` name are read: UnknownStemcell exactly when no stemcell has that name, success exactly when one does, and the placement is the VM type, one extension lookup per listed name, the stemcell and the group's env |
| GroupSettings.WithRemoveDevTools | bosh-director/lib/bosh/director/deployment_plan/instance_group_spec_parser.rb:421-428 | an unset director setting, or one already in the env, leaves the env unchanged; otherwise `bosh.remove_dev_tools` is added and other keys are kept; a non-hash `bosh` is refused |
| GroupSettings.Overrides | bosh-director/lib/bosh/director/deployment_plan/instance_group_spec_parser.rb:38-40 | only `canaries` and `max_in_flight` can be overridden, each when its option is set |
| GroupSettings.Update | bosh-director/lib/bosh/director/deployment_plan/instance_group_spec_parser.rb:340-343 | the update settings carry the deployment defaults and the manifest's `update` hash with the set overrides replacing its values |
| GroupSettings.FirstDefault | bosh-director/lib/bosh/director/deployment_plan/instance_group_spec_parser.rb:416-417 | the first network that is the default for a property, and none exactly when no network is |
| GroupSettings.AssignDefaults | bosh-director/lib/bosh/director/deployment_plan/instance_group_spec_parser.rb:414-419 | each of `dns` and `gateway` is assigned its first default network; other entries are kept |
| GroupSettings.MigratedJob | bosh-director/lib/bosh/director/deployment_plan/instance_group_spec_parser.rb:375-389 | a migration source is named, and an az it names must be one of the group's zones (else InvalidMigratedFromAz) |
| GroupSettings.MigratedFrom | bosh-director/lib/bosh/director/deployment_plan/instance_group_spec_parser.rb:375-389 | the sources are appended after those already there, each with an az of the group's zones, stopping at the first bad entry |
| GroupSettings.StaticIpsMatch | bosh-director/lib/bosh/director/deployment_plan/instance_group_spec_parser.rb:350-356 | succeeds exactly when every network with static IPs has one per instance; a failure names a network whose count differs |
| GroupSettings.InstanceStates | bosh-director/lib/bosh/director/deployment_plan/instance_group_spec_parser.rb:358-365 | succeeds exactly when every `instance_states` value is a valid state; each is stored under its key, others are kept, and a failure names the bad entry |
| GroupSettings.DesiredList | bosh-director/lib/bosh/director/deployment_plan/instance_group_spec_parser.rb:372 | `instances.times.map`: one desired instance of the group per count, none for a negative count |
| GroupSettings.DesiredInstances | bosh-director/lib/bosh/director/deployment_plan/instance_group_spec_parser.rb:345-373 | the instance count, the matching static IPs, a valid state kept as given (none when absent), valid instance states, and InvalidState exactly when the given state is invalid |
| GroupBuild.LegacyJobsOfRelease | bosh-director/lib/bosh/director/deployment_plan/instance_group_spec_parser.rb:99-121 | the legacy jobs the build adds belong to the group's release |
| GroupBuild.JobsOfReleases | bosh-director/lib/bosh/director/deployment_plan/instance_group_spec_parser.rb:123-206 | every job the build adds belongs to a release of the deployment |
| GroupBuild.JobsSectionConsistent | bosh-director/lib/bosh/director/deployment_plan/instance_group_spec_parser.rb:23-32 | after the name, lifecycle, release and job steps the group has a valid lifecycle, jobs of the deployment's releases and distinct job names |
| GroupBuild.SettingsSectionConsistent | bosh-director/lib/bosh/director/deployment_plan/instance_group_spec_parser.rb:33-41 | the setting steps keep the jobs, networks and instance fields, and leave at most one of disk size and type, a size that is not negative, a disk type of the deployment, hash properties, and the dev-tools setting in the env when the director turns it on |
| GroupBuild.DefaultsFromNetworks | bosh-director/lib/bosh/director/deployment_plan/instance_group_spec_parser.rb:414-419 | each assigned default network is a network of the group that is the default for its property |
| GroupBuild.InstancesSectionConsistent | bosh-director/lib/bosh/director/deployment_plan/instance_group_spec_parser.rb:43-53 | the instance steps leave valid defaults, migration azs in the group's zones, matching static IPs and valid states |
| GroupBuild.Build | bosh-director/lib/bosh/director/deployment_plan/instance_group_spec_parser.rb:19-56 | every group a successful build produces satisfies the job, setting and instance invariants above at once |
| InstanceGroupParsing.InstanceGroup.constructor | bosh-director/lib/bosh/director/deployment_plan/instance_group_spec_parser.rb:21 | a new group starts with every attribute unset |
| InstanceGroupParsing.InstanceGroup.AddJob | bosh-director/lib/bosh/director/deployment_plan/instance_group_spec_parser.rb:203 | `jobs << job` appends the job and changes nothing else |
| InstanceGroupParsing.InstanceGroup.StoreProperty | bosh-director/lib/bosh/director/deployment_plan/instance_group_spec_parser.rb:281 | setting one property key changes only the properties |
| InstanceGroupParsing.InstanceGroup.StoreInstanceState | bosh-director/lib/bosh/director/deployment_plan/instance_group_spec_parser.rb:364 | storing one instance state changes only the instance states |
| InstanceGroupParsing.InstanceGroupSpecParser.constructor | bosh-director/lib/bosh/director/deployment_plan/instance_group_spec_parser.rb:11-15 | the parser keeps its deployment and director settings |
| InstanceGroupParsing.InstanceGroupSpecParser.Parse | bosh-director/lib/bosh/director/deployment_plan/instance_group_spec_parser.rb:19-56 | `parse` succeeds exactly when the composed build does; a success is a new group whose state is the build's and satisfies the build's invariants; a failure carries the build's error |
| InstanceGroupParsing.InstanceGroupSpecParser.ParseJobSteps | bosh-director/lib/bosh/director/deployment_plan/instance_group_spec_parser.rb:23-32 | the name-to-uniqueness steps run in source order and leave the group as the job section of the build does |
| InstanceGroupParsing.InstanceGroupSpecParser.ParseSettingSteps | bosh-director/lib/bosh/director/deployment_plan/instance_group_spec_parser.rb:33-41 | the disk-to-update steps leave the group as the settings section of the build does |
| InstanceGroupParsing.InstanceGroupSpecParser.ParseInstanceSteps | bosh-director/lib/bosh/director/deployment_plan/instance_group_spec_parser.rb:43-53 | the network-to-desired-instance steps leave the group as the instance section of the build does |
| InstanceGroupParsing.InstanceGroupSpecParser.ParseName | bosh-director/lib/bosh/director/deployment_plan/instance_group_spec_parser.rb:60-63 | sets the name and the canonical name, or fails with the name step's error |
| InstanceGroupParsing.InstanceGroupSpecParser.ParseLifecycle | bosh-director/lib/bosh/director/deployment_plan/instance_group_spec_parser.rb:65-79 | sets the lifecycle, or fails with the lifecycle step's error |
| InstanceGroupParsing.InstanceGroupSpecParser.ParseRelease | bosh-director/lib/bosh/director/deployment_plan/instance_group_spec_parser.rb:81-96 | sets the group release, or fails with the release step's error |
| InstanceGroupParsing.InstanceGroupSpecParser.ValidateJobKeys | bosh-director/lib/bosh/director/deployment_plan/instance_group_spec_parser.rb:391-412 | reports exactly the jobs-key validation result and changes nothing |
| InstanceGroupParsing.InstanceGroupSpecParser.ParseLegacyTemplate | bosh-director/lib/bosh/director/deployment_plan/instance_group_spec_parser.rb:99-121 | appends the legacy jobs one by one, as the legacy step computes them, or fails with its error |
| InstanceGroupParsing.InstanceGroupSpecParser.ParseJobs | bosh-director/lib/bosh/director/deployment_plan/instance_group_spec_parser.rb:123-206 | appends the resolved jobs after the legacy ones, as the jobs step computes them, or fails with its error |
| InstanceGroupParsing.InstanceGroupSpecParser.AppendJobs | bosh-director/lib/bosh/director/deployment_plan/instance_group_spec_parser.rb:138-204 | the loop over job entries appends exactly the jobs of the entries, stopping at the first failure; the template cache only ever holds a release's true templates |
| InstanceGroupParsing.InstanceGroupSpecParser.ResolveJob | bosh-director/lib/bosh/director/deployment_plan/instance_group_spec_parser.rb:139-203 | one entry's job, filling the template cache for its release when it is missing |
| InstanceGroupParsing.InstanceGroupSpecParser.CheckJobUniqueness | bosh-director/lib/bosh/director/deployment_plan/instance_group_spec_parser.rb:208-216 | reports exactly the uniqueness result for the group's jobs |
| InstanceGroupParsing.InstanceGroupSpecParser.ParseDisk | bosh-director/lib/bosh/director/deployment_plan/instance_group_spec_parser.rb:218-261 | sets the persistent disk size or type as the disk rules decide, or fails with their error |
| InstanceGroupParsing.InstanceGroupSpecParser.ParseProperties | bosh-director/lib/bosh/director/deployment_plan/instance_group_spec_parser.rb:263-283 | sets the merged, mapped properties, or fails with the properties error |
| InstanceGroupParsing.InstanceGroupSpecParser.ApplyMappings | bosh-director/lib/bosh/director/deployment_plan/instance_group_spec_parser.rb:271-282 | the loop over mappings leaves the properties as the mappings define, or fails naming the first that does not resolve |
| InstanceGroupParsing.InstanceGroupSpecParser.ParseResourcePool | bosh-director/lib/bosh/director/deployment_plan/instance_group_spec_parser.rb:285-338 | sets VM type, extensions, stemcell and env as the placement rules decide, or fails with their error |
| InstanceGroupParsing.InstanceGroupSpecParser.CheckRemoveDevTools | bosh-director/lib/bosh/director/deployment_plan/instance_group_spec_parser.rb:421-428 | sets the env as the `remove_dev_tools` rule decides |
| InstanceGroupParsing.InstanceGroupSpecParser.ParseUpdateConfig | bosh-director/lib/bosh/director/deployment_plan/instance_group_spec_parser.rb:340-343 | sets the update settings from the manifest, the overrides and the deployment |
| InstanceGroupParsing.InstanceGroupSpecParser.AssignDefaultNetworks | bosh-director/lib/bosh/director/deployment_plan/instance_group_spec_parser.rb:414-419 | stores the default network of each default property |
| InstanceGroupParsing.InstanceGroupSpecParser.ParseMigratedFrom | bosh-director/lib/bosh/director/deployment_plan/instance_group_spec_parser.rb:375-389 | appends the migration sources, or fails naming the bad entry |
| InstanceGroupParsing.InstanceGroupSpecParser.AppendMigrated | bosh-director/lib/bosh/director/deployment_plan/instance_group_spec_parser.rb:376-388 | the loop over `migrated_from` appends each entry's source in order, stopping at the first failure |
| InstanceGroupParsing.InstanceGroupSpecParser.ResolveMigrated | bosh-director/lib/bosh/director/deployment_plan/instance_group_spec_parser.rb:378-387 | one entry's migration source, with its az checked against the group's zones |
| InstanceGroupParsing.InstanceGroupSpecParser.ParseDesiredInstances | bosh-director/lib/bosh/director/deployment_plan/instance_group_spec_parser.rb:345-373 | reports the desired-instances result and sets the state, instance states and desired instances accordingly |
| InstanceGroupParsing.InstanceGroupSpecParser.CheckStaticIps | bosh-director/lib/bosh/director/deployment_plan/instance_group_spec_parser.rb:350-356 | the loop over networks reports exactly the static-IP count check |
| InstanceGroupParsing.InstanceGroupSpecParser.StoreInstanceStates | bosh-director/lib/bosh/director/deployment_plan/instance_group_spec_parser.rb:358-365 | the loop over `instance_states` reports exactly the instance-state check and stores each valid state |
| InstanceSelector.FilterInstances | src/bosh-director/spec/unit/agent_broadcaster_spec.rb:24-72 | an instance is selected exactly when it is in the inventory, has an active VM, is not a compilation instance and is not the VM being created; each selected instance appears as often as in the inventory |
| InstanceSelector.FilterKeepsOrder | src/bosh-director/spec/unit/agent_broadcaster_spec.rb:24-72 | the selection keeps the inventory's order: filtering distributes over concatenation |
| InstanceSelector.NeverSelected | src/bosh-director/spec/unit/agent_broadcaster_spec.rb:39-60 | an instance without a VM, with an inactive VM or for compilation is never selected |
| InstanceSelector.ExcludesExactlyTheVmBeingCreated | src/bosh-director/spec/unit/agent_broadcaster_spec.rb:25-37 | an otherwise eligible instance is dropped exactly when its VM has the excluded cid |
| VersionLedger.Versions | src/bosh-director/spec/unit/agent_broadcaster_spec.rb:166-221 | every agent with a row is a key of the table's map view |
| VersionLedger.VersionsKeys | src/bosh-director/spec/unit/agent_broadcaster_spec.rb:107-131 | the keys of the map view are exactly the agents that have a row |
| VersionLedger.VersionsOfUnique | src/bosh-director/spec/unit/agent_broadcaster_spec.rb:107-131 | under the unique constraint the map view has as many keys as the table has rows (`AgentDnsVersion.all.length`), and each agent's key holds its row's version |
| VersionLedger.SetVersion | src/bosh-director/spec/unit/agent_broadcaster_spec.rb:188-199 | the update sets the agent's rows to the version and leaves the other rows alone |
| VersionLedger.VersionsOfSetVersion | src/bosh-director/spec/unit/agent_broadcaster_spec.rb:188-199 | the update changes the agent's version when it has a row and nothing otherwise |
| VersionLedger.OneRowPerAgent | src/bosh-director/spec/unit/agent_broadcaster_spec.rb:201-220 | under the unique constraint an agent has at most one row |
| VersionLedger.Ledger.Create | src/bosh-director/spec/unit/agent_broadcaster_spec.rb:179-186 | the insert violates the constraint exactly when the agent has a row; otherwise it appends the row |
| VersionLedger.Ledger.Upsert | src/bosh-director/spec/unit/agent_broadcaster_spec.rb:166-221 | whether or not another writer inserted the agent first, the agent ends with exactly one row holding the new version and other agents are unchanged; the table gains one row exactly when the agent had none |
| ResponseTracker.Classify | src/bosh-director/spec/unit/agent_broadcaster_spec.rb:133-164 | a reply is a success exactly when its `value` is `synced`, and a failure otherwise |
| ResponseTracker.ResolveRequest | src/bosh-director/spec/unit/agent_broadcaster_spec.rb:107-164 | only the first reply to a pending request decides its outcome |
| ResponseTracker.Expire | src/bosh-director/spec/unit/agent_broadcaster_spec.rb:223-258 | at the deadline every pending request becomes unresponsive and every other request is kept |
| ResponseTracker.ResolveMovesOne | src/bosh-director/spec/unit/agent_broadcaster_spec.rb:107-164 | resolving a request adds one to its outcome's count and leaves the other resolved counts |
| ResponseTracker.ExpiredArePending | src/bosh-director/spec/unit/agent_broadcaster_spec.rb:223-258 | the unresponsive requests are exactly the ones that were pending, in order |
| ResponseTracker.ExpireKeepsResolved | src/bosh-director/spec/unit/agent_broadcaster_spec.rb:223-258 | the deadline changes no successful or failed request |
| ResponseTracker.CountsAddUp | src/bosh-director/spec/unit/agent_broadcaster_spec.rb:107-164 | every request has exactly one outcome |
| ResponseTracker.NothingPendingAfterDeadline | src/bosh-director/spec/unit/agent_broadcaster_spec.rb:223-258 | after the deadline no request is pending |
| ResponseTracker.Tracker.Register | src/bosh-director/spec/unit/agent_broadcaster_spec.rb:107-131 | a dispatched request starts pending, after those already registered |
| ResponseTracker.Tracker.Resolve | src/bosh-director/spec/unit/agent_broadcaster_spec.rb:133-164 | a completion counts exactly when its request was pending, and changes only that request |
| ResponseTracker.Tracker.ExpirePending | src/bosh-director/spec/unit/agent_broadcaster_spec.rb:223-258 | expires the pending requests and returns them, in dispatch order |
| AgentBroadcaster.ArpCalls | src/bosh-director/spec/unit/agent_broadcaster_spec.rb:74-92 | one `delete_arp_entries` call per target, carrying the IP list |
| AgentBroadcaster.SelectionKeepsAgentsDistinct | src/bosh-director/spec/unit/agent_broadcaster_spec.rb:74-92 | selection keeps distinct agents distinct |
| AgentBroadcaster.SelectedAgentGetsOneArpCall | src/bosh-director/spec/unit/agent_broadcaster_spec.rb:75-81 | every selected agent gets a call with the IPs, and no agent gets two |
| AgentBroadcaster.UnselectedAgentGetsNoArpCall | src/bosh-director/spec/unit/agent_broadcaster_spec.rb:83-91 | an agent that is not selected gets no call |
| AgentBroadcaster.SyncDnsCalls | src/bosh-director/spec/unit/agent_broadcaster_spec.rb:107-131 | one `sync_dns` request per target with the blob id, sha1 and version |
| AgentBroadcaster.FirstReply | src/bosh-director/spec/unit/agent_broadcaster_spec.rb:133-164 | the body of the first completion for a request, and none exactly when none arrived |
| AgentBroadcaster.Stamped | src/bosh-director/spec/unit/agent_broadcaster_spec.rb:166-221 | after a broadcast every successful agent holds the new version and every other row is unchanged |
| AgentBroadcaster.CancelCalls | src/bosh-director/spec/unit/agent_broadcaster_spec.rb:223-258 | one cancel per straggler, by its agent and request id |
| AgentBroadcaster.LineFor | src/bosh-director/spec/unit/agent_broadcaster_spec.rb:133-164 | a reply adds an error line exactly when it is the request's first and is not an acknowledgement |
| AgentBroadcaster.UnexpectedLines | src/bosh-director/spec/unit/agent_broadcaster_spec.rb:133-164 | at most one error line per reply, and each logs an unexpected response whose body is a failure |
| AgentBroadcaster.SummaryOf | src/bosh-director/spec/unit/agent_broadcaster_spec.rb:107-164 | the summary attempts every request, and once nothing is pending its successful, failed and unresponsive counts add up to the attempts |
| AgentBroadcaster.SummaryAddsUp | src/bosh-director/spec/unit/agent_broadcaster_spec.rb:107-164 | successful, failed and unresponsive add up to the attempted number |
| AgentBroadcaster.UnrepliedTargetIsCancelledOnce | src/bosh-director/spec/unit/agent_broadcaster_spec.rb:223-258 | a target that never replied is unresponsive, not stamped, and cancelled exactly once |
| AgentBroadcaster.RepliedTargetIsNotCancelled | src/bosh-director/spec/unit/agent_broadcaster_spec.rb:223-258 | a target that replied is not cancelled |
| AgentBroadcaster.DeadlineFacts | src/bosh-director/spec/unit/agent_broadcaster_spec.rb:223-258 | the stragglers are exactly the pending requests, and the deadline changes neither successes nor failures |
| AgentBroadcaster.CollectedMeaning | src/bosh-director/spec/unit/agent_broadcaster_spec.rb:107-164 | processing replies in arrival order agrees with the first-reply definition: requests, counts, stamped agents and error lines |
| AgentBroadcaster.NoResponseLines | src/bosh-director/spec/unit/agent_broadcaster_spec.rb:223-258 | the straggler warning is logged only when there are stragglers, naming their agents |
| AgentBroadcaster.AfterDeadline | src/bosh-director/spec/unit/agent_broadcaster_spec.rb:223-258 | what the deadline makes of the collection: the final requests, the stragglers, the stamped agents and the counts |
| AgentBroadcaster.TimerStartsAfterLastDispatch | src/bosh-director/spec/unit/agent_broadcaster_spec.rb:260-279 | in the events a broadcast adds, every `sync_dns` request comes before the timer starts and every cancel after it |
| AgentBroadcaster.TimerInTrace | src/bosh-director/spec/unit/agent_broadcaster_spec.rb:260-279 | in the event log after a broadcast, the events it added have the same order |
| AgentBroadcaster.OneSyncedOneUnsynced | src/bosh-director/spec/unit/agent_broadcaster_spec.rb:133-164 | two agents, one replying `synced` and one `unsynced`: summary 2/1/1/0, only the first stamped, one error line, nobody cancelled |
| AgentBroadcaster.OneSyncedOneSilent | src/bosh-director/spec/unit/agent_broadcaster_spec.rb:223-258 | two agents, the second silent: summary 2/1/0/1, only the first stamped |
| AgentBroadcaster.SilentAgentIsCancelled | src/bosh-director/spec/unit/agent_broadcaster_spec.rb:223-258 | the silent agent is cancelled by its request id and named in the warning |
| AgentBroadcaster.Broadcaster.DeleteArpEntries | src/bosh-director/spec/unit/agent_broadcaster_spec.rb:74-92 | sends exactly the ARP calls to the selected instances |
| AgentBroadcaster.Broadcaster.SendArp | src/bosh-director/spec/unit/agent_broadcaster_spec.rb:74-92 | the loop sends one ARP call per target, in order |
| AgentBroadcaster.Broadcaster.Dispatch | src/bosh-director/spec/unit/agent_broadcaster_spec.rb:107-131 | sends one `sync_dns` per target and registers each request pending |
| AgentBroadcaster.Broadcaster.Deliver | src/bosh-director/spec/unit/agent_broadcaster_spec.rb:133-221 | one completion: if it counts, an acknowledgement upserts the agent's version and anything else is logged |
| AgentBroadcaster.Broadcaster.Collect | src/bosh-director/spec/unit/agent_broadcaster_spec.rb:107-221 | processes the replies in order, leaving the requests, counts, ledger and log as the collection definition says |
| AgentBroadcaster.Broadcaster.Finish | src/bosh-director/spec/unit/agent_broadcaster_spec.rb:223-258 | cancels every straggler, then logs them and the summary |
| AgentBroadcaster.Broadcaster.SyncDns | src/bosh-director/spec/unit/agent_broadcaster_spec.rb:94-279 | a target without a VM is refused with nothing sent (a guard of the model: the source receives only `filter_instances` output, which never holds one); otherwise: the dispatches, the timer and the cancels in that order; the ledger with every successful agent stamped; the log lines; and the summary of the final requests |
| PlaceholderNames.NameOfShape | src/bosh-director/spec/unit/config_server/client_spec.rb:442-459 | a full placeholder is its name in double parentheses, with `!` before the name when it has one |
| PlaceholderNames.JoinSplit | src/bosh-director/spec/unit/config_server/client_spec.rb:328-440 | splitting a name at its dots loses nothing |
| PlaceholderNames.SplitJoin | src/bosh-director/spec/unit/config_server/client_spec.rb:328-440 | joining dot-free segments and splitting again gives the segments back |
| PlaceholderNames.Namespaced | src/bosh-director/spec/unit/config_server/client_spec.rb:12-14 | an absolute name stays as it is; a relative one goes under `/director/deployment/` |
| PlaceholderNames.NamespacedIsAbsolute | src/bosh-director/spec/unit/config_server/client_spec.rb:12-14 | every full name is absolute and ends with the name it came from |
| PlaceholderNames.Parse | src/bosh-director/spec/unit/config_server/client_spec.rb:157-163 | a name is refused exactly when it is malformed, has consecutive dots, or is relative where absolute is required, each with its error; otherwise the first segment is fetched under its full name and the rest become keys |
| PlaceholderNames.DecimalRoundTrip | src/bosh-director/spec/unit/config_server/client_spec.rb:210-220 | the status code in an error message reads back as the code |
| PlaceholderNames.DottedNameFetchesFirstSegment | src/bosh-director/spec/unit/config_server/client_spec.rb:355-367 | `/nested_placeholder.x.y` fetches `/nested_placeholder` and walks `x`, `y` |
| PlaceholderNames.ConsecutiveDotsRefused | src/bosh-director/spec/unit/config_server/client_spec.rb:429-439 | `nested_placeholder..x` is refused for its consecutive dots |
| PlaceholderNames.SyntaxMessage | src/bosh-director/spec/unit/config_server/client_spec.rb:429-439 | a name-syntax error message begins `Placeholder name '<name>' syntax error: ` |
| PlaceholderNames.RelativeNameIsNamespaced | src/bosh-director/spec/unit/config_server/client_spec.rb:169-196 | a relative dot-free name is fetched under the director and deployment |
| ConfigFetch.Reply | src/bosh-director/spec/unit/config_server/client_spec.rb:198-208 | a name the server does not hold answers 404 |
| ConfigFetch.ValueOf | src/bosh-director/spec/unit/config_server/client_spec.rb:78-117 | for each fetch error (404, other code, body not JSON, `data` not an array, empty, no `value`) the exact condition; success exactly when none applies, with `data[0]['value']` |
| ConfigFetch.WalkFinds | src/bosh-director/spec/unit/config_server/client_spec.rb:360-403 | the keys of a dotted name find a value exactly when they lead somewhere in the fetched value |
| ConfigFetch.WalkNamesDeepestParent | src/bosh-director/spec/unit/config_server/client_spec.rb:369-403 | a failed walk names the missing key and the deepest parent that exists |
| ConfigFetch.FetchMessage | src/bosh-director/spec/unit/config_server/client_spec.rb:145-220 | a missing variable is `Failed to find variable '<name>' from config server: ` and any other failure `Failed to fetch variable ...`, followed by the reason |
| ConfigFetch.ReasonsOfTheTests | src/bosh-director/spec/unit/config_server/client_spec.rb:88-390 | the reason text of each malformed response and of a missing dotted key, as the tests expect it |
| ConfigFetch.StatusReasonsOfTheTests | src/bosh-director/spec/unit/config_server/client_spec.rb:198-220 | the reason text of a missing variable (`HTTP code '404'`) and of a refused request (`HTTP code '403'`) |
| ConfigFetch.Reason | src/bosh-director/spec/unit/config_server/client_spec.rb:145-220 | the reason reports an HTTP code exactly for a missing variable or a failed request, not for the body errors |
| Interpolation.IgnoredBelow | src/bosh-director/spec/unit/config_server/client_spec.rb:222-326 | everything below an ignored path is ignored |
| Interpolation.Placeholders | src/bosh-director/spec/unit/config_server/client_spec.rb:169-196 | what is collected are full placeholders |
| Interpolation.PlaceholdersComplete | src/bosh-director/spec/unit/config_server/client_spec.rb:169-196 | every full placeholder reachable outside the ignored subtrees is collected |
| Interpolation.PlaceholdersSound | src/bosh-director/spec/unit/config_server/client_spec.rb:222-326 | in a document (each hash key once), every collected placeholder lies at a reachable path outside the ignored subtrees |
| Interpolation.CollectedExactly | src/bosh-director/spec/unit/config_server/client_spec.rb:222-326 | in a document, a placeholder is collected exactly when it sits at a reachable path outside the ignored subtrees |
| Interpolation.OnlyIgnoredNotCollected | src/bosh-director/spec/unit/config_server/client_spec.rb:222-326 | a placeholder that appears only inside ignored subtrees is not collected |
| Interpolation.FetchNamesReachable | src/bosh-director/spec/unit/config_server/client_spec.rb:222-326 | in a document, the fetched names are exactly the variables named by placeholders outside the ignored subtrees |
| Interpolation.RewriteAt | src/bosh-director/spec/unit/config_server/client_spec.rb:169-196 | rewriting commutes with navigating to a path |
| Interpolation.RewriteReplaces | src/bosh-director/spec/unit/config_server/client_spec.rb:169-196 | a resolved placeholder outside the ignored subtrees is replaced by its value |
| Interpolation.RewriteNothing | src/bosh-director/spec/unit/config_server/client_spec.rb:165-167 | rewriting with nothing to substitute gives the document back |
| Interpolation.Resolve | src/bosh-director/spec/unit/config_server/client_spec.rb:328-403 | a placeholder fails with a syntax error exactly when its name is refused |
| Interpolation.ResolveDotPath | src/bosh-director/spec/unit/config_server/client_spec.rb:360-403 | a fetched variable's placeholder resolves exactly when its keys reach a value, to that value, and otherwise names the missing key |
| Interpolation.FirstSyntaxError | src/bosh-director/spec/unit/config_server/client_spec.rb:461-475 | no syntax error exactly when every name is accepted; an error is one of theirs |
| Interpolation.FetchErrors | src/bosh-director/spec/unit/config_server/client_spec.rb:119-155 | the fetch errors of all placeholders are collected, each from a placeholder, none missed |
| Interpolation.Resolved | src/bosh-director/spec/unit/config_server/client_spec.rb:169-196 | the substitution holds exactly the placeholders that resolve, with their values |
| Interpolation.InterpolateReplaces | src/bosh-director/spec/unit/config_server/client_spec.rb:169-196 | after success every reachable placeholder outside the ignored subtrees holds its resolved value |
| Interpolation.Succeeded | src/bosh-director/spec/unit/config_server/client_spec.rb:169-196 | a success means no name was refused and no fetch failed |
| Interpolation.Interpolate | src/bosh-director/spec/unit/config_server/client_spec.rb:20-475 | interpolation succeeds exactly when every collected placeholder resolves; in a document, exactly when every full placeholder at a reachable path outside the ignored subtrees resolves, whatever the ignored ones name |
| Interpolation.AllResolve | src/bosh-director/spec/unit/config_server/client_spec.rb:119-155 | no refused name and no fetch error is the same as every placeholder resolving |
| Interpolation.InterpolateKeepsIgnored | src/bosh-director/spec/unit/config_server/client_spec.rb:222-326 | values under ignored subtrees come out as they went in |
| Interpolation.InterpolateKeepsPlainValues | src/bosh-director/spec/unit/config_server/client_spec.rb:169-196 | scalars other than full placeholders come out unchanged |
| Interpolation.InterpolateWithoutPlaceholders | src/bosh-director/spec/unit/config_server/client_spec.rb:165-167 | a manifest without placeholders comes back as it is |
| Interpolation.InterpolateRejectsBadNames | src/bosh-director/spec/unit/config_server/client_spec.rb:461-475 | a malformed reachable name fails the whole interpolation with a name-syntax error |
| Interpolation.InterpolateCollectsFetchErrors | src/bosh-director/spec/unit/config_server/client_spec.rb:119-155 | with the names well formed, a failed fetch fails the interpolation with every fetch error listed |
| Interpolation.FetchNames | src/bosh-director/spec/unit/config_server/client_spec.rb:355-358 | the names the server is asked for are distinct |
| Interpolation.FetchNamesNamed | src/bosh-director/spec/unit/config_server/client_spec.rb:355-358 | the names fetched are exactly the variables the well-formed placeholders name |
| Interpolation.SameRepliesSameInterpolation | src/bosh-director/spec/unit/config_server/client_spec.rb:355-358 | interpolation depends on the server only through its replies for the fetched names |
| Interpolation.DeploymentPropertiesUntouched | src/bosh-director/spec/unit/config_server/client_spec.rb:478-504 | a deployment manifest's global properties and its jobs' properties are never interpolated |
| Interpolation.InterpolateDeploymentManifest | src/bosh-director/spec/unit/config_server/client_spec.rb:478-504 | succeeds exactly when every collected placeholder resolves under the manifest's name with relative names allowed; in a document, exactly when every reachable placeholder outside the deployment's ignored subtrees does |
| Interpolation.RuntimeNamesAreAbsolute | src/bosh-director/spec/unit/config_server/client_spec.rb:506-525 | a runtime config accepts only absolute names; a relative one fails it |
| Interpolation.InterpolateRuntimeManifest | src/bosh-director/spec/unit/config_server/client_spec.rb:506-525 | succeeds exactly when every collected placeholder resolves with absolute names required; in a document, exactly when every reachable placeholder outside the runtime ignored subtrees does |
| ConfigServerClient.GetCalls | src/bosh-director/spec/unit/config_server/client_spec.rb:355-358 | one GET per name, in order |
| ConfigServerClient.HttpClient.Get | src/bosh-director/spec/unit/config_server/client_spec.rb:895-913 | records the GET and answers with the server's reply for the name |
| ConfigServerClient.HttpClient.Post | src/bosh-director/spec/unit/config_server/client_spec.rb:631-654 | records the generation request and answers with the server's reply |
| ConfigServerClient.HttpClient.GetAll | src/bosh-director/spec/unit/config_server/client_spec.rb:355-358 | the loop GETs each name once, keeping each reply |
| ConfigServerClient.CertificateNamesTheDnsRecords | src/bosh-director/spec/unit/config_server/client_spec.rb:656-715 | a certificate is generated with the first DNS name as common name and all of them as alternative names; other types get no parameters |
| ConfigServerClient.GenerationCalls | src/bosh-director/spec/unit/config_server/client_spec.rb:770-796 | one generation request per variable, in order, under its full name with its type and options |
| ConfigServerClient.GenerationMessage | src/bosh-director/spec/unit/config_server/client_spec.rb:798-822 | a generation error message begins `Config Server failed to generate value for '` followed by the full name, and ends with the server's message quoted |
| ConfigServerClient.DisabledPropertyValue | src/bosh-director/spec/unit/config_server/client_spec.rb:875-886 | the value, or the default when it is nil |
| ConfigServerClient.DisabledInterpolate | src/bosh-director/spec/unit/config_server/client_spec.rb:836-847 | the disabled client returns the manifest as it is, placeholders included |
| ConfigServerClient.EnabledAgreesWithDisabled | src/bosh-director/spec/unit/config_server/client_spec.rb:836-873 | without placeholders the enabled client returns what the disabled one does and asks the server for nothing |
| ConfigServerClient.FetchedCallsNamed | src/bosh-director/spec/unit/config_server/client_spec.rb:222-326 | in a document, interpolation's GETs ask only for variables named by placeholders outside the ignored subtrees |
| ConfigServerClient.EnabledClient.Interpolate | src/bosh-director/spec/unit/config_server/client_spec.rb:20-475 | the result is the interpolation of the manifest against the server; the server is asked once per fetched name, and not at all on a syntax error; in a document, every request is a GET of a variable that a placeholder outside the ignored subtrees names |
| ConfigServerClient.EnabledClient.InterpolateDeploymentManifest | src/bosh-director/spec/unit/config_server/client_spec.rb:478-504 | interpolates under the manifest's own name with the deployment's ignored subtrees, with the same GETs and, in a document, none for a placeholder inside them |
| ConfigServerClient.EnabledClient.InterpolateRuntimeManifest | src/bosh-director/spec/unit/config_server/client_spec.rb:506-525 | interpolates with absolute names required and the runtime ignored subtrees, with the same GETs and, in a document, none for a placeholder inside them |
| ConfigServerClient.EnabledClient.PrepareAndGetProperty | src/bosh-director/spec/unit/config_server/client_spec.rb:527-729 | every case: not a placeholder gives the value or default with no request; bad syntax raises with no request; found gives the placeholder; other error raises; missing gives the default, or the placeholder when untyped, or generates it (raising when generation fails) |
| ConfigServerClient.EnabledClient.GenerateValues | src/bosh-director/spec/unit/config_server/client_spec.rb:731-822 | succeeds exactly when every variable is well named and generated, having sent the requests in order; a failure stops at the first bad variable |

## Left out

- Ruby sources: `safe_property`, `lookup_property`, `recursive_merge`, `Canonicalizer`, `ReleaseManager`, the networks parser, the availability-zone parser and `UpdateConfig` are not part of this model. The model gives each the behaviour its use here needs: typed reads with defaults, dotted-key lookup, deep merge, a canonicalising function given to the parser, release lookup by name, networks and zones given as inputs, and the update hash with overrides.
- GroupSettings.VmPlacement: the env falls back to the pool's env as a value. The in-place write of `remove_dev_tools` into a hash the group shares with `resource_pool.env` (instance_group_spec_parser.rb:311-313 and 421-424) is aliasing and is not modelled.
- GroupSettings.WithRemoveDevTools: when the env's `bosh` entry is not a hash, Ruby raises a `NoMethodError`; the model returns EnvBoshNotHash instead.
- PlaceholderNames.SyntaxMessage: the contract states the message's opening with the name. The rule text after it is only the body's choice per error.
- ConfigServerClient.GenerationMessage: the contract states the opening, where the name sits and that the server's message closes the text. The quoted type in between is stated only by the body.
- Event-log warnings, log text and formatting, and timing are left out. Log lines keep their contents, not their wording.
- VersionLedger.Ledger.Upsert: the racing writer is modelled as inserting a fresh row for the agent. The test at src/bosh-director/spec/unit/agent_broadcaster_spec.rb:201-220 instead re-labels another agent's row with this agent's id before the insert fails. Both end with one row for the agent, holding the new version.
- Concurrency:
  - EventMachine, the agent proxies and the deadline timer are not modelled. The request ids, the replies that arrive before the deadline (in arrival order) and the racing inserts are inputs of `SyncDns`.
  - The test titled "retries broadcasting to failed agents" expects one request per agent and no second attempt, so the model sends no retries.
- The broadcaster and the client are specified by their tests, not their implementation:
  - a reply is a success exactly when its `value` is `synced`;
  - unresponsive requests are cancelled by request id;
  - every variable is fetched once.
- HTTP and JSON transport are left out. A response is a status code, a reason and a body that is either unparsable or a parsed value. Generation does not add the variable to the server's store.
- Interpolation.PlaceholdersSound: stated for documents whose hashes hold each key once, as every Ruby Hash does. An entry list with a repeated key, which no Ruby hash is, could hold a shadowed placeholder that is collected although no path reaches it.
- Interpolation.FetchNames: the order of the GETs, first appearance in the manifest, is not stated; only that each variable is asked for once and which variables are asked for.
- AgentBroadcaster.Broadcaster.SyncDns: the TargetWithoutVm refusal is the model's own guard, which keeps `agent_id` defined for every target. In the source `sync_dns` is only given `filter_instances` output, whose instances all have an active VM.
- ConfigServerClient.EnabledClient.Interpolate: the result being a new copy of the manifest (`to_not equal` on object identity) is not expressible on values.
- ConfigServerClient.DisabledInterpolate: the disabled client's `generate_values`, which the test only checks to exist, is not modelled.
- InstanceGroupParsing.InstanceGroupSpecParser.Parse: the steps run in three section methods (jobs, settings, instances) rather than one flat sequence. The order and early returns are those of `parse`.
- JobResolution.LegacyJobs: an element of a `template` array that is not a string is refused as InvalidType. Ruby passes it on to `get_or_create_template`, which is not part of this model.
- The `get_or_create_template` objects are not modelled. Each job is a fresh value, so links added to a template shared by two groups do not accumulate on one object.
- `ReleaseManager#find_version` is replaced by the deployment's template table. A release version the table does not record is a ReleaseVersionUnknown failure of the model.
