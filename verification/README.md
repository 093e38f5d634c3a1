# quarks-operator: a verified model

The quarks-operator deploys BOSH releases on Kubernetes. This project models the parts of it
whose correctness is hardest to see from the code, and proves what they guarantee over every
input, every interleaving and every run. `dafny verify dfyconfig.toml` checks all of it.
Nothing here executes the operator.

| modules | what they model |
|---|---|
| `DrainBarrier`, `PodDrain` | the PreStop handlers of a pod as interleaved scripts over one shared directory, and the generator that writes them |
| `Debounce` | the two debounced reconcilers as a timed state machine with deliveries, retries and API failures |
| `Anchors` | the compression of a manifest with YAML anchors and aliases |
| `UpdateSerial` | the wait graph that `update.serial` turns into, and starting up under it |
| `NestedProperties`, `Flattening`, `LinkProperties`, `LinkRegistry` | dotted properties, nesting and flattening, link values, and the registry of BOSH links |
| `NativeLinks` | the resolution of links that Kubernetes secrets offer |
| `Decimal`, `Instances`, `SpecIndex` | job instances, services and DNS rewrites, the spec-index lookup, bootstrap |
| `Mounts`, `MountSlices`, `Disks`, `Containers`, `PodMounts`, `MountedPaths`, `PodSlices` | disks, mounts, Go slices that share a backing array, and the containers of a pod |

Code that updates things in place is a class or a method with loops, proved against a
specification function; the properties are lemmas about these functions.

## Findings

Some promises hold only under a condition. Each has a lemma that gives the condition exactly.

- Drain safety needs no assumption on job names. Drain completion does: if two jobs with
  processes share a name, or a name starts with a dot (so that `ls` does not list its stamp),
  no handler ever exits. Besides that it only takes drain scripts that stop asking for another
  run (`DrainBarrier.CompletesIff`, `PodDrain.PodTerminatesIff`).
- If the API server stores the first timestamp but the reply gets lost, a retry that comes sooner
  than ten seconds falls into the window that this timestamp opened, and the trigger is dropped
  (`Debounce.EarlyRetryLosesTrigger`). No trigger is ever lost exactly when such a retry takes at
  least as long as the window (`Debounce.NoTriggerLostIff`).
- Timestamps are stored in whole seconds, so two runs can be only a little more than nine seconds
  apart, not ten. The full ten seconds hold exactly when timestamps are not truncated
  (`Debounce.RunsAreSpaced`, `Debounce.SpacingIsTight`, `Debounce.FullSpacingIff`).
- A group that is not serial, and is followed by another group with ports before the next serial
  group, is not waited for by that serial group (`UpdateSerial.ParallelGroupIsSkipped`).
  `UpdateSerial.ReachesIff` says exactly who waits for whom.
- A group with ports becomes a required service even if no pod will ever stand behind that
  service: errands get no service, and the headless service of a group with zero instances has no
  address. Every group that such a group guards stays down (`UpdateSerial.ErrandHoldsNextGroup`,
  `UpdateSerial.EmptyGroupHoldsNextGroup`, `UpdateSerial.StartUpIff`).
- Flattening undoes nesting exactly when no name is a proper path prefix of another and none
  starts with a dot. Nesting undoes flattening exactly when keys have no dots, no inner map is
  empty and the empty top-level key holds no map (`Flattening.FlattenOfNestIff`,
  `Flattening.NestOfFlattenIff`).
- Link values resolve exactly, for all defaults and job properties, exactly when the names are
  prefix-free (`LinkProperties.ResolvesExactlyIff`).
- The key under which a link is saved joins type and name with a dash, so `a-b`/`c` and `a`/`b-c`
  collide (`LinkRegistry.KeysCollide`); a group's table is complete exactly when the keys of the
  links that its jobs are the first to declare differ (`LinkRegistry.SavedTableIff`).
- The spec-index lookup is exact exactly when zone names differ and there is at most one zone or
  at most 10000 replicas (`SpecIndex.ExactLookupIff`).
- Nothing checks that zone names differ, and pods look their instance up by zone name. At the
  initial rollout exactly one pod takes itself for the bootstrap instance if and only if no other
  zone is called like the first one. Later on that takes a last zone with a name of its own and
  pods that are told their real number (`SpecIndex.RepeatedZoneBreaksBootstrap`,
  `SpecIndex.OneBootstrapPodAtFirstIff`, `SpecIndex.OneBootstrapPodLaterIff`).
- The expression that admits additional volumes is not anchored: a path that contains
  `/var/vcap/data/` further inside is accepted, and its mount then names no volume. The error
  message of the code promises that such paths are refused; the model follows the code
  (`PodMounts.UnanchoredPathDangles`, `PodMounts.IntegrityIff`).
- The default disks always declare the data volume. If it is a claim and a job asks for an
  ephemeral disk, the disk of that job declares a volume of the same name again
  (`MountedPaths.GeneratedVolumesIff`).

## Assumptions

- The drain-stamps directory starts empty and only the handlers write to it; a job's name is one file
  name, without slashes or white space; what a drain script does is an arbitrary function of the job and the number of the run.
- Every requeue and every error return is one later delivery, never early and never merged with
  another; one key is not reconciled twice at the same time.
- The debounce window holds the times from its start up to, and not including, its end. The
  library behind it is not part of this model; that a time before the start lies outside is what
  the reconcilers' tests expect of it.
- The characters of a string are its bytes. The hash of a string is some text of 40 characters. Keys are strings, and no key or value of
  the document already looks like a marker or an alias.
- `Sanitize`, the truncation of names and `filepath.Rel` are arbitrary functions; `SpecIndex`
  follows the table in `cmd_render_job_tmpls.go`.
- Instance groups of a manifest are different objects. For starting up, those with ports have
  different service names, and a group that is up has ready pods, if it has instances, so that
  its service then resolves.
- Nothing is assumed of volume names, except in `PodMounts.PlainIntegrityIff`: there only the
  persistent and custom disks of the pod have the name of the claim, and no volume of the pod has
  the empty name. `PodMounts.UnanchoredPathDangles` needs a data volume whose name is not empty.

## Model

| member | source | states |
|---|---|---|
| `DrainBarrier.StepKeepsInv` | pkg/bosh/bpmconverter/containers.go:365-427 | every step of every handler keeps the invariant: the stamps in the directory are those of the handlers past stamping, each of these has ended its drain, and nobody has exited unless enough stamps are listed |
| `DrainBarrier.InvAlways` | pkg/bosh/bpmconverter/containers.go:365-427 | that invariant holds at every time of every schedule, from the empty directory on |
| `DrainBarrier.FullDirectory` | pkg/bosh/bpmconverter/containers.go:374-380 | as many listed stamps as stamp writers means that every writer has stamped, even if names repeat |
| `DrainBarrier.NoExitBeforeDrainsEnd` | pkg/bosh/bpmconverter/containers.go:365-427 | drain safety over every interleaving: once any handler has exited, every executable drain script has run, each run but the last printed a negative number, the last one did not, and its handler reports the status of a failed last run and zero otherwise |
| `DrainBarrier.StepDecreases` | pkg/bosh/bpmconverter/containers.go:381-406 | a step that changes anything lowers the measure of remaining drain rounds, stamps and exits |
| `DrainBarrier.SomeoneCanMove` | pkg/bosh/bpmconverter/containers.go:374-423 | no reachable state is stuck: while somebody has not exited, somebody can move |
| `DrainBarrier.NobodyExits` | pkg/bosh/bpmconverter/containers.go:374-380 | with a repeated or hidden stamp name no handler exits at any time of any schedule |
| `DrainBarrier.CompletesIff` | pkg/bosh/bpmconverter/containers.go:365-427 | under a fair schedule all handlers exit if and only if stamp names are distinct and visible and the drains re-run finitely often |
| `PodDrain.GeneratedScripts` | pkg/bosh/bpmconverter/containers.go:52-121 | the stamp writers of the generated containers are the jobs with processes, one each, in order |
| `PodDrain.GeneratedCounts` | pkg/bosh/bpmconverter/containers.go:110-120 | every container of a job has a handler with the same count, except that errands have none |
| `PodDrain.GeneratedBarrier` | pkg/bosh/bpmconverter/containers.go:38-49 | that count is the number of stamp writers of the pod |
| `PodDrain.PodDrainsSafely` | pkg/bosh/bpmconverter/containers.go:31-134 | in a generated pod no handler exits before the drain of every job with processes has ended: each run but the last printed a negative number and the last one did not |
| `PodDrain.PodTerminatesIff` | pkg/bosh/bpmconverter/containers.go:31-134 | a generated pod comes to an end, under every fair schedule, if and only if its jobs with processes have distinct names that `ls` lists and drains that re-run finitely often |
| `Debounce.ReconcileBOSHDeployment.Run` | pkg/kube/controllers/boshdeployment/deployment_reconciler.go:86-208 | one reconcile leaves the timestamp and answers as the timed specification says, for every outcome of every API call |
| `Debounce.ReconcileWithOps.Run` | pkg/kube/controllers/boshdeployment/withops_reconciler.go:62-169 | the same for the annotation, with the lookup of the deployment before the clearing and the retry after five seconds |
| `Debounce.NextKeepsTime` | pkg/kube/controllers/boshdeployment/deployment_reconciler.go:109-141 | every action keeps: a stored timestamp is not in the future and, up to its granularity, not before the end of the last run, and consecutive runs lie apart |
| `Debounce.DeliverKeepsTriggers` | pkg/kube/controllers/boshdeployment/deployment_reconciler.go:109-139 | a delivery keeps, unless a lost reply is retried too soon: a stored timestamp has a pending delivery after its window, and an owed run has a pending delivery |
| `Debounce.Invariants` | pkg/kube/controllers/boshdeployment/withops_reconciler.go:95-140 | both invariants hold after every run of either reconciler, the second one where lost replies are retried late enough |
| `Debounce.EarlyRetryLosesTrigger` | pkg/kube/controllers/boshdeployment/deployment_reconciler.go:109-125 | for either reconciler and every shorter retry there is a run in which a lost reply loses the trigger |
| `Debounce.NoTriggerLostIff` | pkg/kube/controllers/boshdeployment/deployment_reconciler.go:109-139 | no trigger is lost in any run if and only if the retry after a lost reply to the setting of the timestamp takes at least the skip duration |
| `Debounce.WithoutLostReplies` | pkg/kube/controllers/boshdeployment/deployment_reconciler.go:109-139 | a run in which no reply gets lost loses no trigger, however soon other failures are retried |
| `Debounce.QuietRunsSettle` | pkg/kube/controllers/boshdeployment/deployment_reconciler.go:109-139 | once failures and triggers stop, deliveries run out, and then nothing is owed and no timestamp is left |
| `Debounce.RunsAreSpaced` | pkg/kube/controllers/boshdeployment/deployment_reconciler.go:109-141 | over every run more than nine seconds pass between two consecutive runs, whatever the triggers, retries and failures |
| `Debounce.SpacingIsTight` | pkg/kube/controllers/boshdeployment/withops_reconciler.go:95-112 | no larger distance holds with timestamps in whole seconds |
| `Debounce.FullSpacingIff` | pkg/kube/controllers/boshdeployment/deployment_reconciler.go:54-141 | the full skip duration is kept in all runs, those with lost replies included, if and only if timestamps are not truncated |
| `Debounce.RunsIff` | pkg/kube/controllers/boshdeployment/withops_reconciler.go:95-169 | a delivery clears the timestamp and goes on to its work if and only if the window is over, the update is confirmed and, for the secret, the deployment was found before it; nothing is owed any more if and only if all that follows goes well, too |
| `Debounce.RunsAreAccountedFor` | pkg/kube/controllers/boshdeployment/withops_reconciler.go:119-131 | over whole runs: everything on record was run by a delivery that read the resource, had its update confirmed and found its deployment |
| `Debounce.MissingDeploymentIsRetried` | pkg/kube/controllers/boshdeployment/withops_reconciler.go:119-124 | in every reachable state a missing deployment leaves the timestamp and the record as they are, and another delivery is to come |
| `Debounce.OpeningComesBack` | pkg/kube/controllers/boshdeployment/deployment_reconciler.go:109-125 | the first delivery stores its time, rounded down, and comes back ten seconds after its end, or when the failed update is retried |
| `Debounce.RunComesBack` | pkg/kube/controllers/boshdeployment/withops_reconciler.go:135-148 | a run whose variables are not generated yet comes back after five seconds, one that fails when it is retried, one that succeeds not at all |
| `Debounce.FailedClearingComesBack` | pkg/kube/controllers/boshdeployment/withops_reconciler.go:119-131 | a delivery past the window that does not get to its work is retried |
| `Debounce.UnreadComesBack` | pkg/kube/controllers/boshdeployment/withops_reconciler.go:69-87 | a delivery that cannot read the resource changes nothing and comes back; one that finds it gone does not |
| `Anchors.Marker.Mark` | pkg/bosh/manifest/manifest.go:229-275 | the walk that fills the one shared table while it goes on returns the same document and table as the marking that threads the table through |
| `Anchors.Marker.MarkMapItem` | pkg/bosh/manifest/manifest.go:241-270 | the same for one mapping entry: first occurrence, repeated occurrence, and everything else |
| `Anchors.ComposeMarked` | pkg/bosh/manifest/manifest.go:200-275 | any marked part, written out, composes after what came before it, binds each anchor once, and gives back the original where the hash is injective |
| `Anchors.TableHoldsDigests` | pkg/bosh/manifest/manifest.go:249-267 | the table ends up with the hashes of exactly the long mapping values |
| `Anchors.LoadsBackIff` | pkg/bosh/manifest/manifest.go:186-215 | a written manifest always loads, and it loads as the original if and only if the hash tells its long values apart (aliases as in section 7.1 of YAML 1.2) |
| `Anchors.CleanLoadsBackIff` | pkg/bosh/manifest/manifest.go:186-215 | the same for every document in which no text starts with an asterisk and no key has an equals sign |
| `Anchors.AnchoredOnceBeforeUse` | pkg/bosh/manifest/manifest.go:200-214 | every mapping value of more than 64 characters is anchored and no other value is, no anchor and no long text is written twice, and every alias comes after its anchor |
| `Anchors.ShortDocumentIsUntouched` | pkg/bosh/manifest/manifest.go:241-270 | a document without mapping values of more than 64 characters is written as it is, with no anchor or alias, and loads back |
| `UpdateSerial.CalculateRequiredServices` | pkg/bosh/manifest/apply_update_block.go:15-41 | the pass with two rolling services gives each group the service of the group it should wait for: the last one with ports, or the last one up to the last serial group |
| `UpdateSerial.RequiredMeans` | pkg/bosh/manifest/apply_update_block.go:19-40 | in terms of the manifest: a group is serial unless its update block says false; a serial group requires the last earlier group with at least one port, another one the last such group up to the last serial group, and none requires anything if there is no such group |
| `UpdateSerial.RollIsLast` | pkg/bosh/manifest/apply_update_block.go:15-41 | the two rolling services are those of the last group with ports and of the last group with ports up to a serial one |
| `UpdateSerial.WaitsFor` | pkg/bosh/manifest/apply_update_block.go:19-40 | a group waits only for an earlier group that has ports |
| `UpdateSerial.ReachesIff` | pkg/bosh/manifest/apply_update_block.go:15-41 | through the whole chain a group waits for another if and only if that one is earlier, has ports, and is closed off by a serial group before other ports come up |
| `UpdateSerial.SerialBarrier` | pkg/bosh/manifest/apply_update_block.go:15-41 | every group after a serial group with ports waits for it through the chain |
| `UpdateSerial.KeepsParallelism` | pkg/bosh/manifest/apply_update_block.go:19-40 | groups that are not serial, with no serial group between them, wait for the same service and never for each other |
| `UpdateSerial.ParallelGroupIsSkipped` | pkg/bosh/manifest/apply_update_block.go:25-39 | a manifest in which a serial group does not wait for the first of two groups before it that are not serial |
| `UpdateSerial.OnlyFreeGroupsStart` | cmd/internal/wait.go:28-38 | in every order of starting, a group that comes up is not guarded by a group with ports and without pods |
| `UpdateSerial.SomeGroupCanStart` | pkg/bosh/manifest/apply_update_block.go:19-40 | while such a group is down, it or an earlier one can come up now |
| `UpdateSerial.StartUpIff` | pkg/bosh/bpmconverter/resources.go:117-125 | from every state of starting up, some group can come up if and only if one is down that no group with ports and without pods guards, be it an errand or one of zero instances |
| `UpdateSerial.ErrandHoldsNextGroup` | pkg/bosh/bpmconverter/resources.go:117-125 | a manifest of an errand with ports and one more group: in no order of starting does that group come up |
| `UpdateSerial.EmptyGroupHoldsNextGroup` | pkg/bosh/bpmconverter/resources.go:260-325 | the same behind a group with ports and zero instances |
| `UpdateSerial.ManifestOrderStartsIff` | pkg/bosh/manifest/apply_update_block.go:19-40 | the order of the manifest is an order of starting all groups if and only if no group is held down |
| `UpdateSerial.ManifestOrderStarts` | pkg/bosh/manifest/apply_update_block.go:19-40 | in particular if every group with ports runs pods |
| `NestedProperties.JoinOfSplit` | pkg/bosh/manifest/cmd_instance_group_resolver.go:515-515 | joining the parts of a dotted name gives the name back |
| `NestedProperties.SplitOfJoin` | pkg/bosh/manifest/cmd_instance_group_resolver.go:560-560 | splitting a joined path gives the path back if its parts have no dots |
| `NestedProperties.Property` | pkg/bosh/manifest/cmd_instance_group_resolver.go:486-509 | the walk down the job's properties finds what lies at the path, through both kinds of maps, and nothing else |
| `NestedProperties.LookupIgnoresKind` | pkg/bosh/manifest/cmd_instance_group_resolver.go:494-505 | a lookup does not depend on the kinds of the maps that it goes through |
| `NestedProperties.PutIsFound` | pkg/bosh/manifest/cmd_instance_group_resolver.go:514-536 | what was set under a dotted name is found under it |
| `NestedProperties.Nest` | pkg/bosh/manifest/job_provider_links.go:115-139 | the nesting loop puts in every property once, in some order |
| `NestedProperties.LeafAfterPut` | pkg/bosh/manifest/cmd_instance_group_resolver.go:514-536 | a value put at a path replaces what lies above and below it and leaves every other leaf alone |
| `NestedProperties.DeterminedByLeaves` | pkg/bosh/manifest/job_provider_links.go:115-139 | trees without empty inner maps that have the same leaves are the same |
| `NestedProperties.NestedIsExact` | pkg/bosh/manifest/job_provider_links.go:115-139 | for prefix-free names the leaves of the nested tree are the given properties, whatever the order |
| `NestedProperties.OrderDoesNotMatterIff` | pkg/bosh/manifest/job_provider_links.go:115-139 | the tree is the same for every iteration order if and only if the names are prefix-free |
| `Flattening.SecretData.Traverse` | pkg/bosh/manifest/cmd_instance_group_resolver.go:628-646 | the recursive walk stores every leaf under a flattened name and leaves every other entry of the shared map as it was, for every iteration order |
| `Flattening.FlattenForSecretData` | pkg/bosh/manifest/cmd_instance_group_resolver.go:648-657 | the result holds exactly the flattened names of the leaves, each with the text of a leaf of that name |
| `Flattening.FlatNameOfSplit` | pkg/bosh/manifest/cmd_instance_group_resolver.go:629-635 | the path of a name flattens back to the name if and only if it does not start with a dot |
| `Flattening.FlattenOfNestIff` | pkg/bosh/manifest/cmd_instance_group_resolver.go:628-657 | flattening a nested tree returns the original map if and only if the names are prefix-free and none starts with a dot |
| `Flattening.NestOfFlattenIff` | pkg/bosh/manifest/job_provider_links.go:115-139 | nesting a flattened tree returns the tree, up to the printing of leaves, if and only if it is well keyed |
| `LinkProperties.Compute` | pkg/bosh/manifest/job_provider_links.go:33-49 | the two loops over a link's properties compute the default pass followed by the override pass |
| `LinkProperties.ResolvesExactly` | pkg/bosh/manifest/cmd_instance_group_resolver.go:514-583 | for incomparable names each name holds the job's explicit value if there is one, else the default, and there is no other path |
| `LinkProperties.PrefixIsNotExact` | pkg/bosh/manifest/cmd_instance_group_resolver.go:559-583 | for any two names of which one is a prefix there are job properties that resolve wrongly |
| `LinkProperties.ResolvesExactlyIff` | pkg/bosh/manifest/job_provider_links.go:33-49 | links resolve exactly for all defaults and job properties if and only if their names are prefix-free |
| `LinkRegistry.JobProviderLinks.Add` | pkg/bosh/manifest/job_provider_links.go:30-107 | one job's links are registered one by one, in both maps, up to the first error: renamed, blocked, refused and skipped as the job says |
| `LinkRegistry.JobProviderLinks.AddExternalLink` | pkg/bosh/manifest/job_provider_links.go:110-146 | the external link replaces whatever had its type and name, with nested properties, and the group table stays as it is |
| `LinkRegistry.Collect` | pkg/bosh/manifest/cmd_instance_group_resolver.go:240-281 | success means that all jobs of all groups were added in manifest order, each with its own instances and address; an error means that it stopped at the first job that fails |
| `LinkRegistry.CollectionSucceedsIff` | pkg/bosh/manifest/job_provider_links.go:53-87 | a whole run succeeds if and only if no job sets a link to something unexpected and every unblocked link of a job that is not an addon is new: not registered at the start and not declared by a link before it |
| `LinkRegistry.NothingIsOverwritten` | pkg/bosh/manifest/job_provider_links.go:77-87 | over whole runs of `add`, with or without an error at the end, every registered link stays as it is |
| `LinkRegistry.EveryLinkIsFound` | pkg/bosh/manifest/job_provider_links.go:50-99 | after a run without an error every link that a job other than an addon offers is found, under its type and its own name or the one that the job sets for it, with that job's address and instances; if its property names are prefix-free, each has the job's value, else the default, else null |
| `LinkRegistry.CollectedLinkIsFound` | pkg/bosh/manifest/cmd_instance_group_resolver.go:240-281 | the same for a whole manifest: every link that a job's spec lists and the job offers is found, with the service of the job's group as address and the instances of that group |
| `LinkRegistry.EveryLinkIsRegistered` | pkg/bosh/manifest/job_provider_links.go:95-104 | and it counts as a link of that job's group |
| `LinkRegistry.AddAllAgrees` | pkg/bosh/manifest/job_provider_links.go:101-104 | over whole runs a group's table has the keys of its links and no others, and their properties where the keys differ |
| `LinkRegistry.RegisteredIffDeclared` | pkg/bosh/manifest/job_provider_links.go:50-104 | after a run without an error a link belongs to a group if and only if it was not registered before and the first job that declares it, unblocked, is one of the group |
| `LinkRegistry.SavedTableIff` | pkg/bosh/manifest/cmd_instance_group_resolver.go:148-165 | the table that is saved has one entry for each of these links, addons included, if and only if their combined keys differ, and then each holds its own link's properties |
| `LinkRegistry.KeysCollide` | pkg/kube/util/names/quarks_link.go:22-24 | a job whose two links of different types and names leave a single entry in the table |
| `NativeLinks.ListProviderNames` | pkg/bosh/manifest/manifest.go:570-589 | the names found under the key are noted as not found, and all other notes are kept |
| `NativeLinks.MissingIff` | pkg/bosh/manifest/manifest.go:548-567 | a name is missing if and only if it is not empty, some job consumes it with `from`, and no job provides it with `as` |
| `NativeLinks.ListMissingProviders` | pkg/bosh/manifest/manifest.go:548-567 | the result holds exactly the names that are consumed but not provided |
| `NativeLinks.FindSecrets` | pkg/kube/controllers/boshdeployment/link_infos.go:74-114 | the secret stage succeeds if and only if every annotation parses and every missing provider is offered by exactly one secret |
| `NativeLinks.NamedOnceIff` | pkg/kube/controllers/boshdeployment/link_infos.go:82-106 | a provider is taken if and only if exactly one secret names it |
| `NativeLinks.TypesIff` | pkg/kube/controllers/boshdeployment/link_infos.go:82-106 | the types handed on are those of the infos that have one |
| `NativeLinks.InfosAreABijection` | pkg/kube/controllers/boshdeployment/link_infos.go:74-114 | on success link infos and missing providers correspond one to one, each with the name of a secret that names the provider, and the provider's name and type |
| `NativeLinks.List` | pkg/kube/controllers/boshdeployment/link_infos.go:33-55 | over a whole manifest: it succeeds if and only if nothing is missing or the secrets offer exactly what is |
| `Decimal.PrintInjective` | pkg/bosh/manifest/instance_group.go:112-117 | different numbers print differently |
| `Instances.NewJobInstances` | pkg/bosh/manifest/instance_group.go:120-128 | the instances are those of all zones and ordinals, zone by zone, with their names, addresses, dense indices and bootstrap flags |
| `Instances.JobInstances` | pkg/bosh/manifest/instance_group.go:130-157 | the same for a group without zones |
| `Instances.JobInstancesAZ` | pkg/bosh/manifest/instance_group.go:159-188 | the same for the nested loops over zones and ordinals |
| `Instances.Services` | pkg/bosh/bpmconverter/resources.go:260-325 | one service per zone and ordinal in the same order, then the headless one; nothing without ports |
| `Instances.GenerateServices` | pkg/bosh/bpmconverter/resources.go:437-476 | one zone's services are added to those already listed |
| `Instances.GatherAllRewrites` | pkg/kube/util/boshdns/corefile.go:127-160 | a placeholder alias adds one rewrite per zone and ordinal in the same order, any other alias adds one to the group's service |
| `Instances.GatherRewritesForInstances` | pkg/kube/util/boshdns/corefile.go:162-182 | one zone's rewrites are added, and earlier ones stay |
| `Instances.EnumerationsAgree` | pkg/bosh/manifest/instance_group.go:112-188 | link addresses, service names and rewrite targets list the same names in the same order, as many as zones times replicas, and none for a group of less than one instance |
| `Instances.EnumeratedAt` | pkg/bosh/bpmconverter/resources.go:437-476 | what all three lists hold for the instance of a zone and an ordinal: its name, id, address, index and bootstrap flag, the service with the zone and the ordinal as labels, and the rewrite whose domain has the group and the same suffix in place of the underscore |
| `Instances.PlaceholderIsFilled` | pkg/kube/util/boshdns/corefile.go:175-175 | the first underscore of a domain, and nothing else, gives way to the instance |
| `Instances.NothingIsFilled` | pkg/kube/util/boshdns/corefile.go:175-175 | a domain without one stays as it is |
| `Instances.DomainsAreDistinct` | pkg/kube/util/boshdns/corefile.go:162-182 | a placeholder domain is another one for each instance |
| `Instances.NamesAreDistinct` | pkg/bosh/manifest/instance_group.go:112-117 | no two instances of a group share a service name |
| `Instances.FitsLabelIff` | pkg/bosh/manifest/instance_group.go:112-117 | all names of a group fit the label of section 2.3.4 of RFC 1035 if and only if its numbers of zones and replicas are at most powers of ten whose exponents share the room that its name leaves |
| `Instances.CutNamesFit` | pkg/bosh/manifest/instance_group.go:112-117 | with the cut at 53 characters seven digits of zone and ordinal always fit, and nine without zones |
| `SpecIndex.JobInstanceFor` | pkg/bosh/manifest/containerization.go:46-63 | the lookup returns the first instance in the list that matches, or nothing |
| `SpecIndex.FindsOwnInstance` | pkg/bosh/manifest/cmd_render_job_tmpls.go:58-132 | for a valid zone index the lookup never comes back empty, and with room for the replicas it finds the instance of that zone and ordinal |
| `SpecIndex.RenderedInstance` | pkg/bosh/manifest/cmd_render_job_tmpls.go:58-132 | a pod gets an instance if and only if its zone index is valid: 0 or 1 without zones, else between 1 and the number of zones; with zones of different names and at most 10000 replicas it carries the zone, ordinal, id and address of the pod, whatever replica count it is told; and it is the one that the lookup over the adapted list finds |
| `SpecIndex.ExactLookupIff` | pkg/bosh/manifest/containerization.go:46-63 | the lookup is total and exact for all zones and ordinals if and only if zone names differ and there is at most one zone or at most 10000 replicas |
| `SpecIndex.DenseIndex` | pkg/bosh/manifest/instance_group.go:159-188 | the index of an instance is zone times replicas plus ordinal |
| `SpecIndex.OneBootstrapInstance` | pkg/bosh/manifest/instance_group.go:130-188 | every list that is not empty has exactly one bootstrap instance: the first at the initial rollout, else the last |
| `SpecIndex.OneBootstrapPodAtFirstIff` | pkg/bosh/manifest/cmd_render_job_tmpls.go:58-158 | during the initial rollout exactly one pod of the group, the first of the first zone, is rendered with a bootstrap instance, even if pods are told different replica counts, if and only if no other zone is called like the first one |
| `SpecIndex.BootstrapPodsLater` | pkg/bosh/manifest/cmd_render_job_tmpls.go:58-158 | later on it is exactly the pods of the last zone whose ordinal reaches the number they are told, and nobody if an earlier zone is called like the last one |
| `SpecIndex.OneBootstrapPodLaterIff` | pkg/bosh/manifest/cmd_render_job_tmpls.go:58-158 | and it is exactly one pod if and only if the last zone has a name of its own and the number told is the number of pods, or there is one pod that is told at most one |
| `SpecIndex.RepeatedZoneBreaksBootstrap` | pkg/bosh/manifest/containerization.go:46-63 | a group of two zones with the same name: two bootstrap pods at first, none later |
| `Mounts.DeduplicatedIsExact` | pkg/bosh/bpmconverter/volume_factory.go:524-538 | deduplication keeps exactly one mount for each path: the first |
| `Mounts.FrontStays` | pkg/bosh/bpmconverter/volume_factory.go:524-538 | mounts at the front that have different paths all stay |
| `MountSlices.Append` | pkg/bosh/bpmconverter/container_factory.go:105-112 | appending gives the concatenation and leaves the slice's own part as it was, in place or in a new array as the capacity decides |
| `MountSlices.ProcessVolumeMounts` | pkg/bosh/bpmconverter/container_factory.go:99-115 | defaults, process mounts, ephemeral and persistent mount in order; the default list stays as it was although its spare capacity may be written |
| `MountSlices.DeduplicateVolumeMounts` | pkg/bosh/bpmconverter/volume_factory.go:524-538 | the result is deduplicated and lies in an array of its own |
| `MountSlices.BuildAll` | pkg/bosh/bpmconverter/init_containers.go:51-75 | whatever spare capacity the default slice has, building all containers leaves the default list and the mounts of every earlier container as they were |
| `PodSlices.BuildPodSlices` | pkg/bosh/bpmconverter/resources.go:154-163 | building a whole pod on slices, pre-starts and then main containers, gives every container the mounts that it has as a value, and leaves the default list as it was |
| `PodSlices.PodIsBuilt` | pkg/bosh/bpmconverter/init_containers.go:51-83 | the containers so built are the pre-start and job containers of the pod, all of them and no others, although init containers are listed in another order than they are built |
| `Disks.Filter` | pkg/bosh/manifest/disk.go:30-38 | the loop computes the filtered list |
| `Disks.FilteredIsExact` | pkg/bosh/manifest/disk.go:21-38 | a disk is in the filtered list if and only if it is in the list and carries the label |
| `Disks.MountsAreExact` | pkg/bosh/manifest/disk.go:41-49 | the mounts of a list are those of its disks, and no others |
| `Disks.FirstMountIsFirst` | pkg/bosh/manifest/disk.go:75-89 | the ephemeral and the persistent mount of a job are those of the first disk in the list with that label, and there is none if no disk has it |
| `Disks.DefaultPathsDiffer` | pkg/bosh/bpmconverter/volume_factory.go:94-148 | the default mounts have five different paths |
| `Disks.SortVolumes` | pkg/bosh/bpmconverter/volume_factory.go:183-206 | unrestricted volumes inside the known directories become additional ones, those in the jobs directory are dropped, the others stay in order |
| `Disks.MatchesAdditionalIff` | pkg/bosh/bpmconverter/volume_factory.go:58-60 | an additional path is accepted if and only if something other than a line break comes after one of the three directories, anywhere in it |
| `Disks.BinaryIsExact` | pkg/bosh/bpmconverter/volume_factory.go:254-255 | the number in the name of an unrestricted volume is its index in base two, without leading zeros |
| `Disks.GenerateAdditionalDisk` | pkg/bosh/bpmconverter/volume_factory.go:216-252 | the last of the data, store and sys directories that is a prefix decides volume and sub-path |
| `Disks.GenerateBPMDisks` | pkg/bosh/bpmconverter/volume_factory.go:156-303 | it succeeds if and only if all additional paths match and a persistent disk is declared where one is wanted, and then it yields the disks of all jobs in order |
| `Containers.BuildJob` | pkg/bosh/bpmconverter/containers.go:53-121 | a job's containers are built if and only if it has a config, an image and valid processes; only the first one drains |
| `Containers.JobsToContainers` | pkg/bosh/bpmconverter/containers.go:19-134 | the same for all jobs, with the count of jobs with processes in every handler, and for errands without handlers |
| `Containers.AllBuildableIff` | pkg/bosh/bpmconverter/containers.go:38-76 | that is, if and only if every job has a config and an image and every process has valid limits |
| `Containers.MainContainersIff` | pkg/bosh/bpmconverter/containers.go:52-134 | the containers of a pod are one per process of each job, under the name of job and process, with its mounts and its handler, and the one for the logs unless that is disabled |
| `Containers.PrependContainer` | pkg/bosh/bpmconverter/init_containers.go:93-98 | the shifted list is the container followed by the old list |
| `Containers.JobsToInitContainers` | pkg/bosh/bpmconverter/init_containers.go:19-91 | one spec copier per release, rendering, directories, waiting and pre-starts in order; an error if and only if some job has no image or config |
| `Containers.AllFoundIff` | pkg/bosh/bpmconverter/init_containers.go:30-46 | that is, if and only if every job has an image and a config |
| `Containers.WaitsBeforePreStarts` | pkg/bosh/bpmconverter/init_containers.go:77-91 | the order of the init containers: copying, one per release, then rendering, directories, and the waiting for the required service if there is one, and only then the pre-starts, of every job in order and of exactly the processes with a hook |
| `PodMounts.KindsOfDisks` | pkg/bosh/bpmconverter/volume_factory.go:156-303 | a disk is generated if and only if it is that of an additional or unrestricted volume of a process of the pod, or of an ephemeral or persistent disk that a job of the pod asks for |
| `PodMounts.DeclaredIff` | pkg/bosh/bpmconverter/resources.go:165-169 | the volumes of the pod are the default ones, the claim if a job asks for a persistent disk, and those of unrestricted volumes and custom disks, and no others |
| `PodMounts.IntegrityIff` | pkg/bosh/bpmconverter/volume_factory.go:156-303 | for every pod: all disks' mounts name volumes of the pod if and only if additional paths are rooted in the three directories (or a volume has the empty name), the claim is supplied where a store path is used, and custom disks name supplied volumes |
| `PodMounts.PlainIntegrityIff` | pkg/bosh/bpmconverter/volume_factory.go:156-303 | for pods whose names do not clash: if and only if the paths are rooted and a persistent or custom disk brings the claim for a store path |
| `PodMounts.UnanchoredPathDangles` | pkg/bosh/bpmconverter/volume_factory.go:208-252 | a pod with an additional path outside the three directories that is accepted and built although an init container then mounts a volume that the pod does not have |
| `PodMounts.JobContainersAreWellMounted` | pkg/bosh/bpmconverter/containers.go:52-121 | then every job container mounts only volumes of the pod, mounts the drain stamps, and has no path twice |
| `PodMounts.PodIsWellMounted` | pkg/bosh/bpmconverter/init_containers.go:19-229 | and so every mount of every init and main container names a volume of the pod |
| `PodMounts.PodIsMountedIff` | pkg/bosh/bpmconverter/init_containers.go:66-75 | where disks that share a path name the same volume, all init and main containers mount only volumes of the pod if and only if its paths and custom disks are backed |
| `PodMounts.BuildPod` | pkg/bosh/bpmconverter/resources.go:87-169 | the pod is built if and only if it has jobs, its disks are accepted and its containers can be built; all its mounts have volumes if its paths and custom disks are backed, and only then where disks that share a path name the same volume |
| `MountedPaths.SortedVolumes` | pkg/bosh/bpmconverter/volume_factory.go:183-206 | which unrestricted volumes become additional ones, which are mounted on their own, and which are dropped |
| `MountedPaths.MountsWhatIsWanted` | pkg/bosh/bpmconverter/containers.go:66-74 | the container of a process mounts nothing but the default mounts, the volumes of its process, custom disks with its labels, and the ephemeral and persistent disk of its job, and has a mount at each of these paths |
| `MountedPaths.ContainerMountsWhatIsWanted` | pkg/bosh/bpmconverter/volume_factory.go:156-372 | for every container of a pod, and with volume, sub-path and mode where nothing else competes for the path |
| `MountedPaths.PreStartMountsEverything` | pkg/bosh/bpmconverter/init_containers.go:66-75 | the pre-start container of every job has a mount at the path of every disk of the pod |
| `MountedPaths.GeneratedVolumesIff` | pkg/bosh/bpmconverter/volume_factory.go:254-372 | the volumes that generated disks add: the data directory again if it is a claim and a job asks for it, the claim for the store if a job asks for it, and one for each unrestricted volume on its own |
| `MountedPaths.AllAcceptedIff` | pkg/bosh/bpmconverter/volume_factory.go:156-303 | disks are generated if and only if all additional paths of all processes match, those of moved volumes included, and the group has a persistent disk if any process asks for one |

## Left out

- YAML and JSON text: documents are trees, and the byte-level replacement of markers is a rewriting of tree nodes; SHA-1 is an arbitrary function to texts of 40 characters.
- The `reflect.Map` case of the marking: the decoded document holds ordered mappings, so it is not reached.
- ERB rendering, pre-render scripts, go-patch, bosh-cli templates and mergo: code outside the repository.
- Kubernetes clients, watches, predicates, owner references and webhooks: they appear as outcomes of calls.
- Propagation of the global update block: the schedule starts from each group's resolved flag.
- The `from` override of consumers: it only renames a key after the lookup.
- The service stage of native links: it gathers addresses of pods that the cluster reports.
- Probes, security contexts, resource limits, labels and annotations: plain copying; whether a process is acceptable is one flag.
- Claims: persistent volume claims and claim templates are left out, only their volume names are kept.
- Log tailing, command line, resource definitions, generated clients.
- The timeout of the wait command: a pod that gives up waiting is restarted and waits again.
- Crashes of the operator, restarts of containers, and kills after the grace period.
- Nested Go maps are values in the model: that both lookup maps share one properties map, and that levels are updated in place, is not captured.
- The cache of job specs and the storing of instances into the job: `LinkRegistry.Collect` loads each spec where it is needed.
- Appending unrestricted volumes onto the backing array of a process's additional volumes: modelled on values.
- The CoreDNS template text around a rewrite: a rewrite is its two names.
- Equal service names of two different instance groups: names are compared within one group.
- Containers.JobsToContainers: requires that disks labelled for a process have a mount, because the code dereferences it and panics otherwise; the same holds for the members that build on it.
- PodMounts.PodIsMountedIff: requires that disks at the same path name the same volume, because deduplication hides a mount whose path came earlier, and with it a volume that is missing.
