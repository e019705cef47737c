# ctrlplane in Dafny

A model of the reconcilers, replica orchestration, release chain, variable
resolver, metrics store, channel protocols and event history of ctrlplane, with
proofs of what they promise. `dafny verify dfyconfig.toml` checks it.

## How to read it

Code that changes state is a class with methods and loops, each proved against
a specification over plain values; runs, invariants and reference definitions
are lemmas about that specification. A store is a map of values. Every call to
a provider, and every call to an unreliable store, succeeds or fails
arbitrarily; a failed call may still have had its effect where that matters.
Where a store is marked reliable no call fails, and the operations promise to
succeed.

| files | part of the system |
|---|---|
| `Common`, `Text` | shared datatypes; decimal rendering and slugs |
| `Stores`, `Instances`, `ReleaseChain`, `Deploys` | rows, instance create and delete, releases and rollouts |
| `WorkloadSpec`, `Workloads`, `Spawning` | the workload operations and what one call may do |
| `WorkloadInvariants`, `WorkloadSafety`, `WorkloadCounts`, `WorkloadRuns`, `WorkloadTheorems`, `WorkloadDensity`, `WorkloadHistory`, `Agreement`, `Collector` | invariants over all runs, exact scaling, index sets, agreement of specs and releases, the orphan sweep |
| `Bootstrap`, `Reconciler`, `Convergence`, `HookOrder` | the bootstrap reconciler, one tick and many, and what hook order changes |
| `Expressions`, `Resolver`, `Resolving`, `Meaning`, `Render` | variables, computed fixpoint, what the answer means, rendering |
| `Samples`, `RingBuffer`, `Grouping`, `Downsample`, `Aggregate`, `WindowBound`, `Rates` | metric samples from counter to workload series |
| `Subscriptions`, `FanIn`, `FanInMain` | subscriber channels and the fan-in of replica streams |
| `EventBus` | in-process bus and its history |

Names worth knowing: `Sound` (rows agree with workloads, slugs distinct),
`Clean` and
`RoomyStep` (no row without an owner sits on a replica slug), `AtRest` (the states
a workload rests in), `Numbered` (versions 1, 2, 3, ...), `Ticked` (each name's
row is the `Tick` of what it was), `Fixpoint` (reached by evaluation, nothing
left evaluable), `Reported` (one mean per non-empty bucket, ascending).

## Where the code and its comments differ

The model follows the code.

- Hook order. `bootstrap/service_impl.go:134-137` calls it stable;
  `bootstrap/hook.go:75-85` walks a Go map. The set of desired names does not
  depend on it (`HookOrderKeepsNames`); the desired specs do, unless the hooks
  agree (`OrderMattersExactly`).
- Failed deletion. `workload/service_impl.go:624-629` says the row stays
  Destroying; line 681 writes Failed, which is what `Deleted` states.
- Shrinking. `workload/service_impl.go:354` says highest-indexed first; the
  victims, which are the highest-indexed, go lowest first. A failed Scale down
  therefore leaves a gap in the indices unless its first victim is the one that
  failed: `FailedShrinkDense`, `ShrinkMayLeaveGap`.
- Index reuse. `workload/service_impl.go:337-341` says a workload going from 3
  to 1 to 3 reuses no names. One past the highest remaining index does reuse
  them: `NameReused` says which, `BackAndForthReuses` that from 0..k-1 it is all
  of them.
- Prior release. `deploy/service_impl.go:595` speaks of the newest active one;
  the code takes the newest. After a rollback the two can describe different
  images: `RollbackThenDeploy` and, from a new instance, `NewestMayNotRun`.
- Dependencies. `provider/service_spec.go:63` calls a cycle a validation error;
  only the names are checked, and `CycleAccepted` is a cycle that passes.

## Properties that hold under an exact condition

- A successful Scale up or Create owns as many replicas as it counts exactly
  when it adopts no row without an owner (`ScaleUpExact`, `CreateExact`);
  `AdoptionLeavesShort` shows a Create that does.
- With no row without an owner in the way, a call keeps all index sets at
  0..k-1 exactly when it removes no replica below one it keeps (`StepDense`),
  which every successful call does (`SuccessRemovesHighest`).
- Some pattern of provider failures makes a call leave a gap in indices that
  were 0..k-1 exactly when it sets out to remove two or more replicas of one
  workload (`GapExactly`).
- After a successful Deploy spec and releases agree on environments exactly
  when, wherever the deciding request entry of a service carries none, no other
  entry of it and not the spec does (`DeployExact`).
- Every order of the hooks gives the same desired specs exactly when, for each
  undeclared name, the hooks that offer it agree on their first spec of it
  (`OrderMattersExactly`).
- One tick converges a datacenter exactly when each row kept as it is rests in
  Pending, Failed or Running and the provider lets every other row go
  (`ConvergesExactly`).
- A rollback makes the provider run the target exactly when it ran no service
  the target does not name (`RollbackRestores`); `RollbackMayLeave` is a run
  from a new instance in which it does not.
- After a rollback and a partial deploy the newest release describes what runs
  exactly when, outside the deployed services, the target only names what the
  formerly newest release names, and alike (`RollbackThenDeploy`).
- Rendering leaves a tree unchanged in every scope exactly when each of its
  texts opens no template action or prints itself without looking at anything
  (`RenderedAgain`). A variable whose value is itself a template breaks that
  (`SecondRenderDiffers`); values and literals without braces ensure it
  (`BracelessRendersPlain`).
- Rates add up to the last counter minus the first exactly when the counter was
  never reset (`TrafficRecovered`), for increasing sample times; a sample whose
  time does not increase stores raw totals (`StaleTimeStoresTotals`).
- A subscription handle of the event bus removes its own entry exactly when no
  handle with a smaller number was used since it joined (`OwnHandle`).

## Model

| member | source | states |
|---|---|---|
| Text.ReadItoa | workload/service_impl.go:851-866 | reading a replica index label gives back the index that was rendered into it |
| Text.ItoaCanonical | workload/service_impl.go:767 | an index has one rendering: no leading zero |
| Text.SpaceExactly | workload/service_impl.go:168-173 | white space is exactly 25 characters, listed one by one |
| Text.BlankIsTrimmed | workload/service_impl.go:168-173 | a name is blank exactly when trimming leaves nothing |
| Text.SlugChars | workload/service_impl.go:882-888 | character by character: upper case is lowered, blanks become dashes, underscores too in a workload slug, all else stays |
| Text.LookupSlugIsStoredSlug | instance/service_impl.go:638-640 | the slug spawnReplica looks up and the one instance creation stores are the same text, although two helpers compute them |
| Text.ReplicaNameInjective | workload/service_impl.go:769-770 | a replica slug determines the workload slug and the index |
| Text.SlugIsSlugged | workload/service_impl.go:882-888 | the workload slug helper is idempotent |
| ReleaseChain.InheritOverrides | deploy/service_impl.go:601-630 | a new release is the newest one overridden by the request, as maps, for every request and every prior release |
| ReleaseChain.InheritDistinct | deploy/service_impl.go:601-630 | given a prior release without duplicates, the new one names each service once exactly when the request did |
| ReleaseChain.NumberedNewest | store/memory/deploy.go:123-173 | with versions 1..n in insertion order, next version is n+1 and the newest is the last inserted |
| ReleaseChain.ReleaseIsOverride | deploy/service_impl.go:59-94 | release k equals the starting one overridden by requests 1..k in order; earlier releases never change; no service name is dropped |
| ReleaseChain.RunIssues | deploy/service_impl.go:256-363 | from any chain, empty or not, and whatever fails: the releases after a run are those its deploys issued, and its first initial recording where there was none; rollbacks and repeated recordings add nothing |
| ReleaseChain.RunningIsNewest | deploy/service_impl.go:59-236 | while every deploy succeeds and nobody rolls back, the provider runs the newest release |
| ReleaseChain.RollbackRestores | deploy/service_impl.go:366-503 | a successful rollback makes the running map the target release if and only if no service outside the target ran, and adds no release |
| ReleaseChain.ReleasesKeepSet | deploy/service_impl.go:601-630 | over a fixed set of services every release of every run names exactly that set |
| ReleaseChain.RunningWithin | deploy/service_impl.go:59-236 | nothing outside that set is ever run, whatever fails part-way |
| ReleaseChain.RollbackAfterRun | deploy/service_impl.go:366-503 | over a fixed set of services, after any run with any failures, a successful rollback restores the target release exactly |
| ReleaseChain.RollbackThenDeploy | deploy/service_impl.go:592-606 | after a rollback to any target and a partial deploy the newest release describes what runs if and only if each service of the target outside the request was named alike by the former newest |
| ReleaseChain.NewestMayNotRun | deploy/service_impl.go:602 | from a new instance: record, deploy one service, roll back, deploy the other, every call succeeding, and the newest release names an image that does not run |
| ReleaseChain.RollbackMayLeave | deploy/service_impl.go:366-503 | from a new instance: deploy a service the initial release lacks, roll back to it, and that service still runs |
| Deploys.BuildReleaseSnapshot | deploy/service_impl.go:601-630 | the two loops produce the request followed by the prior services it leaves out |
| Deploys.RecordInitial | deploy/service_impl.go:256-363 | one initial release and one succeeded deployment on an empty chain; nothing at all on any other |
| Deploys.Execute | deploy/service_impl.go:175-195 | a strategy's contract: exactly the listed services applied on success, only listed ones touched on failure |
| Deploys.Roll | deploy/service_impl.go:113-226 | one deployment row appended, Succeeded, Failed or, where the strategy or provider is unknown, Pending with nothing run; releases untouched; a registered strategy succeeds on a reliable provider |
| Deploys.Deploy | deploy/service_impl.go:59-236 | an unknown instance changes nothing; otherwise one release and one deployment are added to that chain alone, also when the rollout fails; the deployment runs the requested strategy, rolling for none; an unregistered one never succeeds, a registered one does on a reliable provider |
| Deploys.Rollback | deploy/service_impl.go:366-503 | finds the release, redeploys all its services with the recreate strategy, and adds no release; an unknown release changes nothing |
| Instances.Create | instance/service_impl.go:43-152 | refused with nothing stored, failed with the row kept as Failed, or running; never on a taken slug; on a reliable provider it succeeds for any services and free slug |
| Instances.Delete | instance/service_impl.go:293-350 | the row is gone, or it stays as Failed; a destroyed row always goes; no other row changes; on a reliable provider it goes |
| Workloads.ValidateServices | workload/service_impl.go:157-205 | accepts if and only if there are services, no blank name or image, unique names, exactly one main (unset counts) and known dependencies; fills in unset roles |
| Workloads.DependenciesKnown | workload/service_impl.go:195-202 | true if and only if every dependency names a service |
| Workloads.CycleAccepted | workload/service_impl.go:195-202 | two services that depend on each other pass |
| Workloads.MainsCount | workload/service_impl.go:161-193 | counting one main is the same as there being exactly one |
| Workloads.SortByReplicaIndex | workload/service_impl.go:868-878 | the in-place exchange sort yields a permutation in ascending index order |
| Workloads.ListInstances | workload/service_impl.go:716-737 | lists exactly the owned replicas, each once, ascending by index |
| Workloads.NextReplicaIndex | workload/service_impl.go:835-846 | one past the highest owned index, 0 when there is none |
| Workloads.SpawnReplica | workload/service_impl.go:762-830 | adopts a row of this workload or of nobody, refuses another workload's, else creates a labelled replica with its initial release |
| Workloads.SpawnRange | workload/service_impl.go:126-133 | spawns in order and stops at the first failure; every index before it is held afterwards and no earlier row changes |
| Workloads.Create | workload/service_impl.go:68-152 | refused leaving everything as it was, or a new row with at least one replica asked for, Active if all spawned and Failed if not; on a reliable provider every acceptable request with a free slug succeeds |
| Workloads.DeleteVictims | workload/service_impl.go:353-366 | deletes the tail of the order front to back and stops at the first failure |
| Workloads.Resize | workload/service_impl.go:335-367 | grows from one past the highest index, or shrinks by the tail of the order |
| Workloads.Scale | workload/service_impl.go:309-406 | count and state change only as the outcome allows: the count only on success, Failed otherwise; a refused call changes nothing; on a reliable provider every accepted call succeeds |
| Workloads.Pause | workload/service_impl.go:416-432 | a count above zero is remembered first, then scaled to zero |
| Workloads.Resume | workload/service_impl.go:437-455 | scales to the remembered count, else the present one, else one |
| Workloads.ApplyRequest | workload/service_impl.go:523-543 | fails if and only if the request names an unknown service; otherwise each service takes the last entry naming it |
| Workloads.Deploy | workload/service_impl.go:507-622 | the spec takes the request, each replica in index order one deploy step up to the first failure; Active or Failed; on a reliable provider an accepted request with a registered strategy succeeds |
| Workloads.RollOut | workload/service_impl.go:565-581 | successful steps for a prefix of the replicas, a failed one at most after it, no other chain touched |
| Workloads.Delete | workload/service_impl.go:638-701 | every replica is tried; the workload row goes if and only if none is left, otherwise it is Failed; on a reliable provider it goes |
| Workloads.EmptyOut | workload/service_impl.go:647-683 | all replicas are tried whatever fails; those that stay are Failed and no other row changes |
| WorkloadInvariants.IndicesDistinct | workload/service_impl.go:337-352 | owned replicas have pairwise distinct indices in every sound state |
| WorkloadInvariants.IndicesSize | workload/service_impl.go:716-737 | a workload has as many indices as replicas |
| WorkloadSafety.CreateKeeps | workload/service_impl.go:68-152 | Create keeps the row invariant, failed spawns included |
| WorkloadSafety.ScaleKeeps | workload/service_impl.go:309-406 | so does Scale, failed or not |
| WorkloadSafety.DeployKeeps | workload/service_impl.go:507-622 | so does Deploy; specs keep unique names, one main and known dependencies |
| WorkloadSafety.DeleteKeeps | workload/service_impl.go:638-701 | so does Delete: the row goes only when no instance is labelled with it |
| WorkloadCounts.GrownIndices | workload/service_impl.go:337-352 | a successful grow adds exactly the indices asked for, less the adopted ones |
| WorkloadCounts.GrownCount | workload/service_impl.go:337-352 | a successful grow misses its target by exactly the number of adopted rows |
| WorkloadCounts.ShrinkKeepsLowest | workload/service_impl.go:353-366 | a successful shrink to n keeps precisely the n lowest-indexed replicas, untouched |
| WorkloadTheorems.ScaleUpExact | workload/service_impl.go:772-784 | a successful Scale up owns its count if and only if no row without an owner sits on a slug it asks for |
| WorkloadTheorems.CreateExact | workload/service_impl.go:68-152 | a successful Create is Active with the count asked for, and owns that many replicas if and only if no row without an owner sits on one of their slugs |
| WorkloadTheorems.AdoptionLeavesShort | workload/service_impl.go:772-784 | in every sound state with an unowned row on replica slug 0, Create of one replica can succeed, count one and own none |
| WorkloadTheorems.ScaleKeepsReplicas | workload/service_impl.go:309-406 | after a successful Scale the survivors are untouched and all lower-indexed than the removed ones; scaling up keeps every replica |
| WorkloadTheorems.DeployRefusedExactly | workload/transitions.go:17-57 | at rest a Deploy is refused if and only if the request is empty, the workload unknown or not Active, or it names an unknown service |
| WorkloadTheorems.ScaleAccepts | workload/transitions.go:17-57 | a Scale is refused, changing nothing, exactly for a negative count, an unknown workload or one not Active, Paused, Failed or Scaling; otherwise it ends Failed, Paused or Active by outcome and count |
| WorkloadTheorems.DeployReaches | workload/service_impl.go:565-581 | every replica's chain is untouched or took one deployment of the request, run by the requested strategy, rolling for none; after a successful Deploy every replica took it |
| WorkloadTheorems.NormalisedOnlyRoles | workload/service_impl.go:180-187 | accepting a spec changes nothing but roles left open, which become Main |
| WorkloadTheorems.ResumeAsks | workload/service_impl.go:437-455 | a Resume asks for the remembered count; without one for the present count; never for less than one |
| WorkloadTheorems.SpawnedAreNew | instance/service_impl.go:95-109 | a replica is as old as the call that spawned it |
| WorkloadDensity.LostDense | workload/service_impl.go:353-366 | losing replicas, by whatever call, keeps the index set 0..k-1 if and only if the highest ones were lost |
| WorkloadDensity.StepDense | workload/service_impl.go:835-846 | where no unowned row is in the way: after any call, successful, failed or refused, all index sets are 0..k-1 if and only if the call removed no replica below one it kept |
| WorkloadDensity.SuccessRemovesHighest | workload/service_impl.go:353-366 | a successful call never removes a replica below one it keeps |
| WorkloadDensity.RunDense | workload/service_impl.go:835-846 | in runs with no unowned row on a replica slug, spawns failing and calls refused at will, every index set stays 0..k-1 as long as no failed call removes a replica below one it keeps |
| WorkloadDensity.FailedShrinkDense | workload/service_impl.go:353-366 | a failed Scale down leaves the index set 0..k-1 if and only if it removed nothing, its first victim being the one that failed |
| WorkloadDensity.ShrinkMayLeaveGap | workload/service_impl.go:353-366 | from every such state any Scale down by two or more can fail and leave a gap |
| WorkloadDensity.GapExactly | workload/service_impl.go:638-701 | where no unowned row is in the way: some provider failures make a call, Delete included, leave a gap if and only if it sets out to remove two or more replicas of one workload |
| WorkloadDensity.NameReused | workload/service_impl.go:337-352 | where no unowned row is in the way: after scaling down to n and up to m the name of a removed replica is taken again if and only if its index is below the next free one plus m - n |
| WorkloadDensity.BackAndForthReuses | workload/service_impl.go:337-341 | from indices 0..k-1, scaling down and back up to k takes every removed name again |
| WorkloadRuns.RunKeepsSound | workload/service_impl.go:638-701 | after any run with any provider failures: no orphan, slug = workload slug + "-" + index, distinct slugs, well-formed specs |
| WorkloadRuns.RunRests | workload/transitions.go:17-57 | provided no row without an owner sits on a replica slug: after any run each workload is Active with as many replicas as it counts, Paused with none, or Failed; scaling is never refused for its state and deploying never finds no replicas |
| WorkloadRuns.ResizeReaches | workload/service_impl.go:330-381 | with no unlabelled row in the way a successful resize owns exactly its target |
| WorkloadHistory.ScaleCount | workload/service_impl.go:309-406 | the count becomes the target on success and is left alone on failure; what a pause remembered never changes |
| WorkloadHistory.PauseResumeRun | workload/service_impl.go:416-455 | from n > 0 after a first Pause, any further Pauses and Resumes, failing at will and interleaved with work on other workloads, keep n remembered and the count at 0 or n |
| WorkloadHistory.ResumeRestores | workload/service_impl.go:437-455 | provided no row without an owner sits on a replica slug: a final successful Resume is Active and owns n replicas again |
| Agreement.DeployAgrees | workload/service_impl.go:523-543 | patching the spec and deploying the same request keep the image of every service equal in both, and the environment if and only if, where the deciding entry carries none, no entry of the service and not the spec does |
| Agreement.DeployExact | workload/service_impl.go:507-622 | the same for a workload's spec and all its replicas after a successful Deploy |
| Agreement.BornAgrees | workload/service_impl.go:788-827 | a replica's initial release agrees with the spec it was spawned from, environments included |
| Agreement.RunAgrees | deploy/service_impl.go:601-630 | in every run in which the calls on one workload succeed or are refused, those on others failing at will, each of its replicas' newest release gives every service the spec's image, and its environment as long as each Deploy keeps it; the spec stays well formed |
| Collector.IsOrphan | worker/gc.go:299-326 | true exactly for a labelled row past the grace age whose workload the store says is missing; a lookup that fails spares the row |
| Collector.SweepTenant | worker/gc.go:217-280 | every orphan on the page is gone, or kept as Failed where its deletion failed, and gone on a reliable provider; every other row is untouched; the count is the number removed; the page is everything when it fits the limit |
| Collector.SweepFindsNothing | worker/gc.go:217-326 | after any run of workload operations a sweep of any page changes nothing and reports zero |
| Bootstrap.FirstsAreFirst | bootstrap/service_impl.go:138-181 | a spec is desired if and only if it is the first occurrence of its non-empty name in declared entries followed by contributions |
| Bootstrap.FirstsDistinct | bootstrap/service_impl.go:138-181 | desired names are distinct |
| Bootstrap.DeclaredWins | bootstrap/service_impl.go:134-137 | a declared entry is the desired spec of its name whatever hooks contribute |
| Bootstrap.BuildDesired | bootstrap/service_impl.go:138-181 | the loops compute exactly that dedupe; a failing hook removes only its own specs |
| Bootstrap.Store.Insert | store/memory/bootstrap.go:18-45 | inserts only on a free id and name; an error may or may not have taken effect |
| Bootstrap.Store.Update | store/memory/bootstrap.go:99-116 | replaces an existing row or reports an error, which may or may not have taken effect |
| Bootstrap.Store.Delete | store/memory/bootstrap.go:122-129 | removes at most that row |
| Bootstrap.ProvisionRow | bootstrap/service_impl.go:189-227 | only this row changes and it stays; Provision is reached only with the row stored; Running or Failed with one more attempt |
| Bootstrap.RetireRow | bootstrap/service_impl.go:234-249 | only this row changes; it is gone only if the provider no longer runs it, otherwise it is Retiring with one more attempt |
| Bootstrap.CollectHook | bootstrap/service_impl.go:159-178 | a hook that fails removes only its own specs |
| Reconciler.RetirePass | bootstrap/service_impl.go:94-107 | undrifted rows are untouched, drifted ones are gone or Retiring, in whatever order the map is walked |
| Reconciler.InstallOne | bootstrap/service_impl.go:108-127 | keeps, retries or installs one name and leaves every other name's row alone |
| Reconciler.InstallPass | bootstrap/service_impl.go:108-129 | the row of every name is a function of that name's own row, spec and provider answer |
| Reconciler.PassesCompose | bootstrap/service_impl.go:94-129 | retire then install amounts to one tick of the name |
| Reconciler.Reconcile | bootstrap/service_impl.go:68-132 | under every failure pattern names stay unique and whatever runs at the provider has a row; with a reliable store each name's row is its Tick, hence independent of map order; a quiet datacenter sees no write and no provider call |
| Convergence.ConvergesExactly | bootstrap/service_impl.go:68-132 | one tick leaves exactly one matching row per desired name, Running or Failed, if and only if kept rows were drivable and the provider let all others go |
| Convergence.ConvergedCarries | bootstrap/service_impl.go:308-329 | after a tick that converges every row carries its spec's services and kind, deployment where the spec names none |
| Convergence.TickCarries | bootstrap/service_impl.go:94-129 | a Running row that carries its spec is left as it is; one that does not is replaced by one that does once the provider lets it go, and kept Retiring until then; a new row starts with no attempt |
| Convergence.QuietCarries | bootstrap/service_impl.go:94-129 | a datacenter sees no write and no call exactly where every row carries its spec and needs no retry, and every name has a row |
| Convergence.AcceptedBecomesQuiet | bootstrap/service_impl.go:108-127 | if every Provision also succeeds all rows run and the next tick finds nothing to do |
| Convergence.RetriesUntilAccepted | bootstrap/service_impl.go:189-227 | over many ticks a row is Running exactly from the first accepted Provision on and its attempts count the failures before it |
| Convergence.DriftedUntilReleased | bootstrap/service_impl.go:234-249 | over many ticks a drifted or unwanted row stays Retiring, counting attempts, until the first tick that releases it; from then on the name is gone, or installed anew and Running from the first Provision accepted since |
| HookOrder.HookOrderKeepsNames | bootstrap/hook.go:75-85 | the set of desired names does not depend on hook order |
| HookOrder.OrderMattersExactly | bootstrap/hook.go:75-85 | every reordering of the hooks gives the same desired specs if and only if, for each undeclared name, the succeeding hooks that offer it agree on their first spec of it |
| HookOrder.HookOrderPicksSpec | bootstrap/hook.go:75-85 | the smallest disagreement: two hooks, one spec each, swap the desired spec when their order swaps |
| Expressions.EvalStable | vars/resolver.go:307-319 | an evaluation that succeeded gives the same text in every extension of the scope |
| Expressions.TouchedPresent | vars/resolver.go:307-319 | an evaluation that looks at an absent variable fails |
| Expressions.EvalPrints | vars/resolver.go:307-319 | an evaluation prints its pieces from left to right, and fails exactly when one is missing |
| Resolver.GatherSorts | vars/resolver.go:46-77 | after the first loop plain values, computed and secret names are disjoint and names are unique |
| Resolver.GatherIgnoresOthers | vars/resolver.go:46-77 | the first loop depends on the values of plain variables only |
| Resolver.FollowWithin | vars/resolver.go:270-303 | no working order computes more, or anything else, than the fixpoint |
| Resolver.FixpointUnique | vars/resolver.go:270-303 | two fixpoints over the same definitions in any listing have the same scope |
| Resolver.CompleteExactly | vars/resolver.go:270-303 | the fixpoint covers all definitions if and only if they can be ordered so that each is evaluable from earlier ones |
| Resolving.Round | vars/resolver.go:274-288 | a round only extends the scope by evaluable definitions and keeps the rest in order; without progress nothing changed |
| Resolving.ResolveComputed | vars/resolver.go:270-303 | reaches the fixpoint in at most as many rounds as definitions; done, or a cycle naming what is left in order |
| Resolving.Resolve | vars/resolver.go:29-86 | the first loop's error, or the outcome of the fixpoint over what it gathered |
| Meaning.PlainValues | vars/resolver.go:155-201 | after success: a value given decides a plain variable, else its default; with neither it is absent and was not required; types, members and patterns hold; secrets are bound in order, each to its own source and environment name |
| Meaning.ComputedValues | vars/resolver.go:270-303 | after success every computed variable holds its expression's value in the final scope |
| Meaning.OnlyDeclared | vars/resolver.go:36-77 | the scope holds nothing that is not declared |
| Meaning.FailsExactly | vars/resolver.go:49-77 | Resolve fails with another error than a cycle if and only if that is the error of the first definition that is malformed, repeated, required without a value, or given a value its type does not accept |
| Meaning.ValidIsWellDefined | vars/resolver.go:110-150 | the structural rules for one definition |
| Meaning.TypedMeans | vars/resolver.go:155-257 | a type accepts exactly the values that mean something to it: a number as it is, without its fraction or read from text; the texts of true and false; a text that is a member and matches |
| Meaning.ShownReadsBack | vars/resolver.go:221-257 | a printed value reads back as itself |
| Resolving.ListingOrderIrrelevant | vars/resolver.go:270-303 | listing the computed variables otherwise gives the same scope or an error naming the same variables |
| Resolving.CycleNamesHopeless | vars/resolver.go:291-298 | success if and only if a working order exists; else the error names exactly the definitions no working order contains |
| Resolving.ScopeHasNoSecrets | vars/resolver.go:56-77 | no secret is a key of the scope |
| Resolving.ResolveIgnoresSecrets | vars/resolver.go:29-86 | values of secret, computed and undeclared names never influence the result or the error |
| Render.RenderStrings | render/render.go:73-90 | succeeds if and only if every element renders, position by position |
| Render.PlainTreeUnchanged | render/helm.go:36-69 | a values tree none of whose texts opens a template action renders to itself in every scope |
| Render.ActionSomewhere | render/render.go:55 | the guard is true exactly when two opening braces stand next to each other somewhere in the text |
| Render.RenderedAgain | render/helm.go:36-69 | for the parser there is: a tree, rendered before or not, is unchanged by rendering in every scope if and only if each text opens no action or is a template that prints itself in the empty scope |
| Render.SecondRenderDiffers | render/render.go:54-70 | a variable whose value is a template: the first rendering leaves an action, the second evaluates it or fails |
| Render.BracelessRendersPlain | render/render.go:54-70 | when no literal or value an evaluation may print holds a brace, rendering leaves no action behind |
| Render.SecretFails | render/render.go:54-70 | an evaluated reference to a secret anywhere in a tree fails the rendering |
| Render.SourceSecretFails | render/services.go:13-58 | the same in an image, environment value, command, argument, manifest, chart value or field of a source |
| Render.RenderIs | render/render.go:16-49 | rendering succeeds if and only if every text of the source renders, and puts each rendered text where the source had it: names, environment keys, command and arguments in their places |
| Render.TreeIs | render/helm.go:36-69 | a values tree keeps its shape, each child rendered in its place |
| Render.PlainSourceUnchanged | render/render.go:16-49 | a source none of whose texts opens a template action renders to itself; inline manifests are only split |
| Render.SecretsDoNotInterfere | render/render.go:16-49 | resolve and render give the same result, failures included, for value maps agreeing on plain variables |
| Samples.SortByTime | metrics/ring.go:72 | a time-sorted permutation |
| Samples.AscendingUnique | metrics/ring.go:56-75 | for strictly increasing times that permutation is the sequence itself |
| Ring.RingBuffer.Push | metrics/ring.go:38-51 | the buffer keeps representing the newest pushes, with wrap-around |
| Ring.RingBuffer.Snapshot | metrics/ring.go:56-75 | a time-sorted permutation of the newest pushes, and exactly them when times increase |
| Ring.RingBuffer.Last | metrics/ring.go:78-89 | the newest push, if any |
| Grouping.Accumulate | metrics/ring.go:122-145 | the loop's buckets are exactly the per-key totals of the samples seen |
| Grouping.Conserved | metrics/ring.go:124-145 | over keys that cover the samples the per-key totals add up to the total: each sample is counted once and none is lost |
| Grouping.TotalAtPermuted | metrics/ring.go:122-145 | bucket totals do not depend on the order of the samples |
| Downsample.DownsampleRing | metrics/ring.go:94-165 | one mean per non-empty bucket of the newest pushes in the window, ascending; nothing for a non-positive resolution |
| Downsample.Range | metrics/service_impl.go:100-125 | nothing without a ring; otherwise the bucket means with the defaults: until now, since one hour earlier, automatic resolution |
| Downsample.BucketsConserve | metrics/ring.go:124-145 | the totals of the reported buckets add up to the total of the samples in the window |
| Downsample.WeighedMean | metrics/ring.go:147-160 | count times mean is the bucket's sum, for every averaged real field |
| Downsample.MeansConserved | metrics/ring.go:147-160 | count times mean, over all buckets, sums back to the window's total for every averaged real field, and the counts to the number of samples |
| Downsample.MemoryMeanInRange | metrics/ring.go:153-154 | the truncated means of memory used and of the memory limit stay between the bucket's smallest and largest sample |
| Downsample.BucketPlace | metrics/ring.go:104-113 | every bucket starts a whole number of resolutions after since, inside the window |
| Downsample.WindowPlaces | metrics/ring.go:104-131 | exactly the samples from since on and before until count, each in the bucket that starts at most one resolution before it |
| Downsample.InOneBucket | metrics/ring.go:104-145 | each sample in the window is counted in exactly one reported bucket, the one whose span holds it |
| Downsample.MemoryMeanExact | metrics/ring.go:153-154 | reported memory is the mean without its fraction |
| Downsample.AutoResolutionExact | metrics/ring.go:170-178 | never below 10 seconds; above, the largest resolution that fits the target number of times into the window; no target means 120 |
| Downsample.GridSpacing | metrics/ring.go:104-113 | the i-th of ascending bucket times is at least i resolutions into the window |
| Downsample.GridAutoBound | metrics/ring.go:170-178 | automatic resolution leaves room for at most 121 times on one grid |
| Downsample.AutoBound | metrics/ring.go:170-178 | automatic resolution gives at most 121 points, whatever was pushed |
| Downsample.BoundIsReached | metrics/ring.go:170-178 | 121 points do occur |
| Aggregate.RangeMetrics | workload/metrics_streaming.go:25-102 | one point per time any answering replica has a sample, ascending, combining exactly the samples at that time |
| Aggregate.AggregateConserves | workload/metrics_streaming.go:51-97 | CPU, memory, network and request sums over the points equal the sums over all answering replicas' points |
| Aggregate.ReplicaCountExact | workload/metrics_streaming.go:58-64 | a point's replica count is the number of replicas with a sample then, at most their number |
| Aggregate.LatencyIgnoresIdle | workload/metrics_streaming.go:72-84 | latency lies between the positive latencies reported and is zero when there is none |
| WindowBound.AggregateOnGrid | workload/metrics_streaming.go:39-77 | with since, until and resolution fixed, all points lie on one grid however many replicas answer |
| WindowBound.AggregateBound | workload/metrics_streaming.go:25-102 | with since and until given and automatic resolution, at most 121 points |
| WindowBound.DefaultsExceedBound | metrics/service_impl.go:111-122 | with zero times each replica has its own hour: two replicas asked a nanosecond apart can give 240 points |
| Rates.Poller.Derive | metrics/service_impl.go:203-230 | the rated sample and the new baseline, for a first, a later and a stale sample |
| Rates.Poller.Tick | metrics/service_impl.go:184-233 | a failed sample changes nothing; otherwise one rated sample is pushed and the baseline moves as specified |
| Rates.Poller.Poll | metrics/service_impl.go:235-246 | after any ticks the ring holds the rated form of exactly the samples that arrived |
| Rates.RatesTelescope | metrics/service_impl.go:203-222 | for either counter in every run, whatever the times, rate times elapsed time adds up to the positive increments |
| Rates.AscendingBaseline | metrics/service_impl.go:216-230 | with increasing times the baseline is always the previous sample |
| Rates.AscendingRates | metrics/service_impl.go:203-228 | with increasing times every stored rate is non-negative, the first is zero and times are kept |
| Rates.OthersStored | metrics/service_impl.go:220-232 | everything but the network rates is stored as read |
| Rates.TrafficRecovered | metrics/service_impl.go:203-222 | for either counter, with increasing times, the sum is last minus first if and only if no reset occurred, and more otherwise |
| Rates.StaleTimeStoresTotals | metrics/service_impl.go:204-230 | a sample whose time does not increase is stored with raw totals and leaves the older baseline |
| Subscriptions.Service.TrackKey | metrics/service_impl.go:54-73 | idempotent; a first call starts from an empty ring |
| Subscriptions.TrackAgain | metrics/service_impl.go:57-62 | tracking a polled instance again changes nothing |
| Subscriptions.TrackStarts | metrics/service_impl.go:64-70 | a first Track gives the instance a poller and a new empty ring and touches no other |
| Subscriptions.Service.UntrackRing | metrics/service_impl.go:80-87 | poller and ring go together |
| Subscriptions.Service.UntrackSubs | metrics/service_impl.go:91-97 | closes each listed channel, all of them open at that moment, then drops the list |
| Subscriptions.Service.WatchKey | metrics/service_impl.go:143-149 | lists a new open channel behind the others |
| Subscriptions.Service.CancelWatch | metrics/service_impl.go:151-166 | closes and unlists the channel if still listed; afterwards it is closed in any case |
| Subscriptions.Service.FindRing | metrics/service_impl.go:251-260 | the ring of a tracked instance, none otherwise |
| Subscriptions.Service.PushToRing | metrics/service_impl.go:262 | appends to the ring found before, whether dropped in between or not, and touches nothing else |
| Subscriptions.UntrackDropsRing | metrics/service_impl.go:75-87 | after an Untrack, whatever runs later, no instance has that ring again, so a push still holding it is seen by nobody |
| Subscriptions.Service.PushToSubs | metrics/service_impl.go:264-272 | offers the sample to every listed channel, all open, dropping it only for a full one |
| Subscriptions.RunKeepsSound | metrics/service_impl.go:54-98 | in every interleaving of critical sections a channel is listed, once, exactly while it is open |
| Subscriptions.ClosedForever | metrics/service_impl.go:77-98 | a closed channel is never sent to or reopened |
| Subscriptions.UntrackClosesWatchers | metrics/service_impl.go:77-98 | after an Untrack every earlier watcher is closed, whatever ran between its halves or after |
| Subscriptions.RunDelivers | metrics/service_impl.go:249-273 | a watcher gains a subsequence of the pushes to its instance in push order, and all of them while it stays open and its buffer has room |
| FanIn.StepKeepsSound | workload/streaming.go:75-203 | every step of every goroutine keeps: wait group counts running readers, a running reader is its replica's subscription or cancelled, out open until its one close |
| FanIn.NeverPanics | workload/metrics_streaming.go:119-241 | in every interleaving no send on the closed channel, no second close, closed only with no reader running, at most one uncancelled reader per replica |
| FanIn.NothingLost | workload/streaming.go:122-135 | in every interleaving what the readers sent was taken once or waits in out, and a reader that is not cancelled loses no item of its stream |
| FanIn.ItemTravels | workload/streaming.go:122-135 | a replica just subscribed can be read: the next item of its stream reaches out, sent once by its reader |
| FanIn.Descends | workload/streaming.go:82-94 | every internal step decreases a measure |
| FanIn.AlwaysEnabled | workload/streaming.go:195-202 | once the context is done or a tail expired some internal step is enabled until out is closed, even if nobody reads out |
| FanIn.TeardownBounded | workload/streaming.go:82-94 | without new items or listings any schedule takes at most Measure internal steps |
| FanIn.TeardownFinishes | workload/streaming.go:209-356 | from every sound state of a cancelled or expired stream internal steps alone close out, once, with no reader left |
| FanIn.ResyncSettles | workload/streaming.go:153-188 | a resync with readers, upstreams and the caller stepping in between: back at rest exactly the listed replicas are subscribed, less those whose stream did not open, old readers of listed replicas are kept, and every other running reader is cancelled |
| FanIn.EndedStreamStaysListed | workload/streaming.go:104-107 | along every run without teardown whose listings name the replica: a reader that ended by itself stays its subscription and no other is ever started for it |
| FanInMain.Hub.AddReplica | workload/streaming.go:96-136 | at most one reader per replica, counted before it starts |
| FanInMain.Hub.RemoveReplica | workload/streaming.go:138-151 | cancels the reader and forgets it |
| FanInMain.Hub.Resync | workload/streaming.go:153-188 | afterwards exactly the listed replicas whose stream could be opened are subscribed, old readers are kept and those of absent replicas cancelled; a failed listing changes nothing |
| FanInMain.Hub.CancelAll | workload/streaming.go:82-91 | every running reader is cancelled and no subscription is left |
| FanInMain.Hub.CloseOutput | workload/streaming.go:92-93 | after the wait the output is closed, once |
| EventBus.Bus.AppendHistory | event/inmemory.go:100-108 | the shifting buffer keeps representing the newest 1000 published events |
| EventBus.Bus.Publish | event/inmemory.go:31-50 | interested handlers are called in subscription order up to and including the first that fails |
| EventBus.InterestedExactly | event/inmemory.go:110-116 | called are exactly the subscribers that named no type or the event's |
| EventBus.Bus.RecentEvents | event/inmemory.go:69-91 | the first `limit` (50 by default) of the reversed filtered history |
| EventBus.FilterMembers | event/inmemory.go:83-85 | kept are exactly the events of an asked type, all when none is asked |
| EventBus.ReversedAt | event/inmemory.go:80-88 | the k-th result is the k-th newest kept event |
| EventBus.Bus.Subscribe | event/inmemory.go:54-66 | the new entry is last and its handle is its position |
| EventBus.Bus.Unsubscribe | event/inmemory.go:123-128 | removes by position, out of range being a panic |
| EventBus.HandleHolds | event/inmemory.go:118-128 | an entry sits where its handle says if and only if no smaller handle was used since it joined |
| EventBus.OwnHandle | event/inmemory.go:123-128 | using a handle removes its own entry exactly in that case |
| EventBus.SecondLeaveMisses | event/inmemory.go:123-128 | with three subscribers the second of two Unsubscribes removes the third subscriber |

## Left out

- Workloads.ListInstances: and every operation that lists requires at most 1000 owned replicas, the page size of `workload/service_impl.go:719`; beyond it the code sees only a page.
- Workloads.Scale: is modelled with a workload store that does not fail, as are the other workload operations; only provider calls and slug collisions fail, and an early return on a store error is not covered. A row read from the store is a copy.
- Workloads.Deploy: leaves out HealthCheck, CurrentReleaseID and the deployment record it returns.
- Workloads.Create: leaves out templates, region, datacenter, kind and user labels, which are only passed on.
- Workloads.SpawnReplica: RecordInitial fails only when the row is missing; a store failure there, which the code swallows, is not covered.
- Agreement.RunAgrees: covers no Update, no direct instance deploy and no rollback, after which spec and releases may differ.
- WorkloadRuns.RunRests: assumes that no row without an owner sits on a replica slug; `ScaleUpExact` says what happens otherwise.
- Workloads.Scale and its like write a state between the calls they make (Scaling, Deploying, Destroying, and Provisioning or Destroying of an instance); only where a call starts and ends is stated, not what a reader in between sees.
- Instances.Create: leaves out a failing store update after Provision, rendering and resolving of sources, endpoints and provider references.
- Deploys.Execute: stands for the strategies; that success applies exactly the listed services and failure touches no other is their contract, not shown.
- Deploys.Deploy: leaves out store failures between the release and the deployment row.
- Deploys.Rollback: finds the release by its version within the instance; the code looks it up by id within the tenant and does not compare instances.
- Deploys.Roll: leaves out ServiceProgress, timestamps and cancellation by a concurrent call.
- Bootstrap.Store.Insert: covers one datacenter; provider references, last errors and label or quota changes (ignored by specChanged too) are left out.
- Reconciler.Reconcile: Provision answers by name and Deprovision by row within a tick, so that order independence can be stated; both may change between ticks. The row copies are values.
- Collector.SweepTenant: one tenant; which rows a page holds beyond the limit is left open, as is a malformed workload label, which the code spares.
- Expressions.EvalStable: covers literals, variables, context fields, concatenation and conditionals; expressions that inspect the whole variable map or use `index` are not stable and are excluded.
- Resolver.GatherSorts: the regular expression library and template parser are parameters; integers have no width, so no text is out of range.
- Render.SecretsDoNotInterfere: leaves out kustomize sources; the template parser and the YAML splitter are parameters.
- Render.PlainTreeUnchanged: floats, booleans and null are all the one scalar kind.
- Text.SlugIsSlugged: folds ASCII letters only, as does the environment name of a secret.
- Ring.RingBuffer.Snapshot: sorting is an insertion sort standing for the library's; what is used of it is only that it sorts.
- Grouping.Accumulate: sums are exact reals and integers, times are integer nanoseconds; rounding, overflow and time zones are not covered.
- Downsample.DownsampleRing: collecting the map and sorting by time are one step over sorted keys.
- Aggregate.RangeMetrics: takes the replicas' answers as given.
- Rates.Poller.Tick: the ring is present; a tick that races with Untrack finds none, or pushes to a dropped one, as Subscriptions shows.
- FanIn.TeardownFinishes: assumes upstream streams end when cancelled; the scanner's line limit, item contents and the 5 second and 30 second periods are left out.
- FanInMain.Hub.Resync: readers take no step while it runs; FanIn.ResyncSettles lets them. Identifiers always parse.
- EventBus.Bus.Publish: handlers neither publish nor subscribe.
- Workload Update and Restart, instance Update, Start, Stop, Suspend and health handling: transitions without further invariants.
- HTTP handlers, dashboard, authorisation, audit, quotas, secret storage, network selection and provider dispatch: plumbing or easy members.
