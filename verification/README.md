# basereconciler: a verified model

basereconciler keeps the resources of a Kubernetes custom resource in their desired state. This project
models its convergence engine, its reconciler and pruner, the lifecycle of the custom resource, the
health aggregation and the Service mutation, and proves what they guarantee.

- `json.dfy` (JsonTree): objects as JSON trees; get, set and delete along property paths. `Look` reads a
  tree as a function from locations to labels, and two trees with the same looks are equal; almost every
  fact about trees is stated through it.
- `engine.dfy` (Engine): `normalize` and the property loop on values. The loop's whole effect
  (`LoopMerges`), its frame, exactly when it fails; the comparison of typed objects, and exactly when the
  loop's result is a fixed point of it.
- `heap.dfy` (SharedTrees): the same loop in place, on maps in memory that the live and the desired tree
  come to share. It computes the same result and never touches the desired tree.
- `normalize.dfy` (NormalizeInPlace): `normalize` in place, where the result takes over maps of a temporary
  conversion and the deletes run inside them. Its value is the normalisation on values.
- `mergepatch.dfy` (MergePatch): the JSON merge patch behind Patch mode, against Update mode, and on a
  server copy that has moved on.
- `cluster.dfy` (Cluster): objects with metadata, templates, the decision for one template, and what one pass
  leaves.
- `settling.dfy` (Settling): exactly when one pass settles its object, so that the next one finds nothing to
  do, and inputs on which it does not.
- `runs.dfy` (Runs): whole runs as a transition system with failing calls; postconditions, exactly when the
  next run is quiet, tracker and orphan facts over histories.
- `reconciler.dfy` (Reconciler): the methods that update the cluster and the tracker, tied to Runs.
- `lifecycle.dfy` (Lifecycle): `ManageResourceLifecycle` as one run, and cut into its API calls and
  interleaved with users, failures and crashes; safety and no lost update over all of them, and exactly when
  undisturbed rounds end initialisation.
- `health.dfy` (Health): workload health, its recording and aggregation.
- `service.dfy` (ServiceValues): `SetServiceLiveValues`, and runs over the templates that use it.

Assumptions:

- Conversions between typed objects and unstructured maps are the identity on the trees modelled here,
  and objects already carry their apiVersion and kind.
- A property path follows object keys. Name and wildcard selectors have the meaning of sections 2.3.1
  and 2.3.2 of RFC 9535. Setting a path creates missing parents and fails through anything that is not
  an object; getting through anything that is not an object finds nothing; deleting what a path does not
  select changes nothing.
- Normalised objects are compared as typed objects, where some empty values read as none: an empty struct
  held by value, an empty map or list, a null where a list, map or pointer can be nil, a zero value in a field
  that is no pointer. Which ones depends on the kind's Go type; the model takes this as a parameter
  (`Blanks`), and `SameTyped` is the comparison.
- The loop and the writes work on trees: turning a normalised typed object back into a map neither adds nor
  drops anything.
- A template's build is a function of the object found at the template's key. Builds that read other objects
  are fixed functions here.
- The patch computed by `client.MergeFrom` is a JSON merge patch (section 2 of RFC 7396). The
  repository's README speaks of strategic merge patches; the code uses `MergeFrom`, and the model follows
  the code.
- The API server stores what it is sent, without defaulting. A failed call has no effect, and an object
  with finalizers survives a delete, marked.
- One worker; dynamic watches on where the tracker is concerned.

Four plain claims are false of the code, and the exact condition is proved instead.

- One write is not always enough. When a parent that the typed object holds by pointer has only ensured
  properties that are ignored too, its object is written again on every run: `OneWriteIsNotAlwaysEnough`
  gives a Deployment, `StrandedIsSentAgain` the decision, `FixedPoint` says when this happens. Where every
  such parent is a struct held by value, as `spec` is in the usual kinds, it does not.
- A patch does not always store what an update would: it loses every null that is new at a key path
  (`PatchIsUpdate`). In a field of raw JSON, such as free-form chart values, the patch is then sent again
  and again (`NullIsPatchedAgain`); where the null is a nil list or pointer, the loss does not show.
- The run after a successful one is not always quiet: `SecondRunIsQuiet` says exactly when it is. Besides the
  two causes above, a disabled template's object that lingers with finalizers is deleted again
  (`LingeringIsDeletedAgain`), and an ensured and not ignored `metadata.ownerReferences` makes the second run
  take the owner's reference away from the created object (`EnsuredRefsAreStripped`).
- An object whose template is gone is not always pruned: when the watch of its new type failed after the
  create, its type stays untracked (`FailedWatchLeavesOrphan`); `SurvivesIffUntracked` says exactly when
  an object survives.

## Model

| member | source | states |
|---|---|---|
| JsonTree.LookAfterSet | resource/property.go:87 | After a Set the value stands at the path, objects stand above it, every other location is as before. |
| JsonTree.SetSucceeds | resource/property.go:87-89 | A Set fails exactly for the root or when a present proper parent is not an object. |
| JsonTree.LookAfterDel | resource/create_or_modify.go:270-278 | A delete with names and inner wildcards removes exactly the locations the pattern hits, also inside arrays. |
| NormalizeInPlace.NormalizeObject | resource/create_or_modify.go:232-290 | Both loops in place, on maps shared with the conversion of the object: the value left is the normalisation of the object, errors included. |
| NormalizeInPlace.ProjectProperty | resource/create_or_modify.go:255-259 | Storing one ensured reference changes the target as on values and no map of the source, also when the store goes into a map of the source that the target shares. |
| NormalizeInPlace.OwnWayUnlessSame | resource/create_or_modify.go:249-259 | The set reaches a map of the source only where the very reference to be stored stands already. |
| NormalizeInPlace.DelInPlace | resource/create_or_modify.go:270-278 | A delete with names and wildcards inside shared maps leaves the tree that the delete on values gives. |
| Engine.LookNormalize | resource/create_or_modify.go:240-278 | Normalisation fails only for an ensured root; otherwise ignored locations are gone, covered ones are as in the source, parents of present ensured paths are objects, nothing else exists. |
| Engine.NormalizeOrderFree | resource/create_or_modify.go:244-278 | Order and repetition of the ensure and ignore lists do not matter. |
| Engine.NormalizeExtendedPath | resource/create_or_modify.go:244-265 | An ensured path below one already listed changes nothing. |
| Engine.NormalizeAgain | resource/create_or_modify.go:232-290 | Normalising twice differs from once only by stranded empty parents, and not at all exactly when there are none. |
| Engine.LoopMerges | resource/create_or_modify.go:205-209 | The whole effect of the property loop at every location, for ensured paths that repeat, overlap and come in any order. |
| Engine.LoopAgrees | resource/create_or_modify.go:205-209 | When the loop ends, live and normalised desired agree in presence and value at every ensured path, so no step undoes an earlier one. |
| Engine.LoopFrame | resource/property.go:68-104 | A location neither above nor below an ensured path keeps presence and value, also where parents were created. |
| Engine.LoopOrderFree | resource/create_or_modify.go:205-209 | Any two orders of the same properties that both succeed write the same tree. |
| Engine.LoopIdempotent | resource/create_or_modify.go:205-209 | Running the loop on its own result changes nothing. |
| Engine.LoopSucceeds | resource/create_or_modify.go:205-209 | The loop fails exactly when some property to be written has a live parent that is not an object and that no earlier property covers. |
| Engine.LookSecondRun | resource/create_or_modify.go:137-148 | What the next run compares: the normalised desired tree without the stranded parents. |
| Engine.FixedPoint | resource/create_or_modify.go:148-150 | After a write the next comparison is equal if and only if every parent that normalising the desired object strands is one the typed object does not show. |
| Engine.EqualTypedIsSameTyped | resource/create_or_modify.go:148 | The recursive comparison of two typed objects decides equality location by location, up to values that read as none. |
| Engine.MissingOrEmpty | resource/create_or_modify.go:148 | A member that only one side has, without members of its own, makes no difference exactly when it is an empty object or list, a null, an empty string, a zero or a false in a field that does not show such a value. |
| Engine.SameTypedTransitive | resource/create_or_modify.go:148 | That comparison is transitive. |
| Engine.SameTypedIsEquality | resource/create_or_modify.go:280-289 | Where nothing reads as none the typed comparison is equality of trees. |
| Engine.EnsuredNotIgnoredStrandsNothing | resource/create_or_modify.go:270-278 | Nothing is stranded when no ignored property is an ensured property or a parent of one. |
| Engine.StrandedWritesForever | resource/create_or_modify.go:148-164 | With a stranded parent that the typed object shows, every later run writes again, always the same object. |
| Engine.OneWriteIsNotAlwaysEnough | resource/create_or_modify.go:148-164 | A Deployment that ensures and ignores spec.strategy.rollingUpdate.maxSurge: a live Recreate object is sent unchanged on every run, whatever else reads as none. |
| Engine.UnmanagedEditsIgnored | resource/create_or_modify.go:137-148 | Two live objects that agree on ensured, not ignored locations and on which ensured paths are present normalise to the same tree, so other edits never change the decision. |
| SharedTrees.SetRef | resource/property.go:87 | Set in place: fails exactly when a present parent is not a map, else stores the reference, creates the parents, leaves the desired tree's maps alone. |
| SharedTrees.DelRef | resource/property.go:78 | Delete in place removes the path and nothing else. |
| SharedTrees.DeepEqual | resource/property.go:95 | Structural comparison in memory is equality of the trees denoted. |
| SharedTrees.ReconcileProperty | resource/property.go:50-107 | One property in place: same outcome and same live tree as on values, desired tree untouched although shared. |
| SharedTrees.OwnWayUnlessAgreed | resource/property.go:78-97 | While live and desired differ at a path, no map on the way to it belongs to the desired tree, so a write cannot reach shared maps. |
| SharedTrees.ReconcileProperties | resource/create_or_modify.go:204-211 | The loop in place computes the loop on values and no map of the desired tree changes, for overlapping properties in any order. |
| SharedTrees.ReconcilePropertiesToUnstructured | resource/create_or_modify.go:190-212 | From conversion to conversion, the in-place loop returns exactly the result of the loop on values. |
| MergePatch.LookPatched | resource/create_or_modify.go:166-182 | The whole effect of a patch on the object it was computed from, location by location: the new object without the nulls that are new at a key path. |
| MergePatch.PatchIsUpdate | resource/create_or_modify.go:155-184 | Applying the patch to the object it was computed from gives the new object if and only if the new object has no new null at a key path. |
| MergePatch.UpdateAndPatchAgree | resource/create_or_modify.go:155-184 | For a new object without null members, Update and Patch store the same. |
| MergePatch.LostByLoop | resource/create_or_modify.go:166-182 | The nulls a patch loses are exactly those that the normalised desired object has at or below an ensured path and the live object has not. |
| MergePatch.LoopKeepsNullsUnchanged | resource/create_or_modify.go:166-182 | Writing a null-free normalised desired tree never puts a null into the patch. |
| MergePatch.StalePatch | resource/create_or_modify.go:166-182 | A patch from a stale read, if the server still has what was read at the ensured paths: they get the normalised desired value exactly when the patch loses no null, and all later outside changes stay in any case. |
| Cluster.DeletedIsGoneOrMarked | resource/create_or_modify.go:114-121 | A deleted object stays exactly when its metadata lists finalizers, and then has a deletion timestamp. |
| Cluster.MarkKeepsRest | resource/create_or_modify.go:114-121 | A mark changes nothing but the deletion timestamp. |
| Cluster.CreatedObject | resource/create_or_modify.go:90-101 | A create is refused exactly when the first controller entry of the built object does not stand for the owner, or metadata or references are not of their type; else the stored object is as built but for its references: one is the owner's, with its kind, name and apiVersion, controller and blockOwnerDeletion true, no controller entry before it, and the others as built. |
| Cluster.StampedIsControlled | resource/create_or_modify.go:93 | A second owner is refused on the object created unless it has the first one's kind, name and API group; the owner's entry is the only controller exactly when no other entry of the build was one. |
| Cluster.MetadataMeaning | reconciler/pruner.go:38-42 | Ownership, deletion mark and finalizers, read member by member: an object is the owner's exactly when some reference has the owner's kind, name and apiVersion. |
| Cluster.ApiGroupMeaning | resource/create_or_modify.go:93 | The API group by which references are compared is what stands before the slash, nothing without a slash, undefined with several. |
| Cluster.ModifiedObject | resource/create_or_modify.go:148-187 | A written object is unchanged at unrelated key paths and has the normalised desired value at every ensured path, in Patch mode exactly when the patch loses no null. |
| Settling.StampSeen | resource/create_or_modify.go:93-148 | A created object compares equal to its desired object if and only if the owner reference is hidden, told from the built object and the two lists alone. |
| Settling.SecondPass | resource/create_or_modify.go:86-187 | The pass after a create, update, patch, delete or no write keeps the object without writing if and only if the first pass settles it: the owner reference hidden, no stranded parent and no lost null that the typed object shows, no finalizers on a deleted object. |
| Settling.SettlesByTemplate | resource/create_or_modify.go:86-187 | Conditions on the template and its build, and on finalizers where it is disabled, under which every pass settles. |
| Settling.UsualStampsAreHidden | resource/create_or_modify.go:93-148 | The owner reference is hidden when no ensured path reaches it, and when the references are ignored, also under an ensured metadata. |
| Settling.StrandedIsSentAgain | resource/create_or_modify.go:148-164 | A stranded parent that the typed object shows makes the next decision an update with the same object. |
| Settling.NullIsPatchedAgain | resource/create_or_modify.go:166-182 | A template that wants a null in raw JSON values: its patch drops the member, whatever stood there, and the next pass patches again. |
| Settling.LingeringIsDeletedAgain | resource/create_or_modify.go:111-121 | The object of a disabled template that has finalizers is marked, and every later pass deletes it again without effect. |
| Settling.ProtectedClaimLingers | resource/create_or_modify.go:111-121 | A volume claim in use is such an object: the second pass over it deletes again. |
| Settling.EnsuredRefsAreStripped | resource/create_or_modify.go:90-164 | A template that ensures the owner references of a build without any: the pass after the create takes the owner's reference away. |
| Reconciler.Controller.CreateOrModify | resource/create_or_modify.go:60-188 | Succeeds exactly when build, read, decision and write succeed; then the cluster and the write log change by that decision only, else nothing changes. |
| Reconciler.Controller.IsTypeTracked | reconciler/tracker.go:62-66 | Whether the type is in the list. |
| Reconciler.Controller.TrackType | reconciler/tracker.go:52-60 | Appends the type unless it is there. |
| Reconciler.Controller.IsPrunerEnabled | reconciler/pruner.go:63-76 | On unless it is off globally or the annotation is one of the six spellings of false, so also for an annotation that does not parse. |
| Runs.OrphanMeaning | reconciler/pruner.go:31-52 | What is pruned: unmanaged objects of tracked types in the owner's namespace (any, if it has none) with a reference to the owner's kind, name and apiVersion, and not marked for deletion. |
| Reconciler.Controller.PruneOrphaned | reconciler/pruner.go:17-61 | Fails exactly when a list or a delete of an orphan fails; on success exactly the orphans are deleted, on failure some of them, never anything else. An owner without a namespace lists all namespaces. |
| Reconciler.Controller.ReconcileOwnedResources | reconciler/reconciler.go:297-341 | The run with its loops is one step of the transition system, for every combination of failing calls. |
| Runs.RunKeepsTracker | reconciler/reconciler.go:308-340 | Every run, failing or not: tracked types only grow, without duplicates, one successful watch each; a run that does not fail asks for a requeue exactly when the tracker grew. |
| Runs.NewTypeWasWatched | reconciler/reconciler.go:313-325 | A type is new in the tracker after a run, failing or not, only if an enabled template of it got its watch registered. |
| Runs.SuccessfulRunTracks | reconciler/reconciler.go:308-325 | After a successful run the tracked types are exactly those of before and those of the enabled templates. |
| Runs.TemplatesFrame | reconciler/reconciler.go:303-327 | The template loop never touches an object no template names, with any failures. |
| Runs.TemplatesApply | reconciler/reconciler.go:303-327 | With distinct keys each object becomes what its own template's decision makes of the object found. |
| Runs.TemplatesManage | reconciler/reconciler.go:308-327 | After a successful loop the managed list is exactly the enabled keys, and their types are tracked. |
| Runs.TemplatesSucceed | reconciler/reconciler.go:303-327 | The loop over distinct keys succeeds if and only if, judged before the run, every build, read, decision and write succeeds and the watch of the first enabled template of each untracked type does. |
| Runs.RunFrame | reconciler/reconciler.go:297-341 | Every run, failing or half-pruned ones included, leaves alone each object that no template names, unless the pruner is on, its type is tracked or that of an enabled template, and it is in scope, not marked, and has a reference to this owner's kind, name and apiVersion. |
| Runs.SuccessfulRun | reconciler/reconciler.go:303-334 | After a successful run with the pruner on: enabled objects exist, disabled ones are gone or being deleted, every live owned object of a tracked type in scope belongs to an enabled template. |
| Runs.SuccessfulRunConverges | reconciler/reconciler.go:303-341 | After a successful run the object of each enabled template exists, and normalises to the same typed object as its desired object if and only if its pass settled it. |
| Runs.SecondRunIsQuiet | reconciler/reconciler.go:297-341 | From any cluster and tracker, for stable builds: the run after a successful one writes nothing, tracks nothing and returns Continue if and only if every pass of the first settled its object. |
| Runs.TrackerOverHistories | reconciler/tracker.go:52-83 | The tracker facts over every history of runs and outside changes. |
| Runs.NoOrphans | reconciler/pruner.go:25-58 | Once some run got past an enabled template for a key, even if it failed later, any later successful pruning run without it leaves no unmarked object in scope there with a reference to the owner's kind, name and apiVersion, even when no template of the type is left. |
| Runs.SurvivesIffUntracked | reconciler/pruner.go:25-58 | After a successful pruning run a live owned object without an enabled template is untouched if and only if no template names it and its type is neither tracked before the run nor that of an enabled template; otherwise it is gone or marked. |
| Runs.FailedWatchLeavesOrphan | reconciler/reconciler.go:316-323 | A create followed by a failed watch, then the template dropped: the object survives the next successful pruning run. |
| Lifecycle.CustomResource.ManageResourceLifecycle | reconciler/reconciler.go:178-239 | Object left, finalization calls made and result, for every combination of failures. |
| Lifecycle.CustomResource.IsInitialized | reconciler/reconciler.go:243-257 | Runs the chain in order up to an error; true exactly when the chain changes nothing. |
| Lifecycle.CustomResource.RunFinalization | reconciler/reconciler.go:276-285 | Calls the functions in order up to the first error. |
| Lifecycle.ChainAddsFinalizer | reconciler/reconciler.go:74-90 | Wherever the finalizer option stands, the chain's result carries the finalizer if no init function removes it. |
| Lifecycle.OneFinalizer | reconciler/reconciler.go:74-77 | With one finalizer name among the options, that one is remembered for removal. |
| Lifecycle.IdsCollected | reconciler/reconciler.go:94-96 | Every finalization function given as an option is kept, in option order. |
| Lifecycle.ChainFollowsOptions | reconciler/reconciler.go:74-108 | The chain makes d of an object exactly when the options one after the other do: an init function by its result, the finalizer by adding it at the end unless it is there. |
| Lifecycle.ChainFails | reconciler/reconciler.go:243-257 | The chain fails exactly when some init function fails on what the options before it made. |
| Lifecycle.DeletingRunResult | reconciler/reconciler.go:196-219 | A run over an object being deleted with the finalizer: the functions of the option list are called in order up to a failure; without a failure that finalizer and no other goes, with the last one the object, and the result is Return; with one the object stays and the result is an error. |
| Lifecycle.OtherRunResult | reconciler/reconciler.go:186-238 | Every other run calls no finalization function; what a live object becomes is told from the option list, with the result Error, Requeue or Continue in each case. |
| Lifecycle.ContinueMeansInitialised | reconciler/reconciler.go:221-238 | Continue implies the stored object is not being deleted, is unchanged by the whole chain and carries the finalizer. |
| Lifecycle.InitialisationEnds | reconciler/reconciler.go:221-232 | Of n undisturbed runs the last fails exactly when the n-fold chain fails, returns Continue exactly when the n-fold and the (n-1)-fold chain agree, and else asks for a requeue. |
| Lifecycle.RoundsInitialise | reconciler/reconciler.go:178-239 | In the interleaving, n rounds in which nobody else moves reach Continue exactly when the powers of the chain have reached a fixed point by then. |
| Lifecycle.TwoRoundsInitialise | reconciler/reconciler.go:221-238 | A chain that changes nothing on its own result is through after two rounds, with the finalizer in place. |
| Lifecycle.StepKeepsInv | reconciler/reconciler.go:178-239 | Every step of the interleaving keeps the lifecycle invariant. |
| Lifecycle.NeverGoneUnfinalized | reconciler/reconciler.go:196-219 | After some Continue the object or its finalizer is gone only if one run called every finalization function of the option list, in the order of the options and each with success, before its update; across all interleavings of users, failures, refused updates, crashes, and init functions that compute anything as long as they keep the finalizer. |
| Lifecycle.NoLostUpdates | reconciler/reconciler.go:206-229 | Over all those interleavings an update of the controller changes the stored object only while that is the object the run has read. |
| Lifecycle.EditWins | reconciler/reconciler.go:206-229 | An edit between a read and its update is stored and stays. |
| Lifecycle.CrashRecovers | reconciler/reconciler.go:178-239 | After a crash anywhere the next undisturbed run does all that a run from there does. |
| Lifecycle.DeletionCompletes | reconciler/reconciler.go:196-219 | A delete and one undisturbed round make an object go whose only finalizer is the controller's. |
| Lifecycle.RunOnceIsAnInterleaving | reconciler/reconciler.go:178-239 | The undisturbed run is one of these interleavings, and an allowed one, so the safety result covers it. |
| Health.HealthIsWorse | reconciler/health.go:158-170 | The loop compares positions in the health order; unlisted codes count as healthiest. |
| Health.RankIsPosition | reconciler/health.go:148-155 | The rank of each listed code is its position. |
| Health.RankOfCode | reconciler/health.go:148-155 | Healthy, Suspended, Progressing, Missing, Degraded, Unknown rank from 0 to 5, any other code 0. |
| Health.GetDeploymentCondition | reconciler/health.go:83-92 | The condition at the first position with the type, or none if no condition has it. |
| Health.DeploymentCodeMeaning | reconciler/health.go:35-81 | Which deployments are Suspended, Degraded, Healthy and Progressing, as exclusive conditions on their fields and their first condition of type Progressing. |
| Health.DeploymentMessageMeaning | reconciler/health.go:35-81 | Which message, with which numbers, for which deployment. |
| Health.StatefulSetCodeMeaning | reconciler/health.go:94-145 | A statefulset is healthy exactly when observed, ready and past its strategy's check, else progressing. |
| Health.StatefulSetMessageMeaning | reconciler/health.go:94-145 | Which message, with which numbers, for which statefulset and strategy. |
| Health.Sub32Wraps | reconciler/health.go:94-145 | The 32-bit differences in conditions and messages: right up to a multiple of 2^32, and exact in range. |
| Health.AppStatus.SetWorkloadHealth | reconciler/status.go:185-229 | Stores the observed health and worsens the aggregate if it ranks worse. |
| Health.AppStatus.ReconcileStatus | reconciler/status.go:77-164 | The loops record exactly what the recording function says, up to the first unreadable workload. |
| Health.DeploymentsRecorded | reconciler/status.go:116-139 | Every named deployment's status and health is stored, nothing else changes. |
| Health.StatefulSetsRecorded | reconciler/status.go:143-164 | The same for statefulsets. |
| Health.AggregateIsWorst | reconciler/status.go:106-164 | Succeeds exactly when every workload exists, and then the aggregate is the worst of all codes, whatever was stored before. |
| Health.AggregateByWorkloads | reconciler/status.go:106-164 | The aggregate without the ranking: Degraded if some deployment is past its deadline, else Progressing if some workload is rolling out, else Suspended if some deployment is paused, else Healthy. |
| Health.AggregateUntouched | reconciler/status.go:106-164 | A status without an aggregate keeps what stands there. |
| Health.AggregateOrderFree | reconciler/status.go:106-164 | Reordering or repeating workloads does not change the aggregate. |
| Health.HealthyMeansRolledOut | reconciler/status.go:219-225 | The aggregate is Healthy if and only if every deployment and statefulset is rolled out. |
| ServiceValues.FindLivePort | mutators/mutators.go:100-111 | The port at the first position with the same number and the same protocol, or none if there is none. |
| ServiceValues.Service.SetLiveValues | mutators/mutators.go:68-97 | The in-place loop gives the spec with the live values; a missing live object changes nothing. |
| ServiceValues.LiveValuesByField | mutators/mutators.go:80-94 | If live ports are distinct as pairs of number and protocol: addresses are the live ones, and for a type other than ClusterIP each port takes the node port of the live port with its number and protocol, or keeps its own; nothing else changes. |
| ServiceValues.LiveValuesGiveLiveSpec | mutators/mutators.go:80-94 | With live ports distinct as pairs of number and protocol, the mutated spec equals the live spec if and only if they differed in addresses, and node ports of a type other than ClusterIP, at most. |
| ServiceValues.LiveValuesIdempotent | mutators/mutators.go:80-94 | Mutating twice is mutating once. |
| ServiceValues.ServiceNeedsNoWrite | mutators/mutators.go:68-97 | Then the engine decides to keep the live Service, whatever properties of the spec are ensured and ignored, if what is ensured outside the spec looks as built. |
| ServiceValues.SpecRoundTrip | mutators/mutators.go:71-83 | Decoding an encoded spec, empty fields left out, gives it back. |
| ServiceValues.PortMembers | mutators/mutators.go:100-111 | A port as a document, member by member, empty ones left out. |
| ServiceValues.ServiceStable | mutators/mutators.go:80-94 | After any pass, in any mode, the mutation builds the same Service from the object left: the live values survive creates, updates and patches, if no ignored property hits them. |
| ServiceValues.ServiceRunIsQuiet | mutators/mutators.go:68-97 | After a successful run over Service templates with this mutation, in any mode and from any cluster, the next run is quiet if and only if every pass settled its object. |
| ServiceValues.TestServiceSettles | test/test_controller.go:129-145 | The Service template of the test controller settles in every pass. |

## Left out

- Preservation of ignored values during a write: the code does not promise it; when an ensured path is written, the ignored fields below it go.
- Minimal status writes: the code compares a pointer with a value, so it always sees a difference; the recorded values and the aggregate are modelled, not the update flag, the status mutators and the status write.
- Ensured paths with array indexes or wildcards, wildcards as the last step of an ignored path, and malformed paths: their effects are decided in the jp library, which is not part of this model. A key path selects at most one value, so the multi-valued error does not arise.
- Maps inside arrays: no ensured key path enters an array, so an array is one plain value in memory, and a delete inside it gives a new array.
- Conversions between typed and unstructured objects, defaulting, conflicts of owned resources, garbage collection, caches, REST mapping, event handlers, logging and the diff printer.
- An update that empties the finalizers of an owned resource that is being deleted: the API server would remove the object.
- The cross-namespace check of SetControllerReference, and the uid and resource version of references.
- A custom resource that is created again under the same name after it is gone.
- Stale reads of the custom resource, and more than one worker on the type tracker or on one custom resource.
- More than one finalizer name: only the last is remembered for removal.
- In-memory initialisation changes only the copy of the running reconcile; the model keeps whether it fails.
- Template options, builders, mutations other than the Service one, the global configuration and rollout triggers: inputs of the model.
- Runs.SecondRunIsQuiet: asks that the builds are stable, that is, that a build gives the same result on the object the first run left; ServiceValues.ServiceStable proves it for the Service mutation.
- ServiceValues.ServiceStable: asks that no ignored property hits a live value; where one does, a write may drop the live value, and the next build differs.
- Lifecycle.InitialisationEnds: takes the init chain as a function of the stored content; the safety result does not.
- MergePatch.StalePatch: speaks of key paths; a server copy whose parent of an ensured path became an array may lose elements of that array.
