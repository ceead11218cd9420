# Bouquet: a verified model of its two controllers

Bouquet runs two Kubernetes controllers that feed each other. The shoot controller reads the
addons a `Shoot` asks for, picks a manifest for each and creates one `AddonInstance` per addon,
pinned to the chosen version. The instance controller renders an instance's manifest and
creates the objects in the target cluster; when the instance is deleted it removes them again
and then takes its own finalizer, `bouquet`, off the instance.

The model has the code's own form. Loops, in-place sorting, the mutated cached instance and
the work queue are methods over arrays and classes; each is proved against a specification
function, and what the system promises is proved about those functions. The parts that run
concurrently are step systems (`WorkQueue`, `Reconciler`) over which the main results quantify
along every run, with any number of workers, any interleaving and any pattern of failed calls;
two lemmas (`RoundIsARun`, `ReconcileRefines`) show that the methods are runs of them.

| file | what it holds |
|---|---|
| `Cluster.dfy` | objects, identities, discovery, create and delete calls, one pass |
| `Passes.dfy` | what ensure and delete passes do under any faults; the ensure/delete round trip |
| `Convergence.dfy` | two passes always suffice, one does after the sort |
| `Strings.dfy`, `KindSorter.dfy` | byte order; the comparator and exactly where it is an order |
| `SortObjects.dfy`, `SortDeterminism.dfy`, `SortOrders.dfy` | the in-place sort, when its result is determined, the two orders |
| `Rendering.dfy` | decoding files in any order |
| `WorkQueue.dfy`, `RetryBound.dfy`, `WorkerLoop.dfy` | the queue, retry accounting, the worker loop |
| `Reconciler.dfy`, `ReconcilerFrames.dfy`, `ReconcilerInvariant.dfy`, `ReconcilerSafety.dfy` | the instance controller as a step system, what its steps leave alone, its invariant, cleanup safety |
| `LostUpdates.dfy` | what a failed Update of the finalizer leaves behind |
| `InstanceControl.dfy`, `ReconcilerRuns.dfy`, `ReconcileRefinement.dfy` | the controller's methods, and that they are runs of the step system |
| `Semver.dfy`, `SemverText.dfy`, `SemverGrammar.dfy` | semantic versions: parsing, printing, precedence, and the grammar that is parsed |
| `ManifestName.dfy`, `ManifestSelection.dfy`, `Pinning.dfy` | the name expression, the version scan, the pin between the controllers |
| `Shoot.dfy` | the shoot controller |

## Rules of the environment

- The server's versions of AddonInstances form a log; a version's place in it is its resource
  version. Update succeeds only on the current resource version. A deletion timestamp never
  clears, no finalizer can be added to an object that has one, and the object goes when its
  last finalizer does.
- The informer cache moves a key forward to any later version, in any jumps. The only other
  change to a cached object is the controller's own write to `instance.Finalizers`.
- Every call can be lost before it reaches the server (`Lost`) or after (`Late`); the caller
  sees an error both times. Statements about fault-free runs say so.
- Create fails for an object without a name, with NotFound if the namespace is absent, and with
  AlreadyExists for one that exists. Delete removes the object or answers NotFound; without a name its request goes to the
  whole collection.
- What an incarnation renders to is fixed, instances under different keys render to different
  identities, and nobody else creates a rendered identity in a target. Anyone may remove one.

## What the code does not promise

The statements below are where the obvious promise fails; each has a lemma with the failing
case and one that says exactly when the promise holds.

- The comparator is not transitive in general, because a kind missing from an order reads as
  rank 0 (`NamesSpoilTheOrder`). `ComparatorDomain` gives the exact condition, for every order
  and every collection.
- Even where the comparator is an order, the sorted kinds and names are not determined if an
  object of the order's first kind shares its name with an object of an unlisted kind
  (`SharedNameLeavesOpen`); `DeterminedIff` says that this is the only obstacle.
- A worker's check of the retry counter runs after `Done`, so several workers can pass it for one
  key. The counter can reach `maxRetries + W - 1` with `W` workers (`BoundIsReached`) and never
  more (`RetriesAreBounded`).
- `removeInstanceFinalizer` changes the cached instance before it asks the server. If that
  Update is lost, as it can be (`LostUpdateIsReachable`), retries find nothing to do
  (`LostUpdateIsNotRetried`); a failed Update leaves something to retry exactly when it was a
  conflict (`FailedUpdateStaysOpenIff`).
- A delete call for an object without a name takes strangers along
  (`UnnamedDeleteTakesStrangers`); a pass stays within the rendered identities exactly when
  every mappable object has a name (`NamedCoverageIff`).
- A pinned version is refused if it holds an `x`, since the range parser takes it for a wildcard
  (`PinWithXIsRefused`), and a pin to 0.0.0 can be shadowed by a malformed manifest name
  such as `foo-00.0.0`, which reads as 0.0.0 (`UnparsedShadowsZero`). `PinResolvesIff` says
  that a pin resolves to its manifest in every other case.
- A version with build metadata and no pre-release does not come back from a manifest's name
  (`BuildAloneIsLost`), nor does one that holds another version after a dash, such as
  1.0.0-1.2.3 (`InnerVersionIsTaken`, `InnerVersionShows`); `NameRoundTripIff` is exact.

## Model

| member | source | states |
|---|---|---|
| Passes.EveryObjectIsAttempted | pkg/controller/instance/instance_control.go:108-121 | each object is acted on at its own turn, on the target the earlier ones left, so no failure keeps a later object from being attempted |
| Passes.EnsureOnlyAdds | pkg/controller/instance/instance_control.go:116-120 | under any faults an ensure pass changes and removes nothing, and all it adds are rendered objects under their own identities |
| Passes.EnsureOnlyGrows | pkg/controller/instance/instance_control.go:109-121 | the same from every intermediate target of the pass to its end |
| Passes.EnsureReturnsNilIff | pkg/controller/instance/instance_control.go:100-124 | an ensure pass returns nil iff every object is mapped, named, answered and had its namespace in time; each object without an error is present with its namespace |
| Passes.SuccessMeansAllThere | pkg/controller/instance/instance_control.go:108-123 | after an ensure pass without error every object is present with its namespace |
| Passes.EnsureIsIdempotent | pkg/controller/instance/instance_control.go:117-119 | after a successful pass, a further fault-free pass over any of the same objects succeeds and changes nothing |
| Passes.DeleteRemovesExactly | pkg/controller/instance/instance_control.go:135-149 | under any faults a delete pass removes exactly the identities an effective call addressed, and returns nil iff every object was mapped and answered |
| Passes.PassKeepsTheRest | pkg/controller/instance/instance_control.go:77-98 | frame: at no point of a pass is an identity touched that none of its objects addresses |
| Passes.DeleteUndoesEnsure | pkg/controller/instance/instance_control.go:100-150 | round trip: after any ensure pass, an error-free delete pass over the same objects, reordered and with duplicates and default-namespace aliases, leaves the initial target minus what they address |
| Passes.NamedCoverageIff | pkg/controller/instance/instance_control.go:143 | the addressed identities are the rendered ones exactly when every mappable object has a name |
| Passes.UnnamedDeleteTakesStrangers | vendor/k8s.io/client-go/dynamic/simple.go:158-169 | counterexample: deleting an unnamed object reports no error and removes an object that was never rendered |
| Passes.EnsuredWhere | pkg/controller/instance/instance_control.go:83-97 | an object without an error stands under its own group, kind, namespace and name in the target's cluster, "default" standing for an unset namespace, and that namespace is there; a cluster-scoped one stands under no namespace |
| Passes.UnsetMeansDefault | pkg/controller/instance/instance_control.go:93-96 | every call for an object with its namespace unset does what the call for the one in "default" does |
| Passes.SameIdentityIff | pkg/controller/instance/instance_control.go:83-97 | two mapped objects get one identity iff group, kind, name and scope agree, and for namespaced ones the namespaces up to "" and "default" |
| Convergence.DiscoveryGrows | pkg/controller/instance/instance_control.go:58-63 | a target that keeps its objects keeps its discovered kinds |
| Convergence.DiscoveredIff | pkg/controller/instance/instance_control.go:58-63 | a kind is known iff it is built in or a custom resource definition in the target's own cluster serves it |
| Convergence.ReadyGetsInstalled | pkg/controller/instance/instance_control.go:100-124 | an object whose kind and namespace are there is installed by one fault-free pass, wherever it stands in the list |
| Convergence.ProvidedBecomesReady | pkg/controller/instance/instance_control.go:58-66 | after a first fault-free pass every object whose namespace and kind are present or rendered is ready |
| Convergence.ReadyPassSucceeds | pkg/controller/instance/instance_control.go:100-124 | a fault-free pass over ready objects reports no error and leaves them all there |
| Convergence.TwoPassesSuffice | pkg/controller/instance/instance_control.go:58-66 | two-pass convergence in any two orders: the second pass reports no error and every object is present |
| Convergence.FirstPassMissesNewKinds | pkg/controller/instance/instance_control.go:110-114 | a pass fails, in every order, while the kind of one of its objects is not discovered yet |
| Convergence.NamespaceComesFirst | pkg/controller/instance/kind_sorter.go:23-49 | a rendered namespace is created before an object of a later kind has its turn |
| Convergence.InTimeWhenSorted | pkg/controller/instance/instance_control.go:106-121 | in a list sorted by the install order every needed namespace is there in time |
| Convergence.InstallOrderSuffices | pkg/controller/instance/instance_control.go:106-121 | one fault-free pass over the sorted list creates everything without error if all kinds are listed and mapped and every namespace exists or is rendered |
| Convergence.SortedPassConverges | pkg/controller/instance/instance_control.go:106-123 | the three results above hold of the pass over the objects as given, before the sort rearranges them |
| Strings.BeforeIsTotal | pkg/controller/instance/kind_sorter.go:113-115 | the string order is total and asymmetric |
| Strings.BeforeIff | pkg/controller/instance/kind_sorter.go:113-115 | it is the lexicographic order: the first difference decides |
| KindSorter.OrderingOfDistinct | pkg/controller/instance/kind_sorter.go:84-94 | the ordering of a duplicate-free order maps every kind to its position and knows no other kind |
| KindSorter.LessIsAsymmetric | pkg/controller/instance/kind_sorter.go:105-125 | the comparator never holds both ways |
| KindSorter.CutsIff | pkg/controller/instance/kind_sorter.go:105-125 | being a strict weak order is the same as negative transitivity |
| KindSorter.ComparatorDomain | pkg/controller/instance/kind_sorter.go:105-125 | exact domain, any order and any collection: the comparator is a strict weak order iff every first-kind name is below every unlisted kind's name (with a kind of higher rank present), or the first-kind names separate the unlisted kinds (without one) |
| KindSorter.NotBelowIff | pkg/controller/instance/kind_sorter.go:105-125 | the comparator by positions in a duplicate-free order: one kind by name, listed kinds by position and before unlisted ones, those by kind, and the first kind mixed with the unlisted ones by name |
| SortObjects.Sorter.Len | pkg/controller/instance/kind_sorter.go:101-103 | the number of objects |
| SortObjects.Sorter.Less | pkg/controller/instance/kind_sorter.go:105-125 | the method decides the comparator for two positions |
| SortObjects.Sorter.Swap | pkg/controller/instance/kind_sorter.go:127-129 | exchanges two positions of the shared array and nothing else |
| SortObjects.NewOrdering | pkg/controller/instance/kind_sorter.go:85-88 | the filling loop computes the specified ordering |
| SortObjects.Sort | pkg/controller/instance/kind_sorter.go:79-82 | a sort that uses only Len, Less and Swap always permutes, and sorts wherever the comparator is a strict weak order |
| SortObjects.SortInPlace | pkg/controller/instance/kind_sorter.go:79-82 | the same for the slice handed to SortObjects |
| SortDeterminism.SortedIsUnique | pkg/controller/instance/kind_sorter.go:79-125 | two sorted arrangements of the same objects agree where ties are equal |
| SortDeterminism.SortedFormExists | pkg/controller/instance/kind_sorter.go:79-125 | where the comparator is an order every list can be sorted |
| SortDeterminism.OrderingsHaveOneKindPerRank | pkg/controller/instance/kind_sorter.go:85-88 | in the ordering built from any order no two kinds share a rank |
| SortDeterminism.ClashDisagrees | pkg/controller/instance/kind_sorter.go:111-116 | a name shared by a first-kind object and one of an unlisted kind lets two sorted results differ in kinds and names |
| SortDeterminism.DeterminedIff | pkg/controller/instance/kind_sorter.go:105-125 | the sequence of kinds and names after the sort is determined iff no such name is shared |
| SortDeterminism.RankedMeansDetermined | pkg/controller/instance/kind_sorter.go:105-125 | with an object of a later listed kind present, being an order is enough |
| SortOrders.OrdersMirror | pkg/controller/instance/kind_sorter.go:23-77 | both orders list 25 kinds, and the uninstall order is the mirror of the install order but for Service |
| SortOrders.KindsAreDistinct | pkg/controller/instance/kind_sorter.go:23-77 | neither order lists a kind twice |
| SortOrders.ListedIsSortable | pkg/controller/instance/kind_sorter.go:105-125 | the comparator is a strict weak order on objects of listed kinds |
| SortOrders.UninstallMirrorsInstall | pkg/controller/instance/kind_sorter.go:23-77 | the two sorted lists order any two listed kinds oppositely, except Service against the eight workload kinds, which it precedes in both |
| SortOrders.DependenciesComeFirst | pkg/controller/instance/kind_sorter.go:23-49 | on install roles come before their bindings, storage classes before volumes and those before claims, and secrets, configuration and accounts before pods |
| SortOrders.NamespacesFrameTheRest | pkg/controller/instance/kind_sorter.go:23-77 | namespaces come before every other listed kind on install and after it on uninstall |
| SortOrders.OneKindByName | pkg/controller/instance/kind_sorter.go:111-116 | in a sorted list the objects of one kind stand in the order of their names |
| SortOrders.NamesSpoilTheOrder | pkg/controller/instance/kind_sorter.go:105-125 | counterexample: Namespace "b", any Secret and an unlisted Widget "a" go round in a circle under the install order |
| SortOrders.SharedNameLeavesOpen | pkg/controller/instance/kind_sorter.go:111-116 | counterexample: Namespace "a" and Widget "a" can be sorted, but not in one way only |
| Rendering.ObjectsCount | pkg/controller/instance/manifest.go:47-61 | every object comes out as often as it stands in the file |
| Rendering.ObjectsStand | pkg/controller/instance/manifest.go:47-61 | and in the order of the file |
| Rendering.ParseObjects | pkg/controller/instance/manifest.go:43-64 | fails iff a document is unreadable, and else yields exactly the objects of the documents, each as often and in the same order, empty documents skipped |
| Rendering.GatherYields | pkg/controller/instance/manifest.go:66-78 | visiting the files yields the objects of all their documents, file after file |
| Rendering.ParseMappedFileContents | pkg/controller/instance/manifest.go:66-78 | fails iff a file has an unreadable document, and else yields exactly the objects of all documents in visiting order |
| Rendering.GatherWithout | pkg/controller/instance/manifest.go:68-75 | taking a file out of the visit takes its objects out of the result |
| Rendering.GatherCounts | pkg/controller/instance/manifest.go:66-78 | any two visiting orders give the same multiset of objects |
| Rendering.RenderingIgnoresOrder | pkg/controller/instance/manifest.go:66-78 | hence the same multiset and the same set, on which sortability depends |
| Rendering.SortedRenderingIgnoresOrder | pkg/controller/instance/kind_sorter.go:79-125 | after the sort any two visiting orders give the same sequence of kinds and names, under the exact conditions above |
| WorkQueue.InvStep | vendor/k8s.io/client-go/util/workqueue/queue.go:87-157 | every step keeps: queued items are distinct and are the dirty ones nobody processes; what is processed is held by exactly one worker |
| WorkQueue.InvOfRun | vendor/k8s.io/client-go/util/workqueue/queue.go:87-157 | so it holds in every reachable state |
| WorkQueue.OneSyncPerItem | pkg/controller/instance/instance.go:128-151 | at most one worker is inside the sync of a key, along any run |
| WorkQueue.AddedIsPending | vendor/k8s.io/client-go/util/workqueue/queue.go:87-157 | no event is lost: a key added before the shutdown, even during its own sync, is queued or will be requeued by its worker until it is taken again |
| WorkQueue.ShutDownForGood | vendor/k8s.io/client-go/util/workqueue/delaying_queue.go:142-146 | after the shutdown nothing new is queued or delayed |
| RetryBound.StepBudget | pkg/controller/instance/instance.go:153-160 | per step, counter plus workers past the check grows only by a check below the limit |
| RetryBound.CounterStep | pkg/controller/instance/instance.go:137-160 | per step, the counter moves only by a requeue or a Forget |
| RetryBound.RetriesAreBounded | pkg/controller/instance/instance.go:128-163 | with W workers counter plus workers past the check is at most maxRetries + W - 1 in every reachable state |
| RetryBound.BoundIsReached | pkg/controller/instance/instance.go:134-160 | for every W and every string key some run drives the counter to that bound |
| RetryBound.CounterIsRequeuesSinceForget | pkg/controller/instance/instance.go:148-160 | in every run the counter is the number of requeues since the last Forget |
| RetryBound.ExhaustedBudget | pkg/controller/instance/instance.go:154-159 | once the counter is at the limit only workers already past the check requeue, until a Forget |
| RetryBound.ExhaustedAlone | pkg/controller/shoot/shoot.go:138-145 | with one worker no requeue at all until a sync succeeds |
| WorkerLoop.RateLimitingQueue.Add | vendor/k8s.io/client-go/util/workqueue/queue.go:87-108 | the queue object's whole new state |
| WorkerLoop.RateLimitingQueue.Get | vendor/k8s.io/client-go/util/workqueue/queue.go:120-141 | hands out the first waiting item, or reports the shutdown |
| WorkerLoop.RateLimitingQueue.Done | vendor/k8s.io/client-go/util/workqueue/queue.go:144-157 | ends processing and queues a dirty item again |
| WorkerLoop.RateLimitingQueue.AddRateLimited | vendor/k8s.io/client-go/util/workqueue/rate_limitting_queue.go:59-61 | counts the failure and hands the item to the delay, unless shut down |
| WorkerLoop.RateLimitingQueue.Forget | vendor/k8s.io/client-go/util/workqueue/rate_limitting_queue.go:67-69 | clears the counter |
| WorkerLoop.ProcessNextWorkItem | pkg/controller/instance/instance.go:128-163 | one round of the loop: its calls in their order, with Done before the counter is read, and the whole new queue; after a success the item is forgotten, not waiting and not delayed |
| WorkerLoop.RoundIsARun | pkg/controller/shoot/shoot.go:113-148 | an undisturbed round is a run of the step system, whatever the other workers are at, of the steps for a success iff the sync succeeded or the item is no key, and else of those for a failure with its counter |
| WorkerLoop.SuccessLeavesNothing | pkg/controller/instance/instance.go:137-151 | after a success, or an item that is no key, the item is out of the queue and its failures are forgotten, and nothing else changed |
| WorkerLoop.FailureComesBackIff | pkg/controller/instance/instance.go:153-160 | after a failed round the key is delayed for another attempt iff its counter was below the limit, and otherwise nothing of it is left in the queue |
| ReconcilerInvariant.OneSyncPerKey | pkg/controller/instance/instance.go:128-151 | at most one worker reconciles a key |
| ReconcilerFrames.CacheMoves | pkg/controller/instance/instance_control.go:153-155 | the cache moves only by the informer and by the write to the object a worker was given |
| ReconcilerFrames.InsideFrame | pkg/controller/instance/instance_control.go:164-210 | a worker's step changes its own sync alone, and only an Update records a finalization |
| ReconcilerFrames.EndFrame | pkg/controller/instance/instance.go:144-151 | a sync that ends is forgotten if it succeeded and a failure if not |
| ReconcilerInvariant.WriteKeepsInv | pkg/controller/instance/instance_control.go:157 | every write on the server keeps the invariant, the worker's Update included |
| ReconcilerInvariant.CacheAdvancedKeepsInv | pkg/controller/instance/instance.go:172-180 | so does every jump of the cache |
| ReconcilerInvariant.CalledKeepsInv | pkg/controller/instance/instance_control.go:109-147 | so does every call against a target, lost or not |
| ReconcilerInvariant.TakeFinalizerKeepsInv | pkg/controller/instance/instance_control.go:153-155 | so does the write to the cached object |
| ReconcilerInvariant.UpdateIsAWrite | pkg/controller/instance/instance_control.go:152-158 | an accepted Update writes the server's own copy minus the one finalizer |
| ReconcilerInvariant.OneSyncPerIncarnation | pkg/controller/instance/instance.go:128-151 | at most one worker is on an incarnation |
| ReconcilerInvariant.UpdateSentKeepsInv | pkg/controller/instance/instance_control.go:157-161 | every reply to the Update keeps the invariant |
| ReconcilerInvariant.NextKeepsInv | pkg/controller/instance/instance_control.go:164-210 | every step of users, server, cache, queue and workers keeps the invariant |
| ReconcilerInvariant.InvOfRun | pkg/controller/instance/instance_control.go:164-210 | so it holds in every reachable state |
| ReconcilerSafety.FinalizingIsClean | pkg/controller/instance/instance_control.go:191-196 | a worker about to send the Update has a target without any rendered object of its incarnation, which nobody has finalized |
| ReconcilerSafety.FinalizingStep | pkg/controller/instance/instance_control.go:152-162 | the accepted Update takes `bouquet` from a deleted instance and keeps every other finalizer |
| ReconcilerSafety.AdditionsAreOwnCalls | pkg/controller/instance/instance_control.go:117 | whatever appears under an instance's identities was created by a call for that instance's key |
| ReconcilerSafety.LeftAloneAfterwards | pkg/controller/instance/instance_control.go:184-187 | after finalization no pass is started and no call made for the incarnation, and its identities return only through another incarnation of the key |
| ReconcilerSafety.CleanupIsSafe | pkg/controller/instance/instance_control.go:164-204 | cleanup safety over whole runs: the target is clean when the finalizer goes, and the incarnation is left alone ever after |
| ReconcilerSafety.FinalizedAtMostOnce | pkg/controller/instance/instance_control.go:184-204 | at most one finalizer-removing Update succeeds per incarnation |
| LostUpdates.LostUpdateIsNotRetried | pkg/controller/instance/instance_control.go:153-187 | after a lost Update the server keeps the finalizer, and no call or Update is made for the key until the cache moves |
| LostUpdates.UntouchedInRun | pkg/controller/instance/instance_control.go:155 | a cached version newer than the one a worker holds is as the server logged it |
| LostUpdates.FailedUpdateStaysOpenIff | pkg/controller/instance/instance_control.go:152-162 | when an Update fails and the finalizer stays, the cache shows or can reach a version with work left, without another writer, iff the Update was a conflict |
| InstanceControl.EnsureAddonInstanceObjects | pkg/controller/instance/instance_control.go:100-124 | sorts the slice in place, leaves the target and the errors of the pass over it, or reports the missing connection; without faults, installable objects are all there with no error, provided ones are ready for the next pass, and ready ones are all there with no error |
| InstanceControl.DeleteAddonInstanceObjects | pkg/controller/instance/instance_control.go:126-150 | the same for the delete pass in uninstall order |
| InstanceControl.SendAll | pkg/controller/instance/instance_control.go:108-123 | the loop of both passes: the pass over the objects in their order, and the accumulated error |
| InstanceControl.Failures | pkg/controller/instance/instance_control.go:108-123 | the accumulated error holds every outcome that is not fine, and is empty iff there is none |
| InstanceControl.Server.Update | pkg/controller/instance/instance_control.go:157-160 | a new version is stored iff the resource version is current and the call arrives |
| InstanceControl.UnsortedList | pkg/controller/instance/instance_control.go:155 | every element of the set once |
| InstanceControl.RemoveInstanceFinalizer | pkg/controller/instance/instance_control.go:152-162 | the cached instance loses the finalizer whatever the server answers, other finalizers are kept once each, and NotFound counts as success |
| InstanceControl.RenderManifest | pkg/controller/instance/instance_control.go:164-182 | nothing without a matching manifest, a source or readable files, and else the objects of every document of the selected manifest; a pin without an `x` and without an earlier alias renders the manifest it was written for |
| InstanceControl.ReconcileRendered | pkg/controller/instance/instance_control.go:184-209 | the effect of a reconcile once the objects are rendered: they are sorted by the order of the verb before the pass, and without faults a live instance's objects converge |
| InstanceControl.ReconciledCleansUp | pkg/controller/instance/instance_control.go:184-204 | the server's history moves only if the finalizer of a deleted instance goes, alone, at the current version, with every rendered object gone from the target |
| InstanceControl.ReconciledFinishes | pkg/controller/instance/instance_control.go:184-204 | without faults a deleted instance with mapped objects loses the finalizer, unless the server holds another version |
| InstanceControl.ReconcileObjects | pkg/controller/instance/instance_control.go:184-209 | all of this, from the list of rendered objects |
| InstanceControl.Reconcile | pkg/controller/instance/instance_control.go:164-212 | the whole effect of one reconcile on target, server, cached instance and result, from the manifest its reference selects: sorted before the pass, convergent for a live instance, cleaning up for a deleted one, and an error with nothing changed if there is nothing to render |
| ReconcilerRuns.PassIsARun | pkg/controller/instance/instance_control.go:109-121 | an undisturbed pass is a run of the step system, call by call |
| ReconcilerRuns.ReconcileIsARun | pkg/controller/instance/instance_control.go:184-209 | so is a reconcile up to the Update of the finalizer |
| ReconcileRefinement.UpdateRefines | pkg/controller/instance/instance_control.go:157-161 | the Update of the method is the Update step of the system |
| ReconcileRefinement.ReconcileRefines | pkg/controller/instance/instance_control.go:164-212 | the method refines the step system: its effect, on every path and under any faults, is that of a run of one worker |
| ReconcilerRuns.FinalizationIsReachable | pkg/controller/instance/instance_control.go:184-204 | whatever mappable objects an incarnation renders, some run does take its finalizer |
| ReconcilerRuns.LostUpdateIsReachable | pkg/controller/instance/instance_control.go:157-161 | and some run loses an Update that the server would have accepted |
| Semver.IdentsAreOrdered | vendor/github.com/blang/semver/semver.go:367-390 | identifier precedence is a total order |
| Semver.PrecedenceIsTotal | vendor/github.com/blang/semver/semver.go:113-162 | version precedence is antisymmetric up to build metadata, transitive and total |
| Semver.IdentLowerIff | vendor/github.com/blang/semver/semver.go:367-390 | identifiers compare as section 11 says: numbers by value, text by byte order, numbers below text |
| Semver.ListLowerIff | vendor/github.com/blang/semver/semver.go:132-161 | identifier lists compare at their first difference, and a longer list is higher |
| Semver.PrecedenceMeans | vendor/github.com/blang/semver/semver.go:113-162 | precedence is that of section 11 of Semantic Versioning 2.0.0, stated without the comparison function |
| SemverText.VersionRoundTrip | vendor/github.com/blang/semver/semver.go:33-62 | parsing a printed valid version gives it back |
| SemverText.StringRoundTrip | vendor/github.com/blang/semver/semver.go:227-313 | printing a parsed string gives it back, and what is parsed is valid |
| SemverText.NumbersRoundTrip | vendor/github.com/blang/semver/semver.go:239-259 | 64-bit numbers are read back from their decimal form |
| SemverGrammar.ParsesIff | vendor/github.com/blang/semver/semver.go:227-313 | exactly the strings of the grammar in sections 2, 9 and 10 of Semantic Versioning 2.0.0 parse, with numbers below 2^64 |
| SemverGrammar.ParsesTo | vendor/github.com/blang/semver/semver.go:227-313 | and they parse to the numbers, identifiers and build metadata they spell |
| ManifestName.VersionTailIff | pkg/apis/garden/v1alpha1/types.go:24 | the computed match is the expression's version group: three dotted numbers, then the end or a dash |
| ManifestName.LastTrue | pkg/apis/garden/v1alpha1/types.go:24 | the greedy group ends at the last dash from which the rest matches |
| ManifestName.CutFallsBetween | pkg/apis/garden/v1alpha1/types.go:65-71 | the cut falls between name and version iff the version matches and no dash inside it does |
| ManifestName.NameRoundTripIff | pkg/apis/garden/v1alpha1/types.go:65-78 | naming round trip, exactly: name and version come back iff no dash in the version starts another version and build metadata comes with a pre-release |
| ManifestName.NameEndsAtLast | pkg/apis/garden/v1alpha1/types.go:65-78 | the name ends at the last dash a version follows, and a version that does not parse counts as 0.0.0 |
| ManifestName.NoVersionNoName | pkg/apis/garden/v1alpha1/types.go:66-69 | a resource name no version follows, or with a newline, reads as the empty name and 0.0.0 |
| ManifestName.ReleasesRoundTrip | pkg/apis/garden/v1alpha1/types.go:65-78 | every release version qualifies under every newline-free name |
| ManifestName.InnerVersionIsTaken | pkg/apis/garden/v1alpha1/types.go:24 | a version that holds another after a dash does not come back, under any name |
| ManifestName.InnerVersionShows | pkg/apis/garden/v1alpha1/types.go:24 | 1.0.0-1.2.3 is such a version |
| ManifestName.BuildAloneIsLost | pkg/apis/garden/v1alpha1/types.go:24 | nor does a version with build metadata and no pre-release |
| ManifestName.WellFormedPrints | pkg/apis/garden/v1alpha1/types.go:65-78 | a well-formed name is its parsed name, a dash and its printed version |
| ManifestName.WellFormedNamesAreDistinct | pkg/apis/garden/v1alpha1/types.go:65-78 | two well-formed names never share name and version |
| ManifestSelection.FindManifestForRange | pkg/controller/common/manifest.go:23-40 | returns the first listed manifest of the greatest precedence among those with the name and in the range, and an error iff there is none |
| ManifestSelection.SelectedIsUnique | pkg/controller/common/manifest.go:27-35 | that position is unique |
| ManifestSelection.SelectedIff | pkg/controller/common/manifest.go:27-35 | the selected manifest has the name and is in the range, none that does has precedence over it, and none before it ties with it |
| ManifestSelection.NothingFitsIff | pkg/controller/common/manifest.go:36-38 | the error comes iff no listed manifest has the name and is in the range |
| ManifestSelection.NoVersionNoChoice | pkg/controller/common/manifest.go:28-30 | a manifest without a version in its name is never chosen for an addon that has one |
| ManifestSelection.TiedManifestsAreEqual | pkg/controller/common/manifest.go:30 | well-formed manifests of one name and equal precedence have the same resource name |
| ManifestSelection.SelectionIgnoresOrder | pkg/controller/common/manifest.go:23-40 | over one namespace with well-formed candidates the result does not depend on the listing's order |
| Pinning.PinnedVersionReadsBack | vendor/github.com/blang/semver/range.go:112-153 | a printed version is read as exactly that version, unless it holds an `x`, and then it is refused |
| Pinning.ExactIff | vendor/github.com/blang/semver/range.go:112-153 | the strings read as an exact version are the printed valid versions without an `x` |
| Pinning.PinIsFound | pkg/controller/instance/manifest.go:101-113 | whatever is found for a pin without an `x` and without an earlier alias is the manifest it was written for |
| Pinning.FindManifestByRef | pkg/controller/instance/manifest.go:101-113 | in the listing of the reference's namespace, an exact reference finds the manifest it resolves to, and nothing iff no manifest of the name compares equal; a pin finds its manifest; a bad range or listing is an error |
| Pinning.PinResolvesIff | pkg/controller/shoot/shoot_control.go:98-102 | cross-controller pinning, exactly: the reference written for a well-formed manifest resolves to it iff its version holds no `x` and no alias is listed before it |
| Pinning.AliasesAreMalformed | pkg/apis/garden/v1alpha1/types.go:72-75 | an alias is malformed, and only version 0.0.0 can have one |
| Pinning.PinSurvives | pkg/controller/instance/manifest.go:101-113 | any other pin without an `x` keeps resolving to its manifest whatever is added to the namespace, in any order |
| Pinning.PinWithXIsRefused | vendor/github.com/blang/semver/range.go:325-382 | counterexample under every name: version 1.0.0-x |
| Pinning.UnparsedShadowsZero | pkg/apis/garden/v1alpha1/types.go:72-75 | counterexample under every name: an unparsable version listed first shadows 0.0.0 |
| Pinning.DoubleZeroIsUnparsed | vendor/github.com/blang/semver/semver.go:242-244 | 00.0.0 is such a version |
| Shoot.SetSizeTellsDuplicates | pkg/controller/shoot/shoot_control.go:45-47 | comparing the size of the set with the list detects exactly the duplicates |
| Shoot.ExtractAddonManifests | pkg/controller/shoot/shoot_control.go:38-65 | on success one chosen manifest per annotated name, position by position; an error for a bad annotation, duplicates, or a name for which nothing is listed |
| Shoot.ChosenIsGreatest | pkg/controller/shoot/shoot_control.go:56-61 | the chosen manifest is listed, has the addon's name, and no listed manifest of that name, of any version, has precedence over it |
| Shoot.NothingChosenIff | pkg/controller/shoot/shoot_control.go:51-59 | nothing is chosen iff the lister fails or lists no manifest of the name |
| Shoot.Server.Create | pkg/controller/shoot/shoot_control.go:109-112 | an existing instance is kept, a new one stored if the call arrives |
| Shoot.CreateAll | pkg/controller/shoot/shoot_control.go:75-115 | a failed create does not stop the later ones |
| Shoot.EnsureAddons | pkg/controller/shoot/shoot_control.go:72-116 | tries every wanted instance, and succeeds iff no call failed |
| Shoot.Reconcile | pkg/controller/shoot/shoot_control.go:118-138 | a deleted shoot is left alone, a bad list of names or a name without manifest changes nothing and fails, and otherwise every wanted instance is tried, for manifests chosen position by position, with success iff no call failed; no existing instance ever changes |
| Shoot.EnsureAllOnlyAdds | pkg/controller/shoot/shoot_control.go:109-112 | existing instances are unchanged, added ones are wanted, and without faults all wanted ones exist |
| Shoot.AddedInstances | pkg/controller/shoot/shoot_control.go:78-107 | what is added carries the finalizer, its shoot as owner and target, and the pin of a given manifest |
| Shoot.AddedInstancesResolve | pkg/controller/shoot/shoot_control.go:97-102 | both controllers together, exactly: the instance added for an addon refers to the manifest chosen for that addon, and over any later listing of its namespace that still holds it the reference resolves to it iff its version holds no `x` and no alias is listed before it |
| Shoot.AddedAsWanted | pkg/controller/shoot/shoot_control.go:109-112 | with distinct keys, what is added under a key is what was wanted there |
| Shoot.LaterReconcilesChangeNothing | pkg/controller/shoot/shoot_control.go:109-112 | after a success, later reconciles for the same addons change no instance, whatever newer manifests are listed |
| Shoot.CollisionIff | pkg/controller/shoot/shoot_control.go:67-70 | two different pairs share an instance name iff one shoot name extends the other by a dash and a word and the addon names differ by the matching prefix |
| Shoot.NamesAreInjective | pkg/controller/shoot/shoot_control.go:67-70 | names are injective across shoots none of which is a dash-prefix of another |
| Shoot.InstancesOfAShootAreDistinct | pkg/controller/shoot/shoot_control.go:75-85 | the instances wanted for one shoot have pairwise different keys |

## Left out

- SortObjects.Sort: the algorithm of `sort.Sort` is not modelled; the sort here is an insertion sort through the same three methods, and only what any correct sort guarantees is stated.
- InstanceControl.Client.Send: objects whose deletion is delayed by their own finalizers, cascading deletion and generated names are not part of this model.
- Pinning.FindManifestByRef: ranges with operators, blanks or true wildcards are a parameter, since only exact versions are ever pinned.
- Rendering.ParseObjects: YAML decoding is opaque; a document is an object, empty or broken.
- ReconcilerSafety.CleanupIsSafe: a rendering that changes while the instance lives, identities shared between instances and outside creators are ruled out by the rules above.
- ReconcilerSafety.FinalizedAtMostOnce: process restarts and relists at an unchanged version, which could undo the write to the cached object, are not part of this model.
- Convergence.TwoPassesSuffice: a definition is served as soon as it is stored; the time the API server takes to establish it is not modelled.
- InstanceControl.Reconcile: Helm rendering, chart metadata, ConfigMap fetching and value merging are a parameter that gives each manifest its named files or an error; in the step system what an instance renders to is a fixed list of objects, or the step fails.
- Building the connection to a shoot's cluster, its kubeconfig and its client: one step that may fail and else yields the discovered kinds.
- Local targets with their cached mapper: in the step system every call may see any set of known kinds.
- Back-off times and the merging of delayed entries for one key in the delaying queue.
- Event handlers beyond adding a key, and the filter on annotated shoots: any key may be added at any time.
- The mutation of `instance.Finalizers` is stated as a set; the order in which the set is listed again is arbitrary, as in the source.
- JSON decoding of the annotation: a parameter.
- Start-up, signals, logging, error texts, Unicode beyond single characters, generated clients and deep copies: no hard property.
