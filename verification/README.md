# A verified model of the kcp ingress controller

The controller splits a *root* Ingress into one *leaf* Ingress per cluster its services run in, merges the leaves'
status back into the root, keeps a DNS record per leaf, and feeds a small Envoy control plane. This project models
that behaviour in Dafny and proves what it keeps over whole runs. `dafny verify dfyconfig.toml` checks everything.

| file | what it holds |
|---|---|
| Text.dfy, Model.dfy | texts, objects, keys and leaf names |
| Tracker.dfy | the two-way index between services and ingresses (`class Tracker`), and the relation it should agree with |
| Translator.dfy, Faithfulness.dfy | one ingress as Envoy configuration, and what that means to a request; what the rules mean, and when the two agree |
| EnvoyCache.dfy | the cache (`class Cache`) and its snapshot |
| ApiServer.dfy, Informer.dfy | the API calls the controller makes (`class Api`), and the informer's shared objects (`class Indexer`) |
| Planning.dfy, RootPass.dfy, Convergence.dfy | which leaves a root wants, the ordered writes of a root pass, and runs of passes |
| StoredLeaves.dfy | the leaves a root has in the store, by plan and by services and labels |
| StaleReads.dfy | runs of passes that read the root at any earlier version |
| LeafPass.dfy | aggregated status, advertised host, DNS record, and runs of DNS stages |
| RootReconciler.dfy, LeafReconciler.dfy | the two branches of `reconcile`, call by call |
| Queue.dfy, System.dfy, Serving.dfy | the work queue (`class Queue`), the controller as a step system with its run theorems, and what Envoy is served over its runs |
| Operation.dfy, JointRuns.dfy | one work item on values, step and API writes together, and runs of the controller together with the API |
| RecordRuns.dfy | the DNS records over such runs |
| Controller.dfy | `class Controller`: handlers and work loop, each proved to perform such steps and work items |

The source works in place, so the tracker, the cache, the queue, the API, the indexer and the controller are classes
with methods and loops. Each method is proved against a function or predicate on values, and the run theorems are
about those. Informer objects are references (`IngressRef`), so that "reconcile writes only to its own copies" is a
fact about the heap.

## Assumptions

- Create assigns a new uid and ignores status and deletion mark. Update keeps uid, status and deletion mark. Status
  changes only through UpdateStatus or the syncer. UpdateStatus and Update are refused when the version is not the stored one.
- The store is keyed by namespace and name, and all services are of the root's workspace: the model covers one workspace.
- A call fails by using up one of `Api.faults` (`Xds.faults` for the snapshot), which may be any number. A failed call may have been carried out with
  only its reply lost. A concurrent write that upsets a call in the middle of a pass shows as such a failure; all other
  outside changes fall between passes.
- What a rule means is taken from the Kubernetes Ingress documentation: a wildcard host stands for one label, an Exact path
  for itself, a Prefix path for whole path elements; an ImplementationSpecific path is left to the implementation and is
  a text prefix here. Rule hosts are empty, names, or names after "*.", as the API admits; request paths begin with '/'.
- An apply patch on a DNS record sets every field that is sent.
- The rate limiter is a counter per key: AddRateLimited adds one, Forget zeroes, NumRequeues reads.
- The informer's key text is `namespace/workspace#$#name`, the text the tracker and the Envoy cache use.
- A deletion that the informer missed is reported as client-go's `DeletedFinalStateUnknown`, from which the key
  function used here computes no key.
- One worker step (taking a key, processing it, handling the outcome) is atomic, and so is an informer's store change
  with its handler call. With the two workers interleaved freely, a leaf pass that read a root before its deletion can
  put it back into the Envoy cache.
- `rule.HTTP` and `Backend.Service` are present. With Envoy on, every Ingress in the indexer has a rule, because
  the advertised host reads the first one (pkg/reconciler/ingress/ingress.go:331).
- `net.LookupIP`, `xid` and the FNV hash are an arbitrary resolver, a parameter, and an arbitrary function on text.

## What does not hold, and exactly when it does

- *The tracker forgets a deleted ingress.* Line 43 of tracker.go replaces the service set at each newly tracked
  service, so only the last one is cleaned up. `ExactIffSingleAtDeletes`: the code agrees with the plain relation
  throughout a run if and only if no ingress is deleted while it tracks two services. It never loses a trigger
  (`NoTriggerLost`). The variant that extends an existing set is exact on all runs (`KeepingIsExact`).
  In Tracker.dfy `Run` always is the code and `RunKeeping` the variant.
- *Everything cached or tracked is live or queued.* A missed deletion reaches the handler without its object;
  its key cannot be computed and nothing is enqueued. `LiveOrQueuedIff`: the invariant holds throughout a run if and
  only if each such notice, in the state just before it, finds its key queued already or nothing remembered under it
  (`TombstoneExample` violates it).
- *A deleted ingress leaves the served configuration.* The result of SetSnapshot is ignored at
  pkg/reconciler/ingress/controller.go:182, so the deletion counts as done although its snapshot was not set.
  `DrainedServesTheLivingIff`: when the queue has run dry, nothing is served for a deleted ingress if and only if all that
  was cached when a snapshot last took effect is still there, and if and only if each deletion that found its ingress
  served and did not set its snapshot was followed by a step that did, or by the ingress's return.
  `DeletedRootStaysServed` is a run where it was not. `AlwaysCurrentIff` says when Envoy is served a snapshot of the cache
  throughout. A leaf pass does not ignore the error; it fails and is retried.
- *Envoy serves what the rules say.* The virtual host pools hosts and paths of all rules, ignores the path types
  (pkg/envoy/translator.go:55), and stops at the first rule without host or paths (pkg/envoy/translator.go:57-60), although
  a rule without a host is one for any host. `FaithfulIff`: the virtual host accepts exactly what all the rules accept if
  and only if (1) under each translated host, which is no wildcard, some rule with that host covers each translated path,
  as an ImplementationSpecific prefix of it or as a Prefix path whose form closed by '/' begins it, and (2) each path of
  each rule has a translated host that is no wildcard, and its shortest request has a translated prefix.
  `PooledExample`, `PathTypeExample`, `TrailingSeparatorExample`, `DroppedExample` and `WildcardExample` are ingresses
  that are not served as they say.
- *Leaves of different roots have different names.* `LeafNamesCollideIff` says when they can clash;
  `CollidingRootsExample` has one root taking over the leaf of another.
- *Roots of different namespaces keep to themselves.* Leaves are listed by the root's name alone, in all namespaces.
  `NamesakePassKeepsThePlanIff`: a completed pass of a root leaves the leaves of its namesake in another namespace in
  place if and only if it has all clusters of the namesake.
- *A host is assigned once.* With fresh reads it is (`FixedPoint`). When passes may read any earlier version of the root,
  `HostIsAssignedOnceIff`: the first stored host stays if and only if no later pass reads the root without a host. A pass
  that does generates another host and stores that one instead (`StaleReadExample`). The leaves follow what the pass read
  (`LeavesFollowTheRead`), and so lack the rules for the stored host.
- *A pass keeps its root.* `RootSurvivesIff`: unless the root is labelled as a leaf of its own name
  (`SelfOwnedRootExample`).
- *Advertised hosts are distinct.* `StatusHostsCoincideIff` says when two roots share one: both in the domain with one
  first host, both outside it with one hash, or one first host that is the other's hash under the domain. The hashed text
  has no separators (`JoinedNamesExample`), so that even a perfect hash tells roots apart only as far as their joined texts
  differ (`PerfectHashHostsCoincideIff`), and a host of the domain is advertised as it is (`SharedRuleHostExample`).
- *Up to 5 requeues* (comment at pkg/reconciler/ingress/controller.go:156). The enqueue that brings a key in is counted
  as well, so one enqueue gives five runs, which are four retries (`FiveRunsFromOneEnqueue`); a key that was enqueued
  five times in a row is dropped at its first failure (`RetriesAreBounded`).
- *The clean-up of DNS records happens in the next cycle* (comment at pkg/reconciler/ingress/ingress.go:69). A key that
  is gone from the indexer is processed without any API call. `RecordIsOrphanedIff`: the record of a removed leaf stays
  for good if and only if the last pass whose decision was carried out saw it staying, with a host and an entry
  (`OrphanedRecordExample`);
  `RemovedLeafKeepsItsRecordIff` says so of runs of the controller.

## Model

| member | source | states |
|---|---|---|
| Model.KeysAreDecodable | pkg/reconciler/ingress/tracker.go:66-72 | two objects with one key agree in namespace, workspace and name, when namespaces have no '/' and workspaces no '#' |
| Model.KeysTellObjectsApart | pkg/reconciler/ingress/tracker.go:66-72 | under the same conditions two ingresses, or two services, have one key iff their three parts agree |
| Model.LeafNamesAreDecodable | pkg/reconciler/ingress/ingress.go:284-285 | a leaf name determines root and cluster when root names have no "--" and no trailing '-' |
| Model.LeafNamesCollideIff | pkg/reconciler/ingress/ingress.go:268-285 | two root names can yield one leaf name, with clusters that are not empty, iff one, closed by "--", begins the other |
| Model.IngressRef.DeepCopy | pkg/reconciler/ingress/ingress.go:283 | an equal object that is new |
| ServiceTracker.Tracker.GetIngress | pkg/reconciler/ingress/tracker.go:26-31 | the list under the service key, and whether there is one |
| ServiceTracker.Tracker.Add | pkg/reconciler/ingress/tracker.go:33-45 | the new state of both maps: unchanged if tracked already, else appended and the reverse set replaced |
| ServiceTracker.Tracker.DeleteIngress | pkg/reconciler/ingress/tracker.go:47-64 | the new state of both maps, the same whatever order the services are visited in |
| ServiceTracker.NoTriggerLost | pkg/reconciler/ingress/tracker.go:33-64 | after every run of the code every pair of the plain relation is tracked |
| ServiceTracker.ExactIffSingleAtDeletes | pkg/reconciler/ingress/tracker.go:42-62 | the code equals the relation after every prefix of a run iff each deletion finds at most one service |
| ServiceTracker.KeepingIsExact | pkg/reconciler/ingress/tracker.go:42-44 | with the set kept instead of replaced, both directions of the index equal the relation on all runs |
| ServiceTracker.RunsAreWellFormed | pkg/reconciler/ingress/tracker.go:33-64 | after every run no list is empty or has a key twice, no reverse set is empty, and every reverse pair is backed by a forward entry |
| ServiceTracker.BackIsASingleton | pkg/reconciler/ingress/tracker.go:43-44 | after every run of the code no reverse set has two services |
| ServiceTracker.DeleteKeepsTheOthers | pkg/reconciler/ingress/tracker.go:51-62 | removal in place leaves all other ingresses of every list in place, in order, and all other reverse sets |
| ServiceTracker.StalePairExample | pkg/reconciler/ingress/tracker.go:43 | two services tracked, the ingress deleted: one pair stays although the relation is empty |
| Translator.TranslateIngress | pkg/envoy/translator.go:33-98 | one cluster and one virtual host; the cluster has an endpoint per entry in order, at its host name, else its IP, on port 80, unset iff it has neither |
| Translator.TranslationMeaning | pkg/envoy/translator.go:51-97 | the virtual host has exactly the domains and routes of the rules before the first one with nil paths or no host |
| Translator.RouteNamesTellTheRule | pkg/envoy/translator.go:65 | routes of an ingress are named alike iff they come from one rule |
| Translator.RoutingMeaning | pkg/envoy/translator.go:51-97 | a request is accepted iff some translated rule has its host, bare or with a port, and some translated rule has a prefix of its path; whichever route matches first, it goes to the ingress's own cluster |
| Faithfulness.FaithfulIff | pkg/envoy/translator.go:51-97 | the virtual host accepts exactly what all rules accept, by their hosts and path types, iff under each translated host a rule with that host covers each translated path and no path of any rule is missed |
| Faithfulness.PooledExample | pkg/envoy/translator.go:63-92 | rules a.com with /x and b.com with /y: a.com with /y is accepted although no rule does |
| Faithfulness.PathTypeExample | pkg/envoy/translator.go:55-70 | a.com with /x of type Exact or Prefix: a.com with /xy is accepted although no rule does |
| Faithfulness.TrailingSeparatorExample | pkg/envoy/translator.go:55-70 | a.com with /x/ of type Prefix: a.com with /x is refused although the rule accepts it |
| Faithfulness.WildcardExample | pkg/envoy/translator.go:89 | *.a.com: x.y.a.com is accepted although the rule means one label |
| Faithfulness.DroppedExample | pkg/envoy/translator.go:57-60 | a rule without a host first, a.com with /x after it: a.com with /x is refused although a rule accepts it |
| EnvoyCache.Cache.UpdateIngress | pkg/envoy/cache.go:37-42 | the cache holds the ingress under its key, all else as before |
| EnvoyCache.Cache.DeleteIngress | pkg/envoy/cache.go:44-48 | the key is gone, all else as before |
| EnvoyCache.Cache.ToEnvoySnapshot | pkg/envoy/cache.go:50-71 | the snapshot flattens the cache in some order of its keys |
| EnvoyCache.ContentsAreLastWrites | pkg/envoy/cache.go:37-48 | after any history the cache holds, per key, the last write that nothing followed, and nothing else |
| EnvoyCache.SnapshotAgrees | pkg/envoy/cache.go:50-85 | clusters and virtual hosts correspond one to one to the cached ingresses, names are distinct, every route leads to a cluster of the snapshot |
| EnvoyCache.SnapshotOfHistory | pkg/envoy/cache.go:37-71 | the same in terms of the history: exactly the last-written ingresses appear, for every walking order |
| Informer.Indexer.List | pkg/reconciler/ingress/ingress.go:52-56 | every indexed ingress with the root's label, from any namespace, once, in some order |
| Informer.ListingOfAMirrorIsFresh | pkg/reconciler/ingress/ingress.go:52-56 | a listing from an indexer that has caught up names exactly the stored leaves |
| Planning.ServiceNamesMeaning | pkg/reconciler/ingress/ingress.go:340-348 | a service is named iff some path of some rule sends traffic to it |
| Planning.ServiceNamesInOrder | pkg/reconciler/ingress/ingress.go:340-348 | names come rule by rule and path by path |
| Planning.FetchedMeaning | pkg/reconciler/ingress/ingress.go:338-351 | services are found iff all named ones exist, and then name by name in order |
| Planning.ServicesMeaning | pkg/reconciler/ingress/ingress.go:338-351 | fetching succeeds iff the service of every path of every rule is in the root's namespace, and yields exactly those |
| Planning.ClustersMeaning | pkg/reconciler/ingress/ingress.go:267-273 | a cluster is planned iff it is not empty and some fetched service is labelled with it |
| Planning.PlannedLeafMeaning | pkg/reconciler/ingress/ingress.go:283-305 | every field of a planned leaf: name, both labels, no owners, annotations, each rule once as it is and once for a generated host; it is a leaf iff the cluster is not empty |
| Planning.NonDesiredMeaning | pkg/reconciler/ingress/ingress.go:363-379 | a listed leaf is left over iff no desired leaf has its name |
| Planning.PlanIsConsistent | pkg/reconciler/ingress/ingress.go:281-308 | services in one cluster ask for one and the same leaf; all leaves are labelled with and named after the root |
| Planning.LeafServesTheRootAndTheGlobalHost | pkg/reconciler/ingress/ingress.go:296-305 | for any host matching, a leaf selects the root's backends in order, then all paths of all rules if the generated host matches |
| RootReconciler.GetServices | pkg/reconciler/ingress/ingress.go:338-351 | the services of all paths of all rules in order, and no others; none if one is missing or a call fails |
| RootReconciler.DesiredLeaves | pkg/reconciler/ingress/ingress.go:261-311 | new objects holding the planned leaves, in the root's namespace one key per cluster that a service named by the rules is labelled with; every fetched service tracked; nothing tracked if fetching fails |
| RootReconciler.NewLeaf | pkg/reconciler/ingress/ingress.go:283-305 | a new object with the leaf's name, labels, owners, version and doubled rules; the root object is only read |
| RootReconciler.PutLeaf | pkg/reconciler/ingress/ingress.go:79-96 | the leaf is created, or updated under the stored uid and status; on failure that or nothing was done |
| RootReconciler.FindNonDesiredLeaves | pkg/reconciler/ingress/ingress.go:363-379 | the listed leaves without a desired namesake, in order |
| RootReconciler.CarryOut | pkg/reconciler/ingress/ingress.go:67-98 | a prefix of deletes then puts is done, all of it on success; it stops only after a failed call or at a leftover that is not stored once |
| RootReconciler.AssignHost | pkg/reconciler/ingress/ingress.go:42-49 | without a host, or with an empty one, the stored root gets the generated one and changes in nothing else; with one nothing happens |
| RootReconciler.ReconcileRoot | pkg/reconciler/ingress/ingress.go:37-98 | host stage, then a prefix of the plan's writes, all of them on success; services tracked iff planning finished; it fails only after a failed call or for a stated reason |
| RootReconciler.CaughtUpPassIsHosted | pkg/reconciler/ingress/ingress.go:40-98 | a successful pass from an indexer that has caught up is a completed pass of the run theorems |
| RootReconciler.CaughtUpFailureIsCut | pkg/reconciler/ingress/ingress.go:40-98 | a pass that fails after planning, from such an indexer, is a cut pass of the run theorems |
| RootReconciler.OnlyFaultsStopACaughtUpPass | pkg/reconciler/ingress/ingress.go:37-98 | from an indexer that has caught up, with services present and a name that fits a label, no reason to fail is left but a failed call |
| RootPass.CutPassEntries | pkg/reconciler/ingress/ingress.go:67-98 | whatever the listing and wherever the pass is cut: a desired leaf is never deleted and keeps uid, status and deletion mark, a listed leftover is deleted or untouched, all else is untouched |
| RootPass.CompletedPass | pkg/reconciler/ingress/ingress.go:67-98 | a completed pass, however stale its listing, leaves every desired leaf with the desired content and no listed leftover |
| RootPass.DeletesComeFirst | pkg/reconciler/ingress/ingress.go:67-98 | in a pass cut anywhere, as long as a listed leftover stands, no desired leaf has been touched |
| StoredLeaves.DesiredMeaning | pkg/reconciler/ingress/ingress.go:261-311 | a key is planned iff it is in the root's namespace and is the leaf name of a cluster that a service named by the rules is labelled with |
| StoredLeaves.PlanIsWhatIsAsked | pkg/reconciler/ingress/ingress.go:261-311 | the store has exactly the plan iff it has, field by field, a leaf for each cluster of a service named by the rules and no other ingress labelled with the root |
| RootPass.FreshPassConverges | pkg/reconciler/ingress/ingress.go:51-98 | from any store, a completed pass with a fresh listing leaves exactly the desired leaves in the root's namespace, and elsewhere those leaves of that root name that share a desired name |
| Convergence.CrashTolerance | pkg/reconciler/ingress/ingress.go:40-98 | passes over the same leaves, cut anywhere, any number of times, from any listings, with hosts stored and statuses written between: a later completed pass ends with the leaves of one uninterrupted pass |
| Convergence.HistoryIsForgotten | pkg/reconciler/ingress/ingress.go:51-98 | completed fresh passes on any two stores leave the same leaves in the root's namespace |
| Convergence.DesiredLeafIsRetained | pkg/reconciler/ingress/ingress.go:86-92 | a leaf desired by every attempt is never deleted, keeps its uid, and has the status last written to it |
| Convergence.OtherRootsKeepTheirLeaves | pkg/reconciler/ingress/ingress.go:284-289 | a pass cut anywhere leaves the leaves of other plainly named roots as they are |
| Convergence.OtherPassLeavesAlone | pkg/reconciler/ingress/ingress.go:40-98 | a pass cut anywhere leaves another root's content alone, and adds or drops no leaf of it in its namespace, when both names are plain and different and neither root is labelled as a leaf of the other |
| Convergence.NamesakePassKeepsThePlanIff | pkg/reconciler/ingress/ingress.go:51-74 | for a root with a namesake in another namespace: a completed pass of the one leaves the other's leaves in place iff it has all the other's clusters |
| Convergence.CollidingRootsExample | pkg/reconciler/ingress/ingress.go:284-289 | root a with cluster b--c takes over the leaf of root a--b in cluster c |
| Convergence.FixedPoint | pkg/reconciler/ingress/ingress.go:40-98 | once a completed pass has read the root with its host, then and after every further pass, completed or cut anywhere from any listing: the host is fixed, the root's own if it had one, and the root has a leaf for each cluster of a service named by its rules, with each rule once as written and once for the host, and no other leaf |
| Convergence.TwoPassesSettle | pkg/reconciler/ingress/ingress.go:40-49 | two completed passes reach that point, whatever failed before and between them |
| Convergence.FirstPassOmitsTheGlobalRules | pkg/reconciler/ingress/ingress.go:353-361 | the pass that generates the host stores it on the root and plans every leaf without it |
| StaleReads.HostIsAssignedOnceIff | pkg/reconciler/ingress/ingress.go:40-49 | over every run of passes that read the root at any earlier version and are cut anywhere: the first stored host stays iff no later pass reads the root without a host |
| StaleReads.LeavesFollowTheRead | pkg/reconciler/ingress/ingress.go:51-98 | a completed pass leaves exactly the leaves of the version it read; they are those of the stored root iff the annotations agree or no service has a cluster |
| StaleReads.StaleReadExample | pkg/reconciler/ingress/ingress.go:40-49 | two passes that both read the root before its host: the second replaces the host of the first, and nothing else on the root changes |
| StaleReads.ReportIsABeat | pkg/reconciler/ingress/ingress.go:37-98 | every root pass whose indexer has some stored version of the root, and no leaf under the root's own key, is a beat of these runs |
| Convergence.RootSurvivesIff | pkg/reconciler/ingress/ingress.go:52-74 | a completed fresh pass keeps its root iff the root is not labelled as owned by its own name |
| Convergence.SelfOwnedRootExample | pkg/reconciler/ingress/ingress.go:52-74 | a root web labelled as owned by web: its completed pass deletes it |
| LeafPass.AggregateStatus | pkg/reconciler/ingress/ingress.go:172-177 | the entries of the listed leaves, leaf by leaf |
| LeafPass.AggregateConservesEntries | pkg/reconciler/ingress/ingress.go:172-177 | each entry appears as often as the leaves report it |
| LeafPass.AggregateIgnoresListingOrder | pkg/reconciler/ingress/ingress.go:172-177 | every listing order gives the same entries |
| LeafPass.GenerateStatusHost | pkg/reconciler/ingress/ingress.go:319-335 | the first rule's host if all hosts contain the domain, else the hashed host under the domain |
| LeafPass.StatusHostIsStable | pkg/reconciler/ingress/ingress.go:319-335 | the host contains the domain and does not depend on status, version or annotations |
| LeafPass.StatusHostsCoincideIff | pkg/reconciler/ingress/ingress.go:319-335 | two roots share a host iff both are in the domain with one first host, both outside it with one hash of the joined names, or the first host of one is the hash of the other under the domain |
| LeafPass.JoinedNamesExample | pkg/reconciler/ingress/ingress.go:334 | roots ab in c and a in bc, outside the domain, share a host whatever the hash |
| LeafPass.PerfectHashHostsCoincideIff | pkg/reconciler/ingress/ingress.go:334 | with an injective hash, two roots outside the domain share a host iff their joined texts are equal; equal texts mean one root iff names are of one length and namespaces too |
| LeafPass.SharedRuleHostExample | pkg/reconciler/ingress/ingress.go:319-331 | two roots with one host of the domain share it without a hash |
| LeafPass.GetDnsRecord | pkg/reconciler/ingress/ingress.go:211-259 | the record with the targets of all entries, or none if a name does not resolve |
| LeafPass.TargetsFollowTheEntries | pkg/reconciler/ingress/ingress.go:212-227 | targets of a status in two parts are the targets of the parts, in order, and fail if either does |
| LeafPass.TargetsOfOneEntry | pkg/reconciler/ingress/ingress.go:214-226 | the addresses its name resolves to, then its own IP, either only if there; failure iff there is a name that does not resolve |
| LeafPass.TargetsFailIff | pkg/reconciler/ingress/ingress.go:214-220 | there are no targets iff some entry has a name that does not resolve |
| LeafPass.VerdictMeaning | pkg/reconciler/ingress/ingress.go:137-170 | on the leaf's own fields: published iff it is not being deleted, its root has a host, it has an entry and all names resolve; and every field of the record |
| LeafPass.SyncRecord | pkg/reconciler/ingress/ingress.go:137-170 | on success the leaf has a record iff it is not being deleted, the root has a host and it has an entry, by create and by patch alike, with that host as DNS name; no other record changes; on failure that or nothing was done |
| LeafPass.RecordsAreLastObserved | pkg/reconciler/ingress/ingress.go:137-170 | after any run a leaf has a record iff its last pass whose decision was carried out saw it staying, with a host and an entry, and the record is the one for these |
| LeafPass.RecordIsOrphanedIff | pkg/reconciler/ingress/ingress.go:67-74 | the record of a removed leaf stays iff its last pass whose decision was carried out before the removal saw it staying, with a host and an entry |
| LeafPass.OrphanedRecordExample | pkg/reconciler/ingress/ingress.go:67-74 | a leaf admitted under x.hcp.dev and then removed: its record is still there, as it was |
| RecordRuns.RecordsFollowTheHistory | pkg/reconciler/ingress/ingress.go:137-170 | the records of a run of the controller are those of the history of its leaf passes and removals |
| RecordRuns.RemovedLeafKeepsItsRecordIff | pkg/reconciler/ingress/controller.go:176-187 | in a run of the controller: the record of a leaf that was removed and is not seen again is there at the end iff its last pass whose decision was carried out before the removal saw it staying, with a host and an entry |
| LeafReconciler.Publish | pkg/reconciler/ingress/ingress.go:180-185 | the root is cached, and a snapshot of the cache is served, or on an error possibly the old one still |
| LeafReconciler.WriteStatus | pkg/reconciler/ingress/ingress.go:194-205 | the status is written, or on a conflict the leaf is requeued and the pass succeeds |
| LeafReconciler.UpdateRoot | pkg/reconciler/ingress/ingress.go:172-205 | the cache gets the aggregated root, the API gets the advertised status, the indexed root is only read |
| LeafReconciler.FindRoot | pkg/reconciler/ingress/ingress.go:101-131 | the root under the owner label in the leaf's namespace and workspace, and all leaves with that label |
| LeafReconciler.ReconcileLeaf | pkg/reconciler/ingress/ingress.go:99-206 | until the DNS stage is passed at most the leaf's record changes; then record, cache, snapshot, status and queue are as the stages demand; a published snapshot has all endpoints of the root, even when the status write then fails; it fails only after a failed call or for a stated reason, and when it could not publish |
| LeafReconciler.SnapshotHasAllEndpoints | pkg/reconciler/ingress/ingress.go:172-185 | every snapshot of the cache that a leaf pass leaves has one cluster of the root, with one endpoint per entry of all listed leaves in order |
| LeafReconciler.AdvertisedIsOneHost | pkg/reconciler/ingress/ingress.go:186-192 | with Envoy on, the root's own status is one host, and it contains the domain |
| LeafReconciler.WrittenStatus | pkg/reconciler/ingress/ingress.go:172-205 | the root's stored status after a pass without conflict: without Envoy the entries of all listed leaves, each as often as reported and in order; with Envoy the first rule's host if all hosts contain the domain, and the hashed host as soon as one does not |
| LeafReconciler.SettledLeafIsExposedAsItShould | pkg/reconciler/ingress/ingress.go:131-170 | past the DNS stage the leaf has a record iff it is not being deleted, its root is annotated with a generated host that is not empty, and it has an entry; the record is for that host |
| WorkQueue.Queue.AddRateLimited | pkg/reconciler/ingress/controller.go:108-115 | the key waits and its counter is one higher |
| System.LiveOrQueuedIff | pkg/reconciler/ingress/controller.go:62-66 | in every state of a run all cached and reverse-tracked keys are indexed or queued, iff every deletion reported without its object was harmless |
| System.DrainedMeansClean | pkg/reconciler/ingress/controller.go:170-187 | when the queue has run dry no deleted ingress is cached or reverse-tracked |
| System.TombstoneExample | pkg/reconciler/ingress/controller.go:108-113 | a planned root whose deletion arrives without its object stays tracked, neither indexed nor queued |
| JointRuns.NoServiceChangeLost | pkg/reconciler/ingress/controller.go:207-219 | from a root pass that planned until the root's deletion is worked off, a change of the service of any path of any rule that the root had at that pass queues the root |
| JointRuns.BranchFollowsTheLabel | pkg/reconciler/ingress/ingress.go:40 | a work item is a leaf pass iff the ingress is labelled with a cluster that is not empty, and a root pass otherwise |
| JointRuns.PlannedLeafReachesItsRoot | pkg/reconciler/ingress/ingress.go:114-128 | a leaf with the fields of a planned one gets a leaf pass, which finds the root it was planned for or fails |
| JointRuns.WorldsAreARun | pkg/reconciler/ingress/controller.go:126-147 | the worlds of a run of work items and notices, taken with the API, are a valid run of the system |
| JointRuns.AggregatedRootIsServed | pkg/reconciler/ingress/ingress.go:172-185 | if changes are published, Envoy has one endpoint per entry of all leaves a leaf pass listed, until the root is cached anew or its deletion is worked off |
| JointRuns.WorkLoopConverges | pkg/reconciler/ingress/controller.go:132-204 | in any run in which root passes read a caught-up indexer, with passes of other plainly named roots, leaf passes, deletions, notices and failed calls anywhere: there is one host, the root's own or a generated one under the domain, such that from the root's second successful work item on it has that host and, field by field, a leaf for each cluster of a service named by its rules and no other |
| JointRuns.FailuresCostFaults | pkg/reconciler/ingress/ingress.go:37-98 | in such a run the root's work items fail at most as often as calls do |
| Serving.SnapshotOfBothIff | pkg/envoy/cache.go:50-71 | a snapshot of one cache is one of another iff both have the same keys and translate alike |
| Serving.AlwaysCurrentIff | pkg/reconciler/ingress/controller.go:178-183 | a snapshot of the cache is served in every state of a run iff each step that changed what the cache translates to set its snapshot with effect |
| Serving.ServedNames | pkg/reconciler/ingress/controller.go:176-187 | in every run from the start the names served are those that were cached when a snapshot last took effect |
| Serving.ServedIsAsLastPublished | pkg/envoy/cache.go:50-71 | in every run what is served is a snapshot of the cache as it was when a snapshot last took effect, whatever was lost before |
| Serving.DrainedServesTheLivingIff | pkg/reconciler/ingress/controller.go:176-187 | with tombstones harmless and the queue dry: nothing is served for a deleted ingress iff all that was cached at the last effective snapshot is still indexed, and iff no deletion of a served ingress was left with its snapshot unset |
| Serving.CachedRootIsServed | pkg/reconciler/ingress/ingress.go:180-185 | if changes are published, cluster and virtual host served under a root's name are those last cached, and no others, until the next caching or the deletion |
| Serving.DeletedRootStaysServed | pkg/reconciler/ingress/controller.go:182 | a five-step run: the deleted root is neither indexed, cached nor queued, and served still |
| System.RetriesAreBounded | pkg/reconciler/ingress/controller.go:149-168 | a key that only fails is run at most max(1, 6 - counter) times, its counter rising by one each time, and at that bound and only there it is dropped with counter zero |
| System.FiveRunsFromOneEnqueue | pkg/reconciler/ingress/controller.go:108-168 | after one enqueue a failing key is dropped exactly at its fifth run |
| System.ConflictsNeverDrop | pkg/reconciler/ingress/ingress.go:195-202 | a key whose runs end in status conflicts waits again after each, with counter zero |
| System.RunsKeepEnvoyKeyed | pkg/envoy/cache.go:37-48 | in every run the Envoy cache files each ingress under its own key |
| IngressController.Controller.Enqueue | pkg/reconciler/ingress/controller.go:108-115 | an object is enqueued under its key, a notice without an object is not |
| IngressController.Controller.OnChanged | pkg/reconciler/ingress/controller.go:62-65 | performs the step of an added or updated ingress |
| IngressController.Controller.OnDeleted | pkg/reconciler/ingress/controller.go:62-66 | performs the step of a deletion, with or without the object |
| IngressController.Controller.IngressesFromService | pkg/reconciler/ingress/controller.go:207-219 | performs the step that enqueues all ingresses tracked for the service |
| IngressController.Controller.HandleErr | pkg/reconciler/ingress/controller.go:149-168 | forgets on success, requeues below five, else drops |
| IngressController.Controller.ProcessGone | pkg/reconciler/ingress/controller.go:176-187 | cache and tracker lose the key; the snapshot of the rest is served if SetSnapshot takes effect, and the old one otherwise; the API is not touched |
| IngressController.Controller.ProcessLive | pkg/reconciler/ingress/controller.go:188-203 | one pass, after which the object given to it is unchanged, so the closing update is never issued |
| IngressController.Controller.ProcessNextWorkItem | pkg/reconciler/ingress/controller.go:132-147 | one work item iff a key waits: an enabled step of the system, and the API writes of the one root pass, leaf pass or none that the indexer asks for, the step's services, cached root, snapshot and conflict being those of that pass; else nothing changes |

## Left out

- The generated client code and `pkg/reconciler/dns`, whose reconcile is empty.
- The API server itself, watch streams, the xDS transport and the contents of TLS, default backend and class fields.
- Finalizers: a deletion here removes an ingress at once; the deletion mark that a leaf pass reads is set from outside.
- Go slice aliasing of the list that the tracker returns: it is a value here.
- Free interleaving of the two workers and of the locks inside tracker and cache: steps are atomic.
- Work queue timing, delays and the token bucket; resyncs are ordinary change notices.
- API version and the two flags of a DNS record's owner reference.
- Constant Envoy fields, listener and connection manager; distinctness of domains across virtual hosts, which the code does not enforce.
- A service notice without its object, on which the source's type assertion fails.
- FaithfulIff: takes some character to be in no path of the ingress; one whose paths use every character there is would not fit into an object of the API.
- RoutingMeaning: request hosts with a '*' are not covered, because no client sends one.
- CrashTolerance: is about attempts at the same leaves, with any contents; when the set of leaves changes between attempts, `FreshPassConverges` and `HistoryIsForgotten` cover the root's namespace.
- FixedPoint: takes the root as read fresh by every pass; `HostIsAssignedOnceIff` and `LeavesFollowTheRead` say what stale reads do.
- WorkLoopConverges: takes the services as unchanged; other roots have plain names that differ from the root's (`CollidingRootsExample` and `NamesakePassKeepsThePlanIff` say what happens otherwise).
