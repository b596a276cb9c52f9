/**
 The controller as a step system: informer notices, service notices and worked-off keys, one atomic step each.
 The methods of the controller perform these steps; the lemmas here are about every run of them.
 */
module System {
  import opened Wrappers
  import opened Model
  import opened ServiceTracker
  import opened WorkQueue
  import opened Translator
  import opened EnvoyCache

  /**
   `live` is the indexer of the ingress informer, `envoy` the cache of ingresses known to Envoy, and `served` the
   snapshot that Envoy gets.
   */
  datatype World = World(
    live: map<string, Ingress>,
    envoy: map<string, Ingress>,
    index: Index,
    queue: QueueState,
    served: Snapshot)

  const EMPTY_WORLD := World(map[], map[], EMPTY_INDEX, EMPTY_QUEUE, Snapshot([], []))

  datatype Outcome = Done | Error | Conflicted

  /**
   `Tombstone` is a deletion the informer missed and reports without the object: its key cannot be computed, so it is
   not enqueued. `planned` carries the services a root pass fetched, if it got that far; `cached` the root that a leaf
   pass put into the Envoy cache, if it got that far; `published` the snapshot that was set, if that took effect.
   */
  datatype Step =
    | Changed(ingress: Ingress)
    | Gone(ingress: Ingress)
    | Tombstone(key: string)
    | ServiceChanged(service: Service)
    | WorkRoot(key: string, planned: Option<seq<Service>>, failed: bool)
    | WorkLeaf(key: string, cached: Option<Ingress>, outcome: Outcome, published: Option<Snapshot>)
    | WorkGone(key: string, published: Option<Snapshot>)

  /** The key under which a leaf pass looks up the root. */
  function RootKeyOf(leaf: Ingress): string {
    Identify(leaf.namespace, leaf.cluster, Lookup(leaf.labels, OWNED_BY_LABEL))
  }

  predicate Worked(e: Step, k: string) {
    IsWork(e) && e.key == k
  }

  predicate IsWork(e: Step) {
    e.WorkRoot? || e.WorkLeaf? || e.WorkGone?
  }

  predicate WorkedGone(e: Step, k: string) {
    e.WorkGone? && e.key == k
  }

  /** The Envoy cache after a step. */
  function EnvoyAfter(envoy: map<string, Ingress>, e: Step): map<string, Ingress> {
    match e
    case WorkLeaf(_, cached, _, _) => Entered(envoy, cached)
    case WorkGone(k, _) => envoy - {k}
    case _ => envoy
  }

  /**
   The indexer decides which kind of pass a key gets. A leaf pass caches only the root it looked up, and fails when it
   cannot publish that. What is published is a snapshot of the whole cache.
   */
  ghost predicate Applies(live: map<string, Ingress>, envoy: map<string, Ingress>, e: Step)
    requires IsWork(e)
  {
    match e
    case WorkRoot(k, _, _) => k in live && !IsLeaf(live[k])
    case WorkLeaf(k, cached, outcome, published) =>
      && k in live && IsLeaf(live[k])
      && (cached.Some? ==> RootKeyOf(live[k]) in live && IngressKey(cached.value) == RootKeyOf(live[k]))
      && (cached.Some? && published.None? ==> outcome.Error?)
      && (published.Some? ==> cached.Some? && IsSnapshotOf(published.value, EnvoyAfter(envoy, e)))
    case WorkGone(k, published) =>
      k !in live && (published.Some? ==> IsSnapshotOf(published.value, EnvoyAfter(envoy, e)))
  }

  ghost predicate Enabled(w: World, e: Step) {
    IsWork(e) ==> e.key in w.queue.queued && Applies(w.live, w.envoy, e)
  }

  predicate Failing(e: Step, k: string) {
    Worked(e, k) && ((e.WorkRoot? && e.failed) || (e.WorkLeaf? && e.outcome.Error?))
  }

  function Served(served: Snapshot, published: Option<Snapshot>): Snapshot {
    if published.Some? then published.value else served
  }

  /** What processing a key does, before its success or failure is handled. */
  function Processed(w: World, e: Step): World
    requires IsWork(e)
  {
    match e
    case WorkRoot(k, planned, _) =>
      if planned.Some? && k in w.live then w.(index := AddedAll(w.index, w.live[k], planned.value)) else w
    case WorkLeaf(k, cached, outcome, published) =>
      w.(
        envoy := EnvoyAfter(w.envoy, e),
        queue := Requeued(w.queue, k, outcome.Conflicted?),
        served := Served(w.served, published))
    case WorkGone(k, published) =>
      w.(envoy := EnvoyAfter(w.envoy, e), index := Deleted(w.index, k), served := Served(w.served, published))
  }

  /** Processing a taken key and handling the outcome. */
  function WorkedOff(w: World, e: Step): World
    requires IsWork(e)
  {
    var t := Processed(w, e);
    t.(queue := Handled(t.queue, e.key, Failing(e, e.key)))
  }

  function Next(w: World, e: Step): World {
    match e
    case Changed(i) =>
      w.(live := w.live[IngressKey(i) := i], queue := AddedRateLimited(w.queue, IngressKey(i)))
    case Gone(i) =>
      w.(live := w.live - {IngressKey(i)}, queue := AddedRateLimited(w.queue, IngressKey(i)))
    case Tombstone(k) => w.(live := w.live - {k})
    case ServiceChanged(service) =>
      w.(queue := Enqueued(w.queue, ListOf(w.index, ServiceKey(service))))
    case _ => WorkedOff(w.(queue := Taken(w.queue, e.key)), e)
  }

  /** The world moves by one enabled step. */
  ghost predicate Performs(w: World, w': World, e: Step) {
    Enabled(w, e) && w' == Next(w, e)
  }

  /** A key taken from the queue, processed and handled is one step. */
  lemma WorkPerforms(w: World, taken: World, processed: World, w': World, e: Step)
    requires IsWork(e) && e.key in w.queue.queued && Applies(w.live, w.envoy, e)
    requires taken == w.(queue := Taken(w.queue, e.key)) && processed == Processed(taken, e)
    requires w' == processed.(queue := Handled(processed.queue, e.key, Failing(e, e.key)))
    ensures Performs(w, w', e)
  {
  }

  function After(w: World, es: seq<Step>): World {
    if es == [] then w else Next(After(w, es[..|es| - 1]), es[|es| - 1])
  }

  ghost predicate ValidRun(w: World, es: seq<Step>) {
    forall n :: 0 <= n < |es| ==> EnabledAt(w, es, n)
  }

  ghost predicate EnabledAt(w: World, es: seq<Step>, n: nat)
    requires n < |es|
  {
    Enabled(After(w, es[..n]), es[n])
  }

  /** An indexer files every ingress under its own key. */
  ghost predicate LiveIsKeyed(w: World) {
    forall k :: k in w.live ==> IngressKey(w.live[k]) == k
  }

  lemma AfterNext(w: World, es: seq<Step>, n: nat)
    requires n < |es|
    ensures After(w, es[..n + 1]) == Next(After(w, es[..n]), es[n])
  {
    assert es[..n + 1][..n] == es[..n];
  }

  lemma ValidPrefix(w: World, es: seq<Step>, n: nat)
    requires ValidRun(w, es) && n <= |es|
    ensures ValidRun(w, es[..n])
  {
    forall m | 0 <= m < n
      ensures EnabledAt(w, es[..n], m)
    {
      assert es[..n][..m] == es[..m];
      assert EnabledAt(w, es, m);
    }
  }

  lemma {:induction false} RunsKeepLiveKeyed(w: World, es: seq<Step>)
    requires LiveIsKeyed(w)
    ensures LiveIsKeyed(After(w, es))
  {
    if es == [] {
    } else {
      RunsKeepLiveKeyed(w, es[..|es| - 1]);
    }
  }

  /** The Envoy cache, too, files every ingress under its own key. */
  lemma {:induction false} RunsKeepEnvoyKeyed(w: World, es: seq<Step>)
    requires Keyed(w.envoy)
    ensures Keyed(After(w, es).envoy)
  {
    if es == [] {
    } else {
      RunsKeepEnvoyKeyed(w, es[..|es| - 1]);
    }
  }

  /****** Live or queued ******/

  /** Everything remembered about an ingress belongs to one that exists or that will still be looked at. */
  ghost predicate LiveOrQueued(w: World) {
    forall k :: k in w.envoy || k in w.index.back ==> k in w.live || k in w.queue.queued
  }

  /** The tombstone's key is waiting already, or nothing is remembered about it. */
  ghost predicate Harmless(w: World, k: string) {
    k in w.queue.queued || (k !in w.envoy && k !in w.index.back)
  }

  lemma {:induction false} EnqueuedKeys(q: QueueState, list: seq<Ingress>, k: string)
    ensures k in Enqueued(q, list).queued <==> k in q.queued || Holds(list, k)
    ensures !Holds(list, k) ==> Count(Enqueued(q, list), k) == Count(q, k)
  {
    if list == [] {
    } else {
      var n := |list| - 1;
      EnqueuedKeys(q, list[..n], k);
      assert list == list[..n] + [list[n]];
      HoldsSplit(list[..n], [list[n]], k);
      assert [list[n]][0] == list[n];
    }
  }

  lemma {:induction false} AddedAllBack(x: Index, root: Ingress, services: seq<Service>, k: string)
    requires k in AddedAll(x, root, services).back
    ensures k in x.back || k == IngressKey(root)
  {
    if services == [] {
    } else {
      var before := AddedAll(x, root, services[..|services| - 1]);
      if k in before.back {
        AddedAllBack(x, root, services[..|services| - 1], k);
      }
    }
  }

  /** A step keeps the invariant, with the one exception of a harmful tombstone, which breaks it. */
  lemma StepLiveOrQueued(w: World, e: Step)
    requires LiveIsKeyed(w) && Enabled(w, e) && LiveOrQueued(w)
    ensures LiveOrQueued(Next(w, e)) <==> (e.Tombstone? ==> Harmless(w, e.key))
  {
    var t := Next(w, e);
    if e.Tombstone? {
      assert !Harmless(w, e.key) ==> (e.key in t.envoy || e.key in t.index.back) && e.key !in t.live;
    } else {
      forall k | k in t.envoy || k in t.index.back
        ensures k in t.live || k in t.queue.queued
      {
        match e {
          case ServiceChanged(service) => EnqueuedKeys(w.queue, ListOf(w.index, ServiceKey(service)), k);
          case WorkRoot(key, planned, failed) =>
            if planned.Some? && k in t.index.back {
              AddedAllBack(w.index, w.live[key], planned.value, k);
            }
          case _ =>
        }
      }
    }
  }

  ghost predicate AlwaysLiveOrQueued(w: World, es: seq<Step>) {
    forall n :: 0 <= n <= |es| ==> LiveOrQueued(After(w, es[..n]))
  }

  ghost predicate TombstonesHarmless(w: World, es: seq<Step>) {
    forall n :: 0 <= n < |es| && es[n].Tombstone? ==> Harmless(After(w, es[..n]), es[n].key)
  }

  lemma {:induction false} HarmlessRunsStayLiveOrQueued(w: World, es: seq<Step>)
    requires LiveIsKeyed(w) && LiveOrQueued(w) && ValidRun(w, es) && TombstonesHarmless(w, es)
    ensures LiveOrQueued(After(w, es))
  {
    if es == [] {
    } else {
      var n := |es| - 1;
      ValidPrefix(w, es, n);
      HarmlessPrefix(w, es, n);
      HarmlessRunsStayLiveOrQueued(w, es[..n]);
      RunsKeepLiveKeyed(w, es[..n]);
      assert EnabledAt(w, es, n);
      StepLiveOrQueued(After(w, es[..n]), es[n]);
    }
  }

  lemma HarmlessPrefix(w: World, es: seq<Step>, n: nat)
    requires n <= |es| && TombstonesHarmless(w, es)
    ensures TombstonesHarmless(w, es[..n])
  {
    forall m | 0 <= m < n && es[..n][m].Tombstone?
      ensures Harmless(After(w, es[..n][..m]), es[..n][m].key)
    {
      assert es[..n][..m] == es[..m];
    }
  }

  /**
   In every state of a run each key of the Envoy cache and of the tracker's reverse map is present in the indexer or
   queued, exactly when every tombstone of the run was harmless.
   */
  lemma LiveOrQueuedIff(w: World, es: seq<Step>)
    requires LiveIsKeyed(w) && LiveOrQueued(w) && ValidRun(w, es)
    ensures AlwaysLiveOrQueued(w, es) <==> TombstonesHarmless(w, es)
  {
    if AlwaysLiveOrQueued(w, es) {
      forall n | 0 <= n < |es| && es[n].Tombstone?
        ensures Harmless(After(w, es[..n]), es[n].key)
      {
        assert LiveOrQueued(After(w, es[..n])) && LiveOrQueued(After(w, es[..n + 1]));
        AfterNext(w, es, n);
        RunsKeepLiveKeyed(w, es[..n]);
        StepLiveOrQueued(After(w, es[..n]), es[n]);
      }
    }
    if TombstonesHarmless(w, es) {
      forall n | 0 <= n <= |es|
        ensures LiveOrQueued(After(w, es[..n]))
      {
        ValidPrefix(w, es, n);
        HarmlessPrefix(w, es, n);
        HarmlessRunsStayLiveOrQueued(w, es[..n]);
      }
    }
  }

  /** Once the queue has run dry, no deleted ingress is left in the Envoy cache or in the tracker's reverse map. */
  lemma DrainedMeansClean(es: seq<Step>)
    requires ValidRun(EMPTY_WORLD, es) && TombstonesHarmless(EMPTY_WORLD, es)
    requires After(EMPTY_WORLD, es).queue.queued == {}
    ensures var w := After(EMPTY_WORLD, es); w.envoy.Keys <= w.live.Keys && w.index.back.Keys <= w.live.Keys
  {
    LiveOrQueuedIff(EMPTY_WORLD, es);
    assert es[..|es|] == es;
    var w := After(EMPTY_WORLD, es);
    assert LiveOrQueued(w);
  }

  /****** No service change is lost ******/

  lemma {:induction false} AddedAllTracks(x: Index, root: Ingress, services: seq<Service>, s: string, k: string)
    ensures Tracks(AddedAll(x, root, services), s, k)
       <==> Tracks(x, s, k)
            || (k == IngressKey(root) && exists i :: 0 <= i < |services| && ServiceKey(services[i]) == s)
  {
    if services == [] {
    } else {
      var n := |services| - 1;
      var before := AddedAll(x, root, services[..n]);
      AddedAllTracks(x, root, services[..n], s, k);
      AddedTracks(before, root, services[n], false, s, k);
      assert services == services[..n] + [services[n]];
    }
  }

  lemma StepKeepsTracking(w: World, e: Step, s: string, k: string)
    requires Tracks(w.index, s, k) && !WorkedGone(e, k)
    ensures Tracks(Next(w, e).index, s, k)
  {
    match e {
      case WorkRoot(key, planned, _) =>
        if planned.Some? && key in w.live {
          AddedAllTracks(w.index, w.live[key], planned.value, s, k);
        }
      case WorkGone(key, _) => DeletedTracks(w.index, key, s, k);
      case _ =>
    }
  }

  lemma {:induction false} TrackingPersists(w: World, es: seq<Step>, n: nat, m: nat, s: string, k: string)
    requires n <= m <= |es| && Tracks(After(w, es[..n]).index, s, k)
    requires forall j :: n <= j < m ==> !WorkedGone(es[j], k)
    ensures Tracks(After(w, es[..m]).index, s, k)
  {
    if n == m {
    } else {
      TrackingPersists(w, es, n, m - 1, s, k);
      AfterNext(w, es, m - 1);
      StepKeepsTracking(After(w, es[..m - 1]), es[m - 1], s, k);
    }
  }

  /**
   From any root pass that finishes planning until the root's deletion is worked off, a change of any service the pass
   fetched, with or without a cluster, puts the root's key in the queue.
   */
  lemma FetchedChangeQueues(w: World, es: seq<Step>, n: nat, m: nat, i: nat)
    requires LiveIsKeyed(w) && ValidRun(w, es) && n < m < |es|
    requires es[n].WorkRoot? && es[n].planned.Some? && i < |es[n].planned.value|
    requires es[m].ServiceChanged? && ServiceKey(es[m].service) == ServiceKey(es[n].planned.value[i])
    requires forall j :: n < j < m ==> !WorkedGone(es[j], es[n].key)
    ensures es[n].key in After(w, es[..m + 1]).queue.queued
  {
    var k, s := es[n].key, ServiceKey(es[m].service);
    RunsKeepLiveKeyed(w, es[..n]);
    assert EnabledAt(w, es, n);
    AfterNext(w, es, n);
    PlannedIsTracked(After(w, es[..n]), es[n], i);
    TrackingPersists(w, es, n + 1, m, s, k);
    AfterNext(w, es, m);
    EnqueuedKeys(After(w, es[..m]).queue, ListOf(After(w, es[..m]).index, s), k);
  }

  lemma PlannedIsTracked(w: World, e: Step, i: nat)
    requires LiveIsKeyed(w) && Enabled(w, e) && e.WorkRoot? && e.planned.Some? && i < |e.planned.value|
    ensures Tracks(Next(w, e).index, ServiceKey(e.planned.value[i]), e.key)
  {
    AddedAllTracks(w.index, w.live[e.key], e.planned.value, ServiceKey(e.planned.value[i]), e.key);
  }

  /****** Retries ******/

  /** The runs a key gets that waits with this counter and then only fails. */
  function RunsUntilDropped(count: nat): nat {
    if count >= MAX_REQUEUES then 1 else MAX_REQUEUES + 1 - count
  }

  function FailingRuns(es: seq<Step>, k: string): nat {
    if es == [] then 0 else FailingRuns(es[..|es| - 1], k) + (if Failing(es[|es| - 1], k) then 1 else 0)
  }

  /** The step is a failing run of `k`, or has nothing to do with `k`: nobody else enqueues it. */
  ghost predicate LeavesToFail(w: World, e: Step, k: string) {
    match e
    case Changed(i) => IngressKey(i) != k
    case Gone(i) => IngressKey(i) != k
    case Tombstone(_) => true
    case ServiceChanged(service) => !Tracks(w.index, ServiceKey(service), k)
    case _ => e.key == k ==> Failing(e, k)
  }

  ghost predicate OnlyFails(w: World, es: seq<Step>, k: string) {
    forall n :: 0 <= n < |es| ==> LeavesToFail(After(w, es[..n]), es[n], k)
  }

  /**
   A key that waits with counter c, is enqueued by nobody else and fails whenever it is run, is run at most
   `RunsUntilDropped(c)` times. The distance to that bound falls with every run, and at the bound, and only there, the
   key has been dropped, with its counter back at zero.
   */
  lemma {:induction false} RetriesAreBounded(w: World, es: seq<Step>, k: string)
    requires k in w.queue.queued && ValidRun(w, es) && OnlyFails(w, es, k)
    ensures var c, r, q := Count(w.queue, k), FailingRuns(es, k), After(w, es).queue;
            && r <= RunsUntilDropped(c)
            && (k in q.queued <==> r < RunsUntilDropped(c))
            && Count(q, k) == (if k in q.queued then c + r else 0)
  {
    if es == [] {
    } else {
      var n := |es| - 1;
      var before, e := es[..n], es[n];
      ValidPrefix(w, es, n);
      forall m | 0 <= m < n
        ensures LeavesToFail(After(w, before[..m]), before[m], k)
      {
        assert before[..m] == es[..m];
      }
      RetriesAreBounded(w, before, k);
      assert EnabledAt(w, es, n) && LeavesToFail(After(w, before), e, k);
      RetryStep(After(w, before), e, k);
    }
  }

  lemma RetryStep(w: World, e: Step, k: string)
    requires Enabled(w, e) && LeavesToFail(w, e, k)
    ensures var q, q' := w.queue, Next(w, e).queue;
            if Failing(e, k) then
              && k in q.queued
              && (k in q'.queued <==> Count(q, k) < MAX_REQUEUES)
              && Count(q', k) == (if k in q'.queued then Count(q, k) + 1 else 0)
            else (k in q'.queued <==> k in q.queued) && Count(q', k) == Count(q, k)
  {
    if e.ServiceChanged? {
      EnqueuedKeys(w.queue, ListOf(w.index, ServiceKey(e.service)), k);
    }
  }

  /** One enqueue counts itself, so a key that always fails is run five times for it: four retries, not five. */
  lemma FiveRunsFromOneEnqueue(w: World, ingress: Ingress, es: seq<Step>)
    requires Count(w.queue, IngressKey(ingress)) == 0
    requires var t := Next(w, Changed(ingress)); ValidRun(t, es) && OnlyFails(t, es, IngressKey(ingress))
    ensures FailingRuns(es, IngressKey(ingress)) <= 5
    ensures FailingRuns(es, IngressKey(ingress)) == 5
       <==> IngressKey(ingress) !in After(Next(w, Changed(ingress)), es).queue.queued
  {
    RetriesAreBounded(Next(w, Changed(ingress)), es, IngressKey(ingress));
  }

  ghost predicate OnlyConflicts(es: seq<Step>, k: string) {
    forall n :: 0 <= n < |es| && Worked(es[n], k) ==> es[n].WorkLeaf? && es[n].outcome.Conflicted?
  }

  /** Conflicts never cause a drop: a waiting key whose runs all end in a conflict waits again after each. */
  lemma {:induction false} ConflictsNeverDrop(w: World, es: seq<Step>, k: string)
    requires k in w.queue.queued && OnlyConflicts(es, k)
    ensures k in After(w, es).queue.queued
    ensures es != [] && Worked(es[|es| - 1], k) ==> Count(After(w, es).queue, k) == 0
  {
    if es == [] {
    } else {
      var n := |es| - 1;
      forall m | 0 <= m < n && Worked(es[..n][m], k)
        ensures es[..n][m].WorkLeaf? && es[..n][m].outcome.Conflicted?
      {
        assert Worked(es[m], k);
      }
      ConflictsNeverDrop(w, es[..n], k);
      var t := After(w, es[..n]);
      assert Worked(es[n], k) ==> es[n].WorkLeaf? && es[n].outcome.Conflicted?;
      if es[n].ServiceChanged? {
        EnqueuedKeys(t.queue, ListOf(t.index, ServiceKey(es[n].service)), k);
      }
    }
  }

  /** A concrete harmful tombstone: a planned root whose deletion is reported without its object. */
  lemma TombstoneExample(root: Ingress, service: Service)
    requires !IsLeaf(root)
    ensures var es := [Changed(root), WorkRoot(IngressKey(root), Some([service]), false), Tombstone(IngressKey(root))];
            ValidRun(EMPTY_WORLD, es) && !LiveOrQueued(After(EMPTY_WORLD, es))
  {
    var k := IngressKey(root);
    var es := [Changed(root), WorkRoot(k, Some([service]), false), Tombstone(k)];
    assert es[..0] == [] && es[..3] == es;
    AfterNext(EMPTY_WORLD, es, 0);
    AfterNext(EMPTY_WORLD, es, 1);
    AfterNext(EMPTY_WORLD, es, 2);
    var w1 := Next(EMPTY_WORLD, es[0]);
    var w2 := Next(w1, es[1]);
    assert [service][..0] == [];
    assert AddedAll(EMPTY_INDEX, root, [service]) == Added(AddedAll(EMPTY_INDEX, root, []), root, service, false);
    AddedAllTracks(EMPTY_INDEX, root, [], ServiceKey(service), k);
    assert k in w2.index.back;
    assert EnabledAt(EMPTY_WORLD, es, 0) && EnabledAt(EMPTY_WORLD, es, 1) && EnabledAt(EMPTY_WORLD, es, 2);
  }
}
