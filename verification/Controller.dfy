/** The controller object: informer notices, the work loop, and what each does to the world of `System`. */
module IngressController {
  import opened Wrappers
  import opened Model
  import opened ApiServer
  import opened ServiceTracker
  import opened EnvoyCache
  import opened WorkQueue
  import opened LeafPass
  import opened Informer
  import opened System
  import opened RootReconciler
  import opened LeafReconciler
  import opened Operation

  /** What the informer passes to a handler: the object, or for a missed deletion only a marker. */
  datatype Notice = Object(ingress: Ingress) | DeletedFinalStateUnknown(key: string)

  class Controller {
    const config: Config
    const api: Api
    const tracker: Tracker
    const cache: Cache
    const queue: Queue
    const xds: Xds
    const indexer: Indexer

    constructor (config: Config, api: Api, xdsFaults: nat)
      ensures this.config == config && this.api == api
      ensures fresh(tracker) && fresh(cache) && fresh(queue) && fresh(xds) && fresh(indexer)
      ensures Valid() && View() == EMPTY_WORLD
    {
      this.config, this.api := config, api;
      tracker := new Tracker();
      cache := new Cache();
      queue := new Queue();
      xds := new Xds(xdsFaults);
      indexer := new Indexer();
    }

    /** With Envoy on, the code reads the first rule of every root. */
    ghost predicate Indexed()
      reads indexer, indexer.refs
    {
      indexer.Valid() && (config.envoy ==> HaveRules(indexer.live))
    }

    /** Without Envoy the cache stays empty. */
    ghost predicate Valid()
      reads indexer, indexer.refs, cache
    {
      Indexed() && Keyed(cache.ingresses) && (!config.envoy ==> cache.ingresses == map[])
    }

    ghost function View(): World
      reads indexer, tracker, cache, queue, xds
    {
      World(indexer.live, cache.ingresses, tracker.State(), queue.State(), xds.served)
    }

    ghost function Now(): Moment
      reads indexer, tracker, cache, queue, xds, api
    {
      Moment(View(), Outside(api.store, api.services, api.records, api.faults + xds.faults))
    }

    /****** Informer handlers ******/

    /** A notice without an object has no key, and is not enqueued. */
    method Enqueue(notice: Notice)
      modifies queue`queued, queue`requeues
      ensures queue.State() == match notice
                               case Object(ingress) => AddedRateLimited(old(queue.State()), IngressKey(ingress))
                               case DeletedFinalStateUnknown(_) => old(queue.State())
    {
      if notice.DeletedFinalStateUnknown? {
        return;
      }
      queue.AddRateLimited(IngressKey(notice.ingress));
    }

    /** The informer stores an added or updated object, then calls its handler. */
    method OnChanged(ref: IngressRef)
      requires Valid() && (config.envoy ==> ref.obj.rules != [])
      modifies indexer, queue`queued, queue`requeues
      ensures Valid() && View() == Next(old(View()), Changed(ref.obj))
    {
      indexer.Put(ref);
      Enqueue(Object(ref.obj));
    }

    method OnDeleted(notice: Notice)
      requires Valid()
      modifies indexer, queue`queued, queue`requeues
      ensures Valid()
      ensures View() == Next(old(View()), match notice
                                          case Object(ingress) => Gone(ingress)
                                          case DeletedFinalStateUnknown(key) => Tombstone(key))
    {
      var key := match notice
                 case Object(ingress) => IngressKey(ingress)
                 case DeletedFinalStateUnknown(key) => key;
      indexer.Delete(key);
      Enqueue(notice);
    }

    /** Enqueues every ingress tracked for the changed or deleted service. */
    method IngressesFromService(service: Service)
      requires Valid()
      modifies queue`queued, queue`requeues
      ensures Valid() && View() == Next(old(View()), ServiceChanged(service))
    {
      var ingresses, ok := tracker.GetIngress(service);
      if ok {
        for i := 0 to |ingresses|
          invariant queue.State() == Enqueued(old(queue.State()), ingresses[..i])
        {
          assert ingresses[..i + 1][..i] == ingresses[..i];
          Enqueue(Object(ingresses[i]));
        }
        assert ingresses[..|ingresses|] == ingresses;
      }
    }

    /****** Work loop ******/

    method HandleErr(key: string, failed: bool)
      requires Valid()
      modifies queue`queued, queue`requeues
      ensures Valid() && Now() == WithQueue(old(Now()), Handled(old(queue.State()), key, failed))
    {
      if !failed {
        queue.Forget(key);
        return;
      }
      var num := queue.NumRequeues(key);
      if num < MAX_REQUEUES {
        queue.AddRateLimited(key);
        return;
      }
      queue.Forget(key);
    }

    /**
     A key that is no longer in the indexer leaves the cache and the tracker. It leaves the snapshot only if setting
     that takes effect, of which the outcome is ignored.
     */
    method ProcessGone(key: string) returns (ghost published: Option<Snapshot>)
      requires Valid() && key !in indexer.items
      modifies cache, xds, tracker
      ensures Valid() && View() == Processed(old(View()), WorkGone(key, published))
      ensures published.Some? ==> IsSnapshotOf(published.value, cache.ingresses)
      ensures config.envoy && xds.faults == old(xds.faults) ==> published.Some?
      ensures xds.faults <= old(xds.faults)
    {
      published := None;
      if config.envoy {
        cache.DeleteIngress(key);
        var snapshot := cache.ToEnvoySnapshot();
        var ok := xds.SetSnapshot(snapshot);
        published := if ok || xds.served == snapshot then Some(snapshot) else None;
      }
      tracker.DeleteIngress(key);
    }

    method ProcessRoot(key: string, current: IngressRef, xid: string, ghost resolve: Resolver)
      returns (ok: bool, ghost turn: Turn)
      requires Valid() && key in indexer.items && indexer.items[key] == current && !IsLeaf(current.obj)
      modifies api`store, api`faults, tracker
      ensures Valid() && Passed(config, old(Now()), Now(), turn)
      ensures turn.step.key == key && turn.xid == xid && turn.resolve == resolve && ok == !Failing(turn.step, key)
    {
      ghost var done;
      ok, done := ReconcileRoot(api, tracker, indexer, config.domain, current, xid);
      turn := Turn(RootStep(key, ok, done), xid, resolve, OfRoot(done));
      RootPassed(config, old(Now()), Now(), key, xid, resolve, ok, done);
    }

    method RunLeaf(key: string, current: IngressRef, resolve: Resolver) returns (ok: bool, ghost trail: LeafTrail)
      requires Valid() && key in indexer.items && indexer.items[key] == current
      modifies api`store, api`records, api`faults, cache, xds, queue`queued, queue`requeues
      ensures Valid()
      ensures cache.ingresses == Entered(old(cache.ingresses), trail.cached)
      ensures xds.served == Served(old(xds.served), trail.published)
      ensures queue.State() == Requeued(old(queue.State()), key, trail.conflicted)
      ensures api.faults + xds.faults <= old(api.faults + xds.faults)
      ensures trail in LeafTrails(
                         config, indexer.live, old(api.store), api.store, old(api.records), api.records,
                         cache.ingresses, indexer.live[key], resolve, ok,
                         api.faults + xds.faults < old(api.faults + xds.faults))
    {
      ok, trail := ReconcileLeaf(config, api, cache, xds, queue, indexer, current, resolve);
    }

    method ProcessLeaf(key: string, current: IngressRef, ghost xid: string, resolve: Resolver)
      returns (ok: bool, ghost turn: Turn)
      requires Valid() && key in indexer.items && indexer.items[key] == current && IsLeaf(current.obj)
      modifies api`store, api`records, api`faults, cache, xds, queue`queued, queue`requeues
      ensures Valid() && Passed(config, old(Now()), Now(), turn)
      ensures turn.step.key == key && turn.xid == xid && turn.resolve == resolve && ok == !Failing(turn.step, key)
    {
      ghost var done;
      ok, done := RunLeaf(key, current, resolve);
      turn := Turn(LeafStep(key, ok, done), xid, resolve, OfLeaf(done));
      LeafPassed(config, old(Now()), Now(), key, xid, resolve, ok, done);
    }

    method Reconcile(key: string, current: IngressRef, xid: string, resolve: Resolver)
      returns (ok: bool, ghost turn: Turn)
      requires Valid() && key in indexer.items && indexer.items[key] == current
      modifies api`store, api`records, api`faults, tracker, cache, xds, queue`queued, queue`requeues
      ensures Valid() && Passed(config, old(Now()), Now(), turn)
      ensures turn.step.key == key && turn.xid == xid && turn.resolve == resolve && ok == !Failing(turn.step, key)
    {
      if IsLeaf(current.obj) {
        ok, turn := ProcessLeaf(key, current, xid, resolve);
      } else {
        ok, turn := ProcessRoot(key, current, xid, resolve);
      }
    }

    /**
     Reconciliation never writes to an object of the indexer, so the object it was given is the same afterwards, and
     the update that would store a difference is never issued.
     */
    method ProcessLive(key: string, xid: string, resolve: Resolver) returns (ok: bool, ghost turn: Turn)
      requires Valid() && key in indexer.items
      modifies api`store, api`records, api`faults, tracker, cache, xds, queue`queued, queue`requeues
      ensures Valid() && Passed(config, old(Now()), Now(), turn)
      ensures turn.step.key == key && turn.xid == xid && turn.resolve == resolve && ok == !Failing(turn.step, key)
    {
      var current := indexer.items[key];
      var previous := current.DeepCopy();
      ok, turn := Reconcile(key, current, xid, resolve);
      if ok && previous.obj != current.obj {
        assert false;
      }
    }

    method Process(key: string, xid: string, resolve: Resolver) returns (ok: bool, ghost turn: Turn)
      requires Valid()
      modifies api`store, api`records, api`faults, tracker, cache, xds, queue`queued, queue`requeues
      ensures Valid() && Passed(config, old(Now()), Now(), turn)
      ensures turn.step.key == key && turn.xid == xid && turn.resolve == resolve && ok == !Failing(turn.step, key)
    {
      if key !in indexer.items {
        ghost var published := ProcessGone(key);
        GonePassed(config, old(Now()), Now(), key, xid, resolve, published);
        return true, Turn(WorkGone(key, published), xid, resolve, OfNone);
      }
      ok, turn := ProcessLive(key, xid, resolve);
    }

    method ProcessAndHandle(key: string, xid: string, resolve: Resolver)
      returns (ghost turn: Turn, ghost passed: Moment)
      requires Valid()
      modifies api`store, api`records, api`faults, tracker, cache, xds, queue`queued, queue`requeues
      ensures Valid() && Passed(config, old(Now()), passed, turn)
      ensures turn.step.key == key && turn.xid == xid && turn.resolve == resolve
      ensures Now() == WithQueue(passed, Handled(passed.world.queue, key, Failing(turn.step, key)))
    {
      var ok;
      ok, turn := Process(key, xid, resolve);
      passed := Now();
      HandleErr(key, !ok);
    }

    /** Takes a key, processes it and handles the outcome: one work item, or nothing when the queue shuts down. */
    method ProcessNextWorkItem(xid: string, resolve: Resolver) returns (more: bool, ghost turn: Option<Turn>)
      requires Valid() && (queue.queued != {} || queue.shuttingDown)
      modifies api`store, api`records, api`faults, tracker, cache, xds, queue`queued, queue`requeues
      ensures Valid()
      ensures more <==> old(queue.queued) != {}
      ensures !more ==> Now() == old(Now())
      ensures more ==> (
                && turn.Some? && turn.value.xid == xid && turn.value.resolve == resolve
                && Works(config, old(Now()), Now(), turn.value))
    {
      var key, quit := queue.Get();
      if quit {
        return false, None;
      }
      ghost var work, passed;
      work, passed := ProcessAndHandle(key, xid, resolve);
      PassedIsWork(config, old(Now()), passed, Now(), work);
      return true, Some(work);
    }
  }
}
