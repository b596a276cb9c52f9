/** One work item of the controller on values: the step of the system and the writes of the pass, taken together. */
module Operation {
  import opened Wrappers
  import opened Model
  import opened ApiServer
  import opened ServiceTracker
  import opened EnvoyCache
  import opened WorkQueue
  import opened LeafPass
  import opened Informer
  import opened System
  import opened RootReconciler
  import opened LeafReconciler
  import Text

  /** What the API has. `faults` are all calls that may still fail. */
  datatype Outside = Outside(
    store: Store,
    services: map<Key, Service>,
    records: map<Key, DnsRecord>,
    faults: nat)

  datatype Moment = Moment(world: World, outside: Outside)

  /** How far the pass of a key came, by the kind of pass. */
  datatype PassTrail = OfRoot(root: RootTrail) | OfLeaf(leaf: LeafTrail) | OfNone

  /** A work item with what it was given from outside, or a notice. */
  datatype Turn = Turn(step: Step, xid: string, resolve: Resolver, trail: PassTrail)

  lemma GeneratedHostIsUnderTheDomain(config: Config, xid: string)
    ensures Text.EndsWith(GeneratedHost(config, xid), "." + config.domain) && xid <= GeneratedHost(config, xid)
  {
    var host := GeneratedHost(config, xid);
    assert host[|xid|..] == "." + config.domain;
  }

  function GeneratedHost(config: Config, xid: string): string {
    xid + "." + config.domain
  }

  function RootStep(key: string, ok: bool, trail: RootTrail): Step {
    WorkRoot(key, trail.services, !ok)
  }

  function LeafStep(key: string, ok: bool, trail: LeafTrail): Step {
    WorkLeaf(
      key, trail.cached, if !ok then Error else if trail.conflicted then Conflicted else Done, trail.published)
  }

  /**
   What working a key off did, by what the indexer has under the key: the writes of a root pass, and a step that tracks
   exactly the services it fetched; the writes of a leaf pass, what it published with the cache now `envoy`, and a step
   that says so; for a key that is gone, no call at all.
   */
  ghost predicate IsPass(
    config: Config, live: map<string, Ingress>, o: Outside, o': Outside, envoy: map<string, Ingress>, t: Turn)
    requires IsWork(t.step)
  {
    match t.trail
    case OfRoot(trail) =>
      var key, ok := t.step.key, !Failing(t.step, t.step.key);
      && key in live && !IsLeaf(live[key]) && t.step == RootStep(key, ok, trail)
      && o'.services == o.services && o'.records == o.records && o'.faults <= o.faults
      && RootReport(
           live, o.store, o'.store, live[key], o.services, GeneratedHost(config, t.xid), ok, o'.faults < o.faults,
           trail)
    case OfLeaf(trail) =>
      var key, ok := t.step.key, !Failing(t.step, t.step.key);
      && key in live && IsLeaf(live[key]) && t.step == LeafStep(key, ok, trail)
      && o'.services == o.services && o'.faults <= o.faults
      && trail in LeafTrails(
                    config, live, o.store, o'.store, o.records, o'.records, envoy, live[key], t.resolve, ok,
                    o'.faults < o.faults)
    case OfNone =>
      && t.step.key !in live && t.step.WorkGone?
      && o' == o.(faults := o'.faults) && o'.faults <= o.faults
  }

  /** The key was processed, and its outcome is not handled yet. */
  ghost predicate Passed(config: Config, m: Moment, m': Moment, t: Turn) {
    match m
    case Moment(world, outside) =>
      && IsWork(t.step) && Applies(world.live, world.envoy, t.step)
      && m'.world == Processed(world, t.step)
      && IsPass(config, world.live, outside, m'.outside, m'.world.envoy, t)
  }

  /** One whole work item: an enabled step of the system, with the writes of its pass. */
  ghost predicate Works(config: Config, m: Moment, m': Moment, t: Turn) {
    match m
    case Moment(world, outside) =>
      && IsWork(t.step) && Performs(world, m'.world, t.step)
      && IsPass(config, world.live, outside, m'.outside, m'.world.envoy, t)
  }

  lemma RootPassed(
    config: Config, m: Moment, m': Moment, key: string, xid: string, resolve: Resolver, ok: bool, trail: RootTrail)
    requires key in m.world.live && !IsLeaf(m.world.live[key])
    requires RootReport(
               m.world.live, m.outside.store, m'.outside.store, m.world.live[key], m.outside.services,
               GeneratedHost(config, xid), ok, m'.outside.faults < m.outside.faults, trail)
    requires m'.world == m.world.(index := Tracked(m.world.index, m.world.live[key], trail))
    requires m'.outside == m.outside.(store := m'.outside.store, faults := m'.outside.faults)
    requires m'.outside.faults <= m.outside.faults
    ensures Passed(config, m, m', Turn(RootStep(key, ok, trail), xid, resolve, OfRoot(trail)))
  {
  }

  lemma LeafPassed(
    config: Config, m: Moment, m': Moment, key: string, xid: string, resolve: Resolver, ok: bool, trail: LeafTrail)
    requires key in m.world.live && IsLeaf(m.world.live[key])
    requires trail in LeafTrails(
                        config, m.world.live, m.outside.store, m'.outside.store, m.outside.records,
                        m'.outside.records, m'.world.envoy, m.world.live[key], resolve, ok,
                        m'.outside.faults < m.outside.faults)
    requires m'.world == m.world.(
               envoy := Entered(m.world.envoy, trail.cached),
               queue := Requeued(m.world.queue, key, trail.conflicted),
               served := Served(m.world.served, trail.published))
    requires m'.outside.services == m.outside.services && m'.outside.faults <= m.outside.faults
    ensures Passed(config, m, m', Turn(LeafStep(key, ok, trail), xid, resolve, OfLeaf(trail)))
  {
    LeafStepApplies(config, m.world.live, m.world.envoy, key, ok, trail);
  }

  lemma LeafStepApplies(
    config: Config, live: map<string, Ingress>, envoy: map<string, Ingress>, key: string, ok: bool, trail: LeafTrail)
    requires key in live && IsLeaf(live[key])
    requires trail.root.Some? ==> Found(live, live[key], trail.root.value, trail.listing)
    requires LeafPublishes(config, Entered(envoy, trail.cached), ok, trail)
    ensures Applies(live, envoy, LeafStep(key, ok, trail))
  {
  }

  lemma GonePassed(
    config: Config, m: Moment, m': Moment, key: string, xid: string, resolve: Resolver, published: Option<Snapshot>)
    requires key !in m.world.live
    requires m'.world == Processed(m.world, WorkGone(key, published))
    requires published.Some? ==> IsSnapshotOf(published.value, m'.world.envoy)
    requires m'.outside == m.outside.(faults := m'.outside.faults) && m'.outside.faults <= m.outside.faults
    ensures Passed(config, m, m', Turn(WorkGone(key, published), xid, resolve, OfNone))
  {
  }

  function WithQueue(m: Moment, queue: QueueState): Moment {
    m.(world := m.world.(queue := queue))
  }

  /** Taking a waiting key, processing it and handling the outcome is one work item. */
  lemma PassedIsWork(config: Config, m: Moment, passed: Moment, m': Moment, t: Turn)
    requires IsWork(t.step) && t.step.key in m.world.queue.queued
    requires Passed(config, WithQueue(m, Taken(m.world.queue, t.step.key)), passed, t)
    requires m' == WithQueue(passed, Handled(passed.world.queue, t.step.key, Failing(t.step, t.step.key)))
    ensures Works(config, m, m', t)
  {
    WorkPerforms(m.world, m.world.(queue := Taken(m.world.queue, t.step.key)), passed.world, m'.world, t.step);
  }
}
