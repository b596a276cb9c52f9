/**
 Runs of the controller together with the API: every work item moves the world by a step of the system and the store by
 the writes of a pass, and between work items the informers report and others write.
 */
module JointRuns {
  import opened Wrappers
  import opened Model
  import opened ApiServer
  import opened Translator
  import opened EnvoyCache
  import opened Planning
  import opened RootPass
  import opened StoredLeaves
  import opened Convergence
  import opened Informer
  import opened LeafPass
  import opened System
  import opened Serving
  import opened RootReconciler
  import opened LeafReconciler
  import opened Operation
  import Text

  /** A work item, or a notice; with a notice anything may have happened to the API. */
  ghost predicate Moves(config: Config, m: Moment, m': Moment, t: Turn) {
    if IsWork(t.step) then Works(config, m, m', t)
    else m'.world == Next(m.world, t.step) && m'.outside.faults == m.outside.faults
  }

  ghost predicate JointRun(config: Config, ms: seq<Moment>, ts: seq<Turn>) {
    |ms| == |ts| + 1 && forall i :: 0 <= i < |ts| ==> MovesAt(config, ms, ts, i)
  }

  ghost predicate MovesAt(config: Config, ms: seq<Moment>, ts: seq<Turn>, i: nat)
    requires i < |ts| && |ms| == |ts| + 1
  {
    Moves(config, ms[i], ms[i + 1], ts[i])
  }

  function Steps(ts: seq<Turn>): seq<Step> {
    seq(|ts|, i requires 0 <= i < |ts| => ts[i].step)
  }

  /** The worlds of a joint run are those of a run of the system: its theorems apply. */
  lemma WorldsAreARun(config: Config, ms: seq<Moment>, ts: seq<Turn>)
    requires JointRun(config, ms, ts)
    ensures ValidRun(ms[0].world, Steps(ts))
    ensures forall n :: 0 <= n <= |ts| ==> ms[n].world == After(ms[0].world, Steps(ts)[..n])
  {
    forall n | 0 <= n <= |ts|
      ensures ms[n].world == After(ms[0].world, Steps(ts)[..n])
    {
      WorldAfter(config, ms, ts, n);
    }
    forall n | 0 <= n < |ts|
      ensures EnabledAt(ms[0].world, Steps(ts), n)
    {
      assert MovesAt(config, ms, ts, n);
      MoveIsStep(config, ms[n], ms[n + 1], ts[n]);
    }
  }

  lemma {:induction false} WorldAfter(config: Config, ms: seq<Moment>, ts: seq<Turn>, n: nat)
    requires JointRun(config, ms, ts) && n <= |ts|
    ensures ms[n].world == After(ms[0].world, Steps(ts)[..n])
  {
    if n > 0 {
      WorldAfter(config, ms, ts, n - 1);
      assert MovesAt(config, ms, ts, n - 1);
      MoveIsStep(config, ms[n - 1], ms[n], ts[n - 1]);
      AfterNext(ms[0].world, Steps(ts), n - 1);
    }
  }

  lemma MoveIsStep(config: Config, m: Moment, m': Moment, t: Turn)
    requires Moves(config, m, m', t)
    ensures Enabled(m.world, t.step) && m'.world == Next(m.world, t.step)
    ensures m'.outside.faults <= m.outside.faults
  {
  }

  /****** No service change is lost ******/

  /** Services are stored under their own namespace and name, and are all of one workspace. */
  ghost predicate AreOf(services: map<Key, Service>, workspace: string) {
    forall k :: k in services ==>
      services[k].namespace == k.namespace && services[k].name == k.name && services[k].cluster == workspace
  }

  /** A root pass that planned; every successful one has. */
  predicate PlansRoot(e: Step) {
    e.WorkRoot? && (e.planned.Some? || !e.failed)
  }

  /**
   From any root pass that finishes planning until the root's deletion is worked off, a change of the service of any
   path `j` of any rule `i` that the root had at that pass puts the root's key in the queue.
   */
  lemma NoServiceChangeLost(
    config: Config, ms: seq<Moment>, ts: seq<Turn>, n: nat, m: nat, root: Ingress, i: nat, j: nat)
    requires JointRun(config, ms, ts) && LiveIsKeyed(ms[0].world) && n < m < |ts|
    requires PlansRoot(ts[n].step)
    requires ts[n].step.key in ms[n].world.live && ms[n].world.live[ts[n].step.key] == root
    requires i < |root.rules| && root.rules[i].paths.Some? && j < |root.rules[i].paths.value|
    requires AreOf(ms[n].outside.services, root.cluster) && ts[m].step.ServiceChanged?
    requires var changed := ts[m].step.service;
             && changed.namespace == root.namespace && changed.cluster == root.cluster
             && changed.name == root.rules[i].paths.value[j].service
    requires forall l :: n < l < m ==> !WorkedGone(ts[l].step, ts[n].step.key)
    ensures ts[n].step.key in ms[m + 1].world.queue.queued
  {
    WorldsAreARun(config, ms, ts);
    assert MovesAt(config, ms, ts, n);
    PlannedServices(config, ms[n], ms[n + 1], ts[n]);
    var x := FetchedAt(root, ms[n].outside.services, i, j);
    FetchedChangeQueues(ms[0].world, Steps(ts), n, m, x);
  }

  /** Where the fetched services have that of path `j` of rule `i`. */
  lemma FetchedAt(root: Ingress, services: map<Key, Service>, i: nat, j: nat) returns (x: nat)
    requires i < |root.rules| && root.rules[i].paths.Some? && j < |root.rules[i].paths.value|
    requires ServicesOf(root, services).Some? && AreOf(services, root.cluster)
    ensures x < |ServicesOf(root, services).value|
    ensures var s := ServicesOf(root, services).value[x];
            && s.namespace == root.namespace && s.cluster == root.cluster
            && s.name == root.rules[i].paths.value[j].service
  {
    var name, names := root.rules[i].paths.value[j].service, ServiceNames(root.rules);
    assert RefersAt(root.rules, i, j, name);
    ServiceNamesMeaning(root.rules, name);
    FetchedMeaning(names, root.namespace, services);
    x :| 0 <= x < |names| && names[x] == name;
  }

  lemma PlannedServices(config: Config, m: Moment, m': Moment, t: Turn)
    requires Moves(config, m, m', t) && PlansRoot(t.step)
    ensures t.step.key in m.world.live && t.step.planned.Some?
    ensures t.step.planned == ServicesOf(m.world.live[t.step.key], m.outside.services)
  {
  }

  /****** Branches ******/

  /** The label alone decides the branch: with a cluster it is a leaf pass; with none or the empty one, a root pass. */
  lemma BranchFollowsTheLabel(config: Config, m: Moment, m': Moment, t: Turn)
    requires Moves(config, m, m', t) && IsWork(t.step) && t.step.key in m.world.live
    ensures var labels := m.world.live[t.step.key].labels;
            && (t.step.WorkLeaf? <==> "kcp.dev/cluster" in labels && labels["kcp.dev/cluster"] != "")
            && (t.step.WorkRoot? <==> ("kcp.dev/cluster" in labels ==> labels["kcp.dev/cluster"] == ""))
  {
  }

  /** A leaf as it is planned gets a leaf pass, and if that finds a root at all, it is the one that planned the leaf. */
  lemma PlannedLeafReachesItsRoot(
    config: Config, m: Moment, m': Moment, t: Turn, root: Ingress, cluster: string)
    requires Moves(config, m, m', t) && IsWork(t.step) && t.step.key in m.world.live
    requires cluster != "" && IsLeafFor(m.world.live[t.step.key], root, cluster)
    requires IngressKey(root) in m.world.live && m.world.live[IngressKey(root)] == root
    ensures t.step.WorkLeaf? && t.trail.OfLeaf?
    ensures t.trail.leaf.root.Some? ==> t.trail.leaf.root.value == root
    ensures t.trail.leaf.root.None? ==> t.step.outcome.Error?
  {
    BranchFollowsTheLabel(config, m, m', t);
    LeafFindsItsRoot(m.world.live[t.step.key], root, cluster);
  }

  lemma LeafFindsItsRoot(leaf: Ingress, root: Ingress, cluster: string)
    requires IsLeafFor(leaf, root, cluster)
    ensures RootKeyOf(leaf) == IngressKey(root)
  {
  }

  /****** What Envoy is served ******/

  /**
   Envoy has one endpoint for each load-balancer entry of each leaf that a leaf pass listed, until the root is cached
   anew or its deletion is worked off.
   */
  lemma AggregatedRootIsServed(config: Config, ms: seq<Moment>, ts: seq<Turn>, n: nat, m: nat, root: Ingress)
    requires JointRun(config, ms, ts) && Keyed(ms[0].world.envoy) && IsCurrent(ms[0].world)
    requires ChangesArePublished(ms[0].world, Steps(ts))
    requires n < m <= |ts| && ts[n].step.WorkLeaf? && ts[n].step.cached.Some?
    requires ts[n].trail.OfLeaf? && ts[n].trail.leaf.root == Some(root)
    requires forall j :: n < j < m ==> !Touches(ts[j].step, IngressKey(root))
    ensures ServesRoot(ms[m].world.served, root, ts[n].trail.leaf.listing)
  {
    WorldsAreARun(config, ms, ts);
    var listing := ts[n].trail.leaf.listing;
    assert MovesAt(config, ms, ts, n);
    CachedIsMerged(config, ms[n], ms[n + 1], ts[n]);
    CachedRootIsServed(ms[0].world, Steps(ts), n, m);
    MergedClusterServes(ms[m].world.served, root, listing);
  }

  lemma CachedIsMerged(config: Config, m: Moment, m': Moment, t: Turn)
    requires Moves(config, m, m', t) && t.step.WorkLeaf? && t.step.cached.Some? && t.trail.OfLeaf?
    ensures t.trail.leaf.root.Some?
    ensures t.step.cached == Some(Merged(t.trail.leaf.root.value, t.trail.leaf.listing))
    ensures t.step.key in m.world.live
    ensures Found(m.world.live, m.world.live[t.step.key], t.trail.leaf.root.value, t.trail.leaf.listing)
  {
  }

  /****** Convergence ******/

  /** A status was written, by the syncer say, or nothing happened. */
  ghost predicate Nudged(s: Store, s': Store) {
    s' == s || exists key, status :: s' == StatusSet(s, key, status)
  }

  /**
   Every root pass reads an indexer that has caught up, and is of the root at `k` or of one that is separate from it:
   with another name, both names plain, and neither a leaf of the other. Leaf passes and deletions are any. The services
   stay, and others write statuses or leave the root and its leaves alone.
   */
  ghost predicate Quiet(ms: seq<Moment>, ts: seq<Turn>, k: Key, services: map<Key, Service>)
    requires |ms| == |ts| + 1
  {
    && (forall i :: 0 <= i < |ms| ==> ms[i].outside.services == services)
    && forall i :: 0 <= i < |ts| ==> QuietAt(ms, ts, k, i)
  }

  ghost predicate QuietAt(ms: seq<Moment>, ts: seq<Turn>, k: Key, i: nat)
    requires i < |ts| && |ms| == |ts| + 1
  {
    QuietMove(ms[i], ms[i + 1], ts[i], k)
  }

  ghost predicate QuietMove(m: Moment, m': Moment, t: Turn, k: Key) {
    && (t.step.WorkRoot? ==>
          && Mirrors(m.world.live, m.outside.store) && t.step.key in m.world.live
          && (IsOf(m, t, k) || AreSeparate(m.outside.store, m.world.live[t.step.key], k)))
    && (!IsWork(t.step) ==>
          Nudged(m.outside.store, m'.outside.store) || LeavesAlone(m.outside.store, m'.outside.store, k))
  }

  /** A work item of the root at `k`. */
  predicate IsOf(m: Moment, t: Turn, k: Key) {
    t.step.WorkRoot? && t.step.key in m.world.live && KeyOf(m.world.live[t.step.key]) == k
  }

  predicate Completes(m: Moment, t: Turn, k: Key) {
    IsOf(m, t, k) && !t.step.failed
  }

  /** How often the root's work items succeed among the first `n` turns. */
  function Completions(ms: seq<Moment>, ts: seq<Turn>, k: Key, n: nat): nat
    requires n <= |ts| <= |ms|
  {
    if n == 0 then 0
    else Completions(ms, ts, k, n - 1) + (if Completes(ms[n - 1], ts[n - 1], k) then 1 else 0)
  }

  function StoresOf(ms: seq<Moment>): seq<Store> {
    seq(|ms|, i requires 0 <= i < |ms| => ms[i].outside.store)
  }

  /** The root is stored, is no leaf of its own, and has its services. */
  ghost predicate Ready(s: Store, k: Key, services: map<Key, Service>) {
    && Filed(s) && k in s.ingresses
    && !Owned(s.ingresses[k], s.ingresses[k].name) && ServicesOf(s.ingresses[k], services).Some?
  }

  /** Every move is a beat of the run theorems. */
  lemma MoveIsABeat(config: Config, m: Moment, m': Moment, t: Turn, k: Key) returns (beat: Beat)
    requires Moves(config, m, m', t) && QuietMove(m, m', t, k)
    requires Ready(m.outside.store, k, m.outside.services)
    ensures Convergence.Follows(m.outside.store, m'.outside.store, beat, k, m.outside.services)
    ensures beat.Pass? <==> Completes(m, t, k)
    ensures Stores(beat) ==> IsUnder(beat.host, config.domain)
  {
    var s, s' := m.outside.store, m'.outside.store;
    if IsOf(m, t, k) {
      beat := RootMoveIsABeat(config, m, m', t, k);
    } else if s' == s {
      beat := Nothing;
    } else if t.step.WorkRoot? {
      SeparateMove(config, m, m', t, k);
      beat := Beat.Elsewhere;
    } else if LeavesAlone(s, s', k) {
      beat := Beat.Elsewhere;
    } else {
      StatusMove(config, m, m', t, k);
      var key, status :| s' == StatusSet(s, key, status);
      beat := Status(key, status);
    }
  }

  /** A work item of another root leaves this one alone. */
  lemma SeparateMove(config: Config, m: Moment, m': Moment, t: Turn, k: Key)
    requires Moves(config, m, m', t) && t.step.WorkRoot? && Mirrors(m.world.live, m.outside.store)
    requires t.step.key in m.world.live && AreSeparate(m.outside.store, m.world.live[t.step.key], k)
    requires m'.outside.store != m.outside.store
    ensures LeavesAlone(m.outside.store, m'.outside.store, k)
  {
    var s, s', live := m.outside.store, m'.outside.store, m.world.live;
    var root, host, trail := live[t.step.key], GeneratedHost(config, t.xid), t.trail.root;
    assert RootReport(
        live, s, s', root, m.outside.services, host, !t.step.failed, m'.outside.faults < m.outside.faults, trail);
    SeparatePass(s, s', live, root, host, trail, k);
  }

  lemma SeparatePass(
    s: Store, s': Store, live: map<string, Ingress>, root: Ingress, host: string, trail: RootTrail, k: Key)
    requires Mirrors(live, s) && AreSeparate(s, root, k)
    requires trail.services.None? ==> s' == HostStage(s, root, host)
    requires trail.services.Some? ==>
               Selected(trail.listing, live, root.name) && Planned(HostStage(s, root, host), s', root, trail)
    ensures LeavesAlone(s, s', k)
  {
    if trail.services.None? {
      OtherHostLeavesAlone(s, root, host, k);
    } else {
      ListingOfAMirrorIsFresh(trail.listing, live, s, root.name);
      HostStageKeepsListingsFresh(s, root, host, trail.listing, root.name);
      OtherPassLeavesAlone(s, root, host, trail.listing, ClustersOf(trail.services.value), trail.done, k);
    }
  }

  lemma StatusMove(config: Config, m: Moment, m': Moment, t: Turn, k: Key)
    requires Moves(config, m, m', t) && QuietMove(m, m', t, k) && !t.step.WorkRoot?
    requires !LeavesAlone(m.outside.store, m'.outside.store, k)
    ensures Nudged(m.outside.store, m'.outside.store)
  {
    if t.step.WorkLeaf? && m'.outside.store != m.outside.store {
      var root, listing := t.trail.leaf.root.value, t.trail.leaf.listing;
      assert m'.outside.store == StatusSet(m.outside.store, KeyOf(root), Advertised(config, root, listing));
    }
  }

  lemma RootMoveIsABeat(config: Config, m: Moment, m': Moment, t: Turn, k: Key) returns (beat: Beat)
    requires Moves(config, m, m', t) && QuietMove(m, m', t, k) && IsOf(m, t, k)
    requires Ready(m.outside.store, k, m.outside.services)
    ensures Convergence.Follows(m.outside.store, m'.outside.store, beat, k, m.outside.services)
    ensures beat.Pass? <==> Completes(m, t, k)
    ensures Stores(beat) ==> IsUnder(beat.host, config.domain)
  {
    var s, s', services, live := m.outside.store, m'.outside.store, m.outside.services, m.world.live;
    var root, host, trail := live[t.step.key], GeneratedHost(config, t.xid), t.trail.root;
    assert RootReport(
        live, s, s', root, services, host, !t.step.failed, m'.outside.faults < m.outside.faults, trail);
    if trail.services.None? {
      if s' == s {
        return Nothing;
      }
      UnplannedFailureIsCut(s, root, services, host);
      return Beat.Failed(host, [], 0);
    }
    if t.step.failed {
      CaughtUpFailureIsCut(s, s', live, root, services, host, trail);
      return Beat.Failed(host, trail.listing, trail.done);
    }
    CaughtUpPassIsHosted(s, s', live, root, services, host, trail);
    return Pass(host, trail.listing);
  }

  /** A text, a dot and the domain. */
  predicate IsUnder(host: string, domain: string) {
    Text.EndsWith(host, "." + domain)
  }

  ghost predicate AreBeatsOf(config: Config, beats: seq<Beat>, ms: seq<Moment>, ts: seq<Turn>, k: Key)
    requires |beats| <= |ts| <= |ms|
  {
    && (forall i :: 0 <= i < |beats| ==> (beats[i].Pass? <==> Completes(ms[i], ts[i], k)))
    && (forall b :: b in beats && Stores(b) ==> IsUnder(b.host, config.domain))
  }

  /** The stores of a quiet joint run are a run of passes over the root. */
  lemma {:induction false} StoresAreARun(
    config: Config, ms: seq<Moment>, ts: seq<Turn>, k: Key, services: map<Key, Service>, n: nat)
    returns (beats: seq<Beat>)
    requires JointRun(config, ms, ts) && Quiet(ms, ts, k, services) && n <= |ts|
    requires Ready(ms[0].outside.store, k, services)
    ensures |beats| == n && Convergence.Run(StoresOf(ms)[..n + 1], beats, k, services)
    ensures AreBeatsOf(config, beats, ms, ts, k) && Ready(ms[n].outside.store, k, services)
  {
    if n == 0 {
      beats := [];
    } else {
      var before := StoresAreARun(config, ms, ts, k, services, n - 1);
      var states := StoresOf(ms)[..n];
      assert MovesAt(config, ms, ts, n - 1) && QuietAt(ms, ts, k, n - 1);
      assert states[0] == ms[0].outside.store && states[n - 1] == ms[n - 1].outside.store;
      var beat := RunGrows(config, states, before, ms[n - 1], ms[n], ts[n - 1], k);
      beats := before + [beat];
      BeatsExtend(config, before, ms, ts, k, beat);
      assert states + [ms[n].outside.store] == StoresOf(ms)[..n + 1];
    }
  }

  lemma RunGrows(
    config: Config, states: seq<Store>, before: seq<Beat>, m: Moment, m': Moment, t: Turn, k: Key)
    returns (beat: Beat)
    requires Convergence.Run(states, before, k, m.outside.services)
    requires states[|before|] == m.outside.store && Ready(states[0], k, m.outside.services)
    requires Ready(m.outside.store, k, m.outside.services)
    requires Moves(config, m, m', t) && QuietMove(m, m', t, k)
    ensures Convergence.Run(states + [m'.outside.store], before + [beat], k, m.outside.services)
    ensures (beat.Pass? <==> Completes(m, t, k)) && (Stores(beat) ==> IsUnder(beat.host, config.domain))
    ensures Ready(m'.outside.store, k, m.outside.services)
  {
    beat := MoveIsABeat(config, m, m', t, k);
    RunExtends(states, before, m.outside.store, m'.outside.store, beat, k, m.outside.services);
    StaysReady(states + [m'.outside.store], before + [beat], k, m.outside.services);
  }

  lemma BeatsExtend(config: Config, before: seq<Beat>, ms: seq<Moment>, ts: seq<Turn>, k: Key, beat: Beat)
    requires |before| < |ts| <= |ms| && AreBeatsOf(config, before, ms, ts, k)
    requires beat.Pass? <==> Completes(ms[|before|], ts[|before|], k)
    requires Stores(beat) ==> IsUnder(beat.host, config.domain)
    ensures AreBeatsOf(config, before + [beat], ms, ts, k)
  {
  }

  lemma RunExtends(
    states: seq<Store>, beats: seq<Beat>, s: Store, t: Store, beat: Beat, k: Key, services: map<Key, Service>)
    requires Convergence.Run(states, beats, k, services) && states[|beats|] == s
    requires Convergence.Follows(s, t, beat, k, services)
    ensures Convergence.Run(states + [t], beats + [beat], k, services)
  {
  }

  lemma StaysReady(states: seq<Store>, beats: seq<Beat>, k: Key, services: map<Key, Service>)
    requires Convergence.Run(states, beats, k, services) && Ready(states[0], k, services)
    ensures Ready(states[|beats|], k, services)
  {
    var root := states[0].ingresses[k];
    RunReaches(states, beats, k, services);
    ContentShares(states[|beats|].ingresses[k], Hosted(root, beats));
  }

  lemma {:induction false} PassesAreCompletions(
    config: Config, beats: seq<Beat>, ms: seq<Moment>, ts: seq<Turn>, k: Key, n: nat)
    requires n <= |beats| <= |ts| <= |ms| && AreBeatsOf(config, beats, ms, ts, k)
    ensures Passes(beats[..n]) == Completions(ms, ts, k, n)
  {
    if n > 0 {
      PassesAreCompletions(config, beats, ms, ts, k, n - 1);
      assert beats[..n][..n - 1] == beats[..n - 1];
    }
  }

  /**
   The root is stored with its rules and the host added to its annotations, and has in its namespace a leaf for each
   cluster its services are in, with each rule once as it is and once for the host, and no other leaf.
   */
  ghost predicate HasConverged(s: Store, k: Key, root: Ingress, host: string, services: map<Key, Service>) {
    && k in s.ingresses && s.ingresses[k].rules == root.rules
    && s.ingresses[k].annotations == root.annotations["kuadrant.dev/host.generated" := host]
    && HasTheAskedLeaves(s, WithHost(root, host), services)
  }

  /** The host is the root's own if it came with one, and a generated one under the domain otherwise. */
  predicate IsHostFor(root: Ingress, host: string, domain: string) {
    var own := Lookup(root.annotations, "kuadrant.dev/host.generated");
    if own != "" then host == own else IsUnder(host, domain)
  }

  /** From the second successful run of the root's key on, the root has this host and its leaves are those for it. */
  ghost predicate ConvergesWith(
    config: Config, ms: seq<Moment>, ts: seq<Turn>, k: Key, services: map<Key, Service>, root: Ingress, host: string)
    requires |ms| == |ts| + 1
  {
    forall n :: 0 <= n <= |ts| && Completions(ms, ts, k, n) >= 2 ==>
      IsHostFor(root, host, config.domain) && HasConverged(ms[n].outside.store, k, root, host, services)
  }

  /**
   The work loop converges. In any quiet run there is one host such that from the second successful run of the root's
   key on, whatever calls failed before, between and after, and whatever passes of other roots ran, the root has that
   host and nothing else new, and its namespace has exactly the leaves of the clusters that the services named by its
   rules are labelled with.
   */
  lemma WorkLoopConverges(config: Config, ms: seq<Moment>, ts: seq<Turn>, k: Key, services: map<Key, Service>)
    requires JointRun(config, ms, ts) && Quiet(ms, ts, k, services) && Ready(ms[0].outside.store, k, services)
    ensures exists host :: ConvergesWith(config, ms, ts, k, services, ms[0].outside.store.ingresses[k], host)
  {
    var beats := StoresAreARun(config, ms, ts, k, services, |ts|);
    assert StoresOf(ms)[..|ts| + 1] == StoresOf(ms);
    BeatsConverge(config, ms, ts, beats, k, services);
  }

  lemma BeatsConverge(
    config: Config, ms: seq<Moment>, ts: seq<Turn>, beats: seq<Beat>, k: Key, services: map<Key, Service>)
    requires |ms| == |ts| + 1 && |beats| == |ts| && Ready(ms[0].outside.store, k, services)
    requires Convergence.Run(StoresOf(ms), beats, k, services) && AreBeatsOf(config, beats, ms, ts, k)
    ensures var root := ms[0].outside.store.ingresses[k];
            ConvergesWith(config, ms, ts, k, services, root, AssignedHost(root, beats))
  {
    var root := ms[0].outside.store.ingresses[k];
    forall n | 0 <= n <= |ts| && Completions(ms, ts, k, n) >= 2
      ensures IsHostFor(root, AssignedHost(root, beats), config.domain)
      ensures HasConverged(ms[n].outside.store, k, root, AssignedHost(root, beats), services)
    {
      PassesAreCompletions(config, beats, ms, ts, k, n);
      SettledAt(StoresOf(ms), beats, k, services, config.domain, n);
    }
  }

  lemma SettledAt(
    states: seq<Store>, beats: seq<Beat>, k: Key, services: map<Key, Service>, domain: string, n: nat)
    requires Convergence.Run(states, beats, k, services) && Ready(states[0], k, services)
    requires forall b :: b in beats && Stores(b) ==> IsUnder(b.host, domain)
    requires n <= |beats| && Passes(beats[..n]) >= 2
    ensures var root := states[0].ingresses[k];
            && IsHostFor(root, AssignedHost(root, beats), domain)
            && HasConverged(states[n], k, root, AssignedHost(root, beats), services)
  {
    var root := states[0].ingresses[k];
    assert forall b :: b in beats[..n] ==> b in beats;
    TwoPassesSettle(root, beats[..n]);
    FixedPoint(states, beats, k, services, n);
    if NeedsHost(root) {
      AssignedHostIsSomeBeats(root, beats);
    }
  }

  /** A host that the root did not come with is that of some beat. */
  lemma {:induction false} AssignedHostIsSomeBeats(root: Ingress, beats: seq<Beat>)
    requires NeedsHost(root) && AssignedHost(root, beats) != ""
    ensures exists b :: b in beats && Stores(b) && b.host == AssignedHost(root, beats)
  {
    var n := |beats| - 1;
    if AssignedHost(root, beats[..n]) != "" {
      AssignedHostIsSomeBeats(root, beats[..n]);
      var b :| b in beats[..n] && Stores(b) && b.host == AssignedHost(root, beats[..n]);
      assert b in beats;
    } else {
      assert beats[n] in beats;
    }
  }

  /****** Failures ******/

  predicate Fails(m: Moment, t: Turn, k: Key) {
    IsOf(m, t, k) && t.step.failed
  }

  function Failures(ms: seq<Moment>, ts: seq<Turn>, k: Key, n: nat): nat
    requires n <= |ts| <= |ms|
  {
    if n == 0 then 0 else Failures(ms, ts, k, n - 1) + (if Fails(ms[n - 1], ts[n - 1], k) then 1 else 0)
  }

  /** In a quiet run the root's work items fail at most as often as calls do. */
  lemma {:induction false} FailuresCostFaults(
    config: Config, ms: seq<Moment>, ts: seq<Turn>, k: Key, services: map<Key, Service>, n: nat)
    requires JointRun(config, ms, ts) && Quiet(ms, ts, k, services) && n <= |ts|
    requires Ready(ms[0].outside.store, k, services) && |k.name| <= 63
    ensures Failures(ms, ts, k, n) + ms[n].outside.faults <= ms[0].outside.faults
  {
    if n > 0 {
      FailuresCostFaults(config, ms, ts, k, services, n - 1);
      assert MovesAt(config, ms, ts, n - 1) && QuietAt(ms, ts, k, n - 1);
      var _ := StoresAreARun(config, ms, ts, k, services, n - 1);
      FailureCostsAFault(config, ms[n - 1], ms[n], ts[n - 1], k);
    }
  }

  lemma FailureCostsAFault(config: Config, m: Moment, m': Moment, t: Turn, k: Key)
    requires Moves(config, m, m', t) && QuietMove(m, m', t, k)
    requires Ready(m.outside.store, k, m.outside.services) && |k.name| <= 63
    ensures m'.outside.faults <= m.outside.faults
    ensures Fails(m, t, k) ==> m'.outside.faults < m.outside.faults
  {
    MoveIsStep(config, m, m', t);
    if Fails(m, t, k) {
      OnlyFaultsStopACaughtUpPass(
        m.outside.store, m.world.live, m.world.live[t.step.key], m.outside.services, GeneratedHost(config, t.xid),
        t.trail.root);
    }
  }
}
