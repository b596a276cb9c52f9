/** The leaf branch of reconcile: DNS record, aggregated status, Envoy snapshot, advertised status. */
module LeafReconciler {
  import opened Wrappers
  import opened Model
  import opened ApiServer
  import opened Translator
  import opened EnvoyCache
  import opened WorkQueue
  import opened LeafPass
  import opened Informer
  import opened System
  import Text

  /** The xDS server, as the snapshot it serves. Setting one fails by using up a fault, with or without effect. */
  class Xds {
    var served: Snapshot
    var faults: nat

    constructor (faults: nat)
      ensures served == Snapshot([], []) && this.faults == faults
    {
      served, this.faults := Snapshot([], []), faults;
    }

    method SetSnapshot(snapshot: Snapshot) returns (ok: bool)
      modifies this
      ensures ok ==> served == snapshot
      ensures !ok ==> served == snapshot || served == old(served)
      ensures if ok then faults == old(faults) else faults < old(faults)
    {
      ok := true;
      if faults > 0 {
        if * {
          ok, faults := false, faults - 1;
          if * {
            return;
          }
        }
      }
      served := snapshot;
    }
  }

  /** The controller's fixed configuration. */
  datatype Config = Config(envoy: bool, domain: string, hash: string -> string)

  /**
   What a leaf pass did: the root and the leaves it read, whether it got past the DNS stage, the snapshot it set if that
   took effect, whether the status write met a conflict, and what it put into the cache.
   */
  datatype LeafTrail = LeafTrail(
    root: Option<Ingress>,
    listing: seq<Ingress>,
    settled: bool,
    published: Option<Snapshot>,
    conflicted: bool,
    cached: Option<Ingress>)

  function RootHost(root: Ingress): string {
    Lookup(root.annotations, HOST_ANNOTATION)
  }

  /** The root as the Envoy cache gets it: with the status of all listed leaves. */
  function Merged(root: Ingress, listing: seq<Ingress>): Ingress {
    root.(status := Aggregate(listing))
  }

  /** The status the root gets. */
  function Advertised(config: Config, root: Ingress, listing: seq<Ingress>): seq<LoadBalancer>
    requires config.envoy ==> root.rules != []
  {
    if config.envoy then [LoadBalancer(StatusHost(config.domain, Merged(root, listing), config.hash), "")]
    else Aggregate(listing)
  }

  /** Puts the root into the cache and sends Envoy a new snapshot of the whole cache. */
  method Publish(cache: Cache, xds: Xds, rootIngress: IngressRef) returns (ok: bool, ghost published: Option<Snapshot>)
    modifies cache, xds
    ensures cache.ingresses == Entered(old(cache.ingresses), Some(rootIngress.obj))
    ensures xds.served == Served(old(xds.served), published)
    ensures published.Some? ==> IsSnapshotOf(published.value, cache.ingresses)
    ensures if ok then published.Some? && xds.faults == old(xds.faults) else xds.faults < old(xds.faults)
  {
    cache.UpdateIngress(rootIngress.obj);
    var snapshot := cache.ToEnvoySnapshot();
    ok := xds.SetSnapshot(snapshot);
    published := if ok || xds.served == snapshot then Some(snapshot) else None;
  }

  /** How the status write ended: done, refused for a conflict and requeued, or failed with or without effect. */
  ghost predicate StatusOutcome(
    before: Store, after: Store, k: Key, status: seq<LoadBalancer>, ok: bool, conflicted: bool)
  {
    && (conflicted ==> ok && after == before)
    && (ok && !conflicted ==> k in before.ingresses && after == StatusSet(before, k, status))
    && (!ok ==> after == before || after == StatusSet(before, k, status))
  }

  method WriteStatus(api: Api, queue: Queue, leaf: IngressRef, rootIngress: IngressRef)
    returns (ok: bool, ghost conflicted: bool)
    modifies api`store, api`faults, queue`queued, queue`requeues
    ensures StatusOutcome(old(api.store), api.store, KeyOf(rootIngress.obj), rootIngress.obj.status, ok, conflicted)
    ensures queue.State() == Requeued(old(queue.State()), IngressKey(leaf.obj), conflicted)
    ensures api.faults <= old(api.faults)
    ensures !ok ==> api.faults < old(api.faults) || KeyOf(rootIngress.obj) !in old(api.store.ingresses)
  {
    conflicted := false;
    var r := api.UpdateStatus(rootIngress.obj);
    if r == Ok {
      return true, false;
    }
    if r == Conflict {
      queue.AddRateLimited(IngressKey(leaf.obj));
      return true, true;
    }
    return false, false;
  }

  /** Everything after the DNS stage, on a copy of the root. */
  method UpdateRoot(
    config: Config, api: Api, cache: Cache, xds: Xds, queue: Queue,
    leaf: IngressRef, root: IngressRef, others: seq<Ingress>)
    returns (ok: bool, ghost published: Option<Snapshot>, ghost conflicted: bool)
    requires config.envoy ==> root.obj.rules != []
    modifies api`store, api`faults, cache, xds, queue`queued, queue`requeues
    ensures cache.ingresses == Entered(old(cache.ingresses), CachedRoot(config, root.obj, others, true))
    ensures xds.served == Served(old(xds.served), published)
    ensures published.Some? ==> config.envoy && IsSnapshotOf(published.value, cache.ingresses)
    ensures ok ==> published.Some? == config.envoy
    ensures config.envoy && published.None? ==> api.store == old(api.store)
    ensures api.faults <= old(api.faults) && xds.faults <= old(xds.faults)
    ensures StatusOutcome(
              old(api.store), api.store, KeyOf(root.obj), Advertised(config, root.obj, others), ok, conflicted)
    ensures queue.State() == Requeued(old(queue.State()), IngressKey(leaf.obj), conflicted)
    ensures !ok ==> (
              api.faults < old(api.faults) || xds.faults < old(xds.faults)
              || KeyOf(root.obj) !in old(api.store.ingresses))
  {
    published, conflicted := None, false;
    var rootIngress := root.DeepCopy();
    rootIngress.obj := rootIngress.obj.(status := []);
    var status := AggregateStatus(others);
    rootIngress.obj := rootIngress.obj.(status := status);
    if config.envoy {
      ok, published := Publish(cache, xds, rootIngress);
      if !ok {
        return;
      }
      var statusHost := GenerateStatusHost(config.domain, rootIngress.obj, config.hash);
      rootIngress.obj := rootIngress.obj.(status := [LoadBalancer(statusHost, "")]);
    }
    ok, conflicted := WriteStatus(api, queue, leaf, rootIngress);
  }

  /** The ingress that a pass puts into the cache, if it gets there. */
  function CachedRoot(config: Config, root: Ingress, listing: seq<Ingress>, settled: bool): Option<Ingress> {
    if config.envoy && settled then Some(Merged(root, listing)) else None
  }

  /** The DNS stage decided, and the records follow the decision. */
  ghost predicate Settles(
    records: map<Key, DnsRecord>, records': map<Key, DnsRecord>, leaf: Ingress, root: Ingress, resolve: Resolver)
  {
    && !VerdictFor(leaf, RootHost(root), resolve).Unresolvable?
    && records' == Settled(records, KeyOf(leaf), VerdictFor(leaf, RootHost(root), resolve))
  }

  /** `root` is what the indexer has under the leaf's owner label, and `listing` are all leaves with that label. */
  ghost predicate Found(live: map<string, Ingress>, leaf: Ingress, root: Ingress, listing: seq<Ingress>) {
    && |Lookup(leaf.labels, "kcp.dev/owned-by")| <= 63
    && RootKeyOf(leaf) in live && root == live[RootKeyOf(leaf)] && IngressKey(root) == RootKeyOf(leaf)
    && Selected(listing, live, Lookup(leaf.labels, OWNED_BY_LABEL))
  }

  predicate HaveRules(live: map<string, Ingress>) {
    forall k :: k in live ==> live[k].rules != []
  }

  /** The root named by the leaf's owner label, in the leaf's namespace and workspace, and all leaves of that label. */
  method FindRoot(indexer: Indexer, leaf: IngressRef) returns (root: Option<IngressRef>, others: seq<Ingress>)
    requires indexer.Valid()
    ensures root.Some? ==> Found(indexer.live, leaf.obj, root.value.obj, others)
    ensures root.None? ==> (
              !Selectable(Lookup(leaf.obj.labels, OWNED_BY_LABEL)) || RootKeyOf(leaf.obj) !in indexer.live)
  {
    var rootName := Lookup(leaf.obj.labels, OWNED_BY_LABEL);
    if !Selectable(rootName) {
      return None, [];
    }
    others := indexer.List(rootName);
    var rootKey := Identify(leaf.obj.namespace, leaf.obj.cluster, rootName);
    if rootKey !in indexer.items {
      return None, others;
    }
    return Some(indexer.items[rootKey]), others;
  }

  /**
   What a leaf pass wrote to the API. Before it got past the DNS stage: at most the leaf's record. After: the record
   follows the verdict, and the root's status write ended as said; with Envoy on it comes after the snapshot.
   */
  ghost predicate LeafWrites(
    config: Config, store: Store, store': Store, records: map<Key, DnsRecord>, records': map<Key, DnsRecord>,
    leaf: Ingress, resolve: Resolver, ok: bool, trail: LeafTrail)
  {
    if trail.root.None? then !trail.settled && store' == store && records' == records
    else if !trail.settled then
      store' == store && (records' == records || Settles(records, records', leaf, trail.root.value, resolve))
    else
      && Settles(records, records', leaf, trail.root.value, resolve)
      && (config.envoy ==> trail.root.value.rules != [])
      && (config.envoy && trail.published.None? ==> store' == store)
      && StatusOutcome(
           store, store', KeyOf(trail.root.value), Advertised(config, trail.root.value, trail.listing),
           ok, trail.conflicted)
  }

  /** Why a leaf pass may fail although no call does: a label too long to select by, no root under it, or as below. */
  ghost predicate LeafMayFail(live: map<string, Ingress>, store: Store, leaf: Ingress, resolve: Resolver) {
    || !Selectable(Lookup(leaf.labels, OWNED_BY_LABEL))
    || RootKeyOf(leaf) !in live
    || RootMayFail(store, leaf, live[RootKeyOf(leaf)], resolve)
  }

  /** Why a pass on a root may fail although no call does: a name that does not resolve, a root no longer stored. */
  ghost predicate RootMayFail(store: Store, leaf: Ingress, root: Ingress, resolve: Resolver) {
    VerdictFor(leaf, RootHost(root), resolve).Unresolvable? || KeyOf(root) !in store.ingresses
  }

  /** What a leaf pass read and wrote. It fails only after a failed call (`spent`) or for a reason of `LeafMayFail`. */
  ghost predicate LeafReport(
    config: Config, live: map<string, Ingress>, store: Store, store': Store,
    records: map<Key, DnsRecord>, records': map<Key, DnsRecord>, leaf: Ingress, resolve: Resolver,
    ok: bool, spent: bool, trail: LeafTrail)
  {
    match trail
    case LeafTrail(root, listing, settled, _, conflicted, _) =>
      && (root.Some? ==> Found(live, leaf, root.value, listing))
      && LeafWrites(config, store, store', records, records', leaf, resolve, ok, trail)
      && (ok ==> settled) && (conflicted ==> ok)
      && (!ok ==> spent || LeafMayFail(live, store, leaf, resolve))
  }

  /****** Published snapshots ******/

  function Entries(leaves: seq<Ingress>): nat {
    if leaves == [] then 0 else Entries(leaves[..|leaves| - 1]) + |leaves[|leaves| - 1].status|
  }

  lemma {:induction false} AggregateLength(leaves: seq<Ingress>)
    ensures |Aggregate(leaves)| == Entries(leaves)
  {
    if leaves == [] {
    } else {
      AggregateLength(leaves[..|leaves| - 1]);
    }
  }

  /** The snapshot's cluster of the root has one endpoint per load-balancer entry of all listed leaves, in order. */
  ghost predicate ServesRoot(served: Snapshot, root: Ingress, listing: seq<Ingress>) {
    && HasCluster(served, IngressKey(root))
    && forall c :: c in served.clusters && c.name == IngressKey(root) ==> HasEndpointsOf(c, Aggregate(listing))
  }

  /**
   What a leaf pass published. The cache has the root with the status of all listed leaves, and so does the snapshot,
   whether or not the pass went on to write the one advertised host as the root's own status.
   */
  ghost predicate LeafPublishes(config: Config, envoy: map<string, Ingress>, ok: bool, trail: LeafTrail) {
    match trail
    case LeafTrail(root, listing, settled, published, _, cached) =>
      && cached == (if root.None? then None else CachedRoot(config, root.value, listing, settled))
      && (cached.Some? && published.None? ==> !ok) && (config.envoy && ok ==> published.Some?)
      && (published.Some? ==>
            && config.envoy && settled && root.Some?
            && IsSnapshotOf(published.value, envoy) && ServesRoot(published.value, root.value, listing))
  }

  /** Any snapshot of the cache that a leaf pass leaves behind has all endpoints of the root it was for. */
  lemma SnapshotHasAllEndpoints(
    config: Config, before: map<string, Ingress>, after: map<string, Ingress>, served: Snapshot, root: Ingress,
    listing: seq<Ingress>)
    requires Keyed(before) && after == Entered(before, CachedRoot(config, root, listing, true))
    requires config.envoy && IsSnapshotOf(served, after)
    ensures Keyed(after) && ServesRoot(served, root, listing)
    ensures |Aggregate(listing)| == Entries(listing)
  {
    SnapshotAgrees(served, after);
    AggregateLength(listing);
    assert after[IngressKey(root)] == Merged(root, listing);
    MergedClusterServes(served, root, listing);
  }

  lemma MergedClusterServes(served: Snapshot, root: Ingress, listing: seq<Ingress>)
    requires ClusterFor(Merged(root, listing)) in served.clusters
    requires forall c :: c in served.clusters && c.name == IngressKey(root) ==> c == ClusterFor(Merged(root, listing))
    ensures ServesRoot(served, root, listing)
  {
    assert ClusterFor(Merged(root, listing)).name == IngressKey(root);
  }

  /** With Envoy on, the advertised status is one host, under the domain. */
  lemma AdvertisedIsOneHost(config: Config, root: Ingress, listing: seq<Ingress>)
    requires config.envoy && root.rules != []
    ensures |Advertised(config, root, listing)| == 1
    ensures Text.Contains(Advertised(config, root, listing)[0].hostname, config.domain)
  {
    StatusHostIsStable(config.domain, Merged(root, listing), Merged(root, listing), config.hash);
  }

  /** The trails a leaf pass may leave between these stores and records, with the cache now `envoy`. */
  ghost function LeafTrails(
    config: Config, live: map<string, Ingress>, store: Store, store': Store,
    records: map<Key, DnsRecord>, records': map<Key, DnsRecord>, envoy: map<string, Ingress>, leaf: Ingress,
    resolve: Resolver, ok: bool, spent: bool): iset<LeafTrail>
  {
    iset trail |
      && LeafReport(config, live, store, store', records, records', leaf, resolve, ok, spent, trail)
      && LeafPublishes(config, envoy, ok, trail)
  }

  /****** What a leaf pass leaves behind ******/

  /**
   Once a pass got past the DNS stage, the leaf has a record exactly when it is not being deleted, its root has a
   generated host and it has an entry; the record is then for that host.
   */
  lemma SettledLeafIsExposedAsItShould(
    config: Config, live: map<string, Ingress>, store: Store, store': Store,
    records: map<Key, DnsRecord>, records': map<Key, DnsRecord>, leaf: Ingress, resolve: Resolver,
    ok: bool, spent: bool, trail: LeafTrail)
    requires LeafReport(config, live, store, store', records, records', leaf, resolve, ok, spent, trail)
    requires trail.settled
    ensures trail.root.Some?
    ensures var annotations := trail.root.value.annotations;
            if "kuadrant.dev/host.generated" in annotations then
              IsExposedAsItShould(records', leaf, annotations["kuadrant.dev/host.generated"], resolve)
            else IsExposedAsItShould(records', leaf, "", resolve)
  {
    VerdictMeaning(records, leaf, RootHost(trail.root.value), resolve);
  }

  /**
   A pass that succeeds without a conflict has written the root's status. Without Envoy that is every entry as often as
   the listed leaves report it, in their order; with Envoy it is one host: that of the first rule when the hosts of all
   rules contain the domain, and a hash under the domain as soon as one does not.
   */
  lemma WrittenStatus(
    config: Config, live: map<string, Ingress>, store: Store, store': Store,
    records: map<Key, DnsRecord>, records': map<Key, DnsRecord>, leaf: Ingress, resolve: Resolver,
    spent: bool, trail: LeafTrail)
    requires LeafReport(config, live, store, store', records, records', leaf, resolve, true, spent, trail)
    requires !trail.conflicted
    ensures trail.root.Some? && KeyOf(trail.root.value) in store'.ingresses
    ensures var root, status := trail.root.value, store'.ingresses[KeyOf(trail.root.value)].status;
            if config.envoy then
              && root.rules != [] && |status| == 1 && status[0].ip == ""
              && ((forall i :: 0 <= i < |root.rules| ==> Text.Contains(root.rules[i].host, config.domain)) ==>
                    status[0].hostname == root.rules[0].host)
              && ((exists i :: 0 <= i < |root.rules| && !Text.Contains(root.rules[i].host, config.domain)) ==>
                    status[0].hostname == config.hash(root.name + root.namespace + root.cluster) + "." + config.domain)
            else
              && (forall lb :: multiset(status)[lb] == Reported(trail.listing, lb))
              && (forall i :: 0 <= i < |trail.listing| ==>
                    Aggregate(trail.listing[..i]) + trail.listing[i].status <= status)
  {
    var root, listing := trail.root.value, trail.listing;
    if config.envoy {
      AdvertisedHost(config, root, listing);
    } else {
      forall lb
        ensures multiset(Aggregate(listing))[lb] == Reported(listing, lb)
      {
        AggregateConservesEntries(listing, lb);
      }
      forall i | 0 <= i < |listing|
        ensures Aggregate(listing[..i]) + listing[i].status <= Aggregate(listing)
      {
        AggregateAround(listing, i);
      }
    }
  }

  lemma AdvertisedHost(config: Config, root: Ingress, listing: seq<Ingress>)
    requires config.envoy && root.rules != []
    ensures var status := Advertised(config, root, listing);
            && |status| == 1 && status[0].ip == ""
            && ((forall i :: 0 <= i < |root.rules| ==> Text.Contains(root.rules[i].host, config.domain)) ==>
                  status[0].hostname == root.rules[0].host)
            && ((exists i :: 0 <= i < |root.rules| && !Text.Contains(root.rules[i].host, config.domain)) ==>
                  status[0].hostname == config.hash(root.name + root.namespace + root.cluster) + "." + config.domain)
  {
  }

  /****** Leaf passes ******/

  /** A leaf pass on the root and the leaves it found. */
  method UpdateFromLeaf(
    config: Config, api: Api, cache: Cache, xds: Xds, queue: Queue,
    leaf: IngressRef, root: IngressRef, others: seq<Ingress>, resolve: Resolver)
    returns (ok: bool, ghost trail: LeafTrail)
    requires config.envoy ==> root.obj.rules != []
    requires Keyed(cache.ingresses)
    modifies api`store, api`records, api`faults, cache, xds, queue`queued, queue`requeues
    ensures trail.root == Some(root.obj) && trail.listing == others
    ensures Keyed(cache.ingresses) && LeafPublishes(config, cache.ingresses, ok, trail)
    ensures ok ==> trail.settled
    ensures trail.conflicted ==> ok
    ensures api.faults <= old(api.faults) && xds.faults <= old(xds.faults)
    ensures LeafWrites(
              config, old(api.store), api.store, old(api.records), api.records, leaf.obj, resolve, ok, trail)
    ensures cache.ingresses == Entered(old(cache.ingresses), trail.cached)
    ensures xds.served == Served(old(xds.served), trail.published)
    ensures queue.State() == Requeued(old(queue.State()), IngressKey(leaf.obj), trail.conflicted)
    ensures !ok ==> (
              api.faults < old(api.faults) || xds.faults < old(xds.faults)
              || RootMayFail(old(api.store), leaf.obj, root.obj, resolve))
  {
    var rootHostname := Lookup(root.obj.annotations, HOST_ANNOTATION);
    var synced := SyncRecord(api, leaf.obj, rootHostname, resolve);
    if !synced {
      return false, LeafTrail(Some(root.obj), others, false, None, false, None);
    }
    ghost var published, conflicted;
    ok, published, conflicted := UpdateRoot(config, api, cache, xds, queue, leaf, root, others);
    if published.Some? {
      SnapshotHasAllEndpoints(
        config, old(cache.ingresses), cache.ingresses, published.value, root.obj, others);
    }
    trail := LeafTrail(
      Some(root.obj), others, true, published, conflicted, CachedRoot(config, root.obj, others, true));
  }

  /** One leaf pass. */
  method ReconcileLeaf(
    config: Config, api: Api, cache: Cache, xds: Xds, queue: Queue, indexer: Indexer,
    leaf: IngressRef, resolve: Resolver)
    returns (ok: bool, ghost trail: LeafTrail)
    requires indexer.Valid() && (config.envoy ==> HaveRules(indexer.live))
    requires Keyed(cache.ingresses)
    modifies api`store, api`records, api`faults, cache, xds, queue`queued, queue`requeues
    ensures api.faults <= old(api.faults) && xds.faults <= old(xds.faults)
    ensures trail in LeafTrails(
                       config, indexer.live, old(api.store), api.store, old(api.records), api.records,
                       cache.ingresses, leaf.obj, resolve, ok, api.faults + xds.faults < old(api.faults + xds.faults))
    ensures Keyed(cache.ingresses)
    ensures cache.ingresses == Entered(old(cache.ingresses), trail.cached)
    ensures xds.served == Served(old(xds.served), trail.published)
    ensures queue.State() == Requeued(old(queue.State()), IngressKey(leaf.obj), trail.conflicted)
  {
    var root, others := FindRoot(indexer, leaf);
    if root.None? {
      return false, LeafTrail(None, others, false, None, false, None);
    }
    ok, trail := UpdateFromLeaf(config, api, cache, xds, queue, leaf, root.value, others, resolve);
  }
}
