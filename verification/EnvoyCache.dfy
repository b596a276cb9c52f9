/** The cache of ingresses, and its flattening into one Envoy snapshot. */
module EnvoyCache {
  import opened Wrappers
  import opened Model
  import opened Translator

  datatype Snapshot = Snapshot(clusters: seq<Cluster>, virtualHosts: seq<VirtualHost>)

  /** `order` is one way to walk a map with these keys. */
  ghost predicate Enumerates(order: seq<string>, keys: set<string>) {
    && (forall k :: k in order <==> k in keys)
    && (forall i, j :: 0 <= i < j < |order| ==> order[i] != order[j])
  }

  ghost function Flatten(order: seq<string>, m: map<string, Ingress>): Snapshot
    requires forall k :: k in order ==> k in m
  {
    Snapshot(
      seq(|order|, i requires 0 <= i < |order| => ClusterFor(m[order[i]])),
      seq(|order|, i requires 0 <= i < |order| => VirtualHostFor(m[order[i]])))
  }

  ghost predicate IsSnapshotOf(snapshot: Snapshot, m: map<string, Ingress>) {
    exists order :: Enumerates(order, m.Keys) && snapshot == Flatten(order, m)
  }

  function Entered(ingresses: map<string, Ingress>, cached: Option<Ingress>): map<string, Ingress> {
    if cached.Some? then ingresses[IngressKey(cached.value) := cached.value] else ingresses
  }

  class Cache {
    var ingresses: map<string, Ingress>

    constructor ()
      ensures ingresses == map[]
    {
      ingresses := map[];
    }

    method UpdateIngress(ingress: Ingress)
      modifies this
      ensures ingresses == old(ingresses)[IngressKey(ingress) := ingress]
    {
      ingresses := ingresses - {IngressKey(ingress)};
      if IngressKey(ingress) !in ingresses {
        ingresses := ingresses[IngressKey(ingress) := ingress];
      }
    }

    method DeleteIngress(key: string)
      modifies this
      ensures ingresses == old(ingresses) - {key}
    {
      ingresses := ingresses - {key};
    }

    /** The map is walked in any order. */
    method ToEnvoySnapshot() returns (snapshot: Snapshot)
      ensures IsSnapshotOf(snapshot, ingresses)
    {
      var clusters, virtualHosts := [], [];
      var todo := ingresses.Keys;
      ghost var order := [];
      while todo != {}
        invariant todo <= ingresses.Keys
        invariant Enumerates(order, ingresses.Keys - todo)
        invariant Snapshot(clusters, virtualHosts) == Flatten(order, ingresses)
      {
        var key :| key in todo;
        var ingressClusters, ingressHosts := TranslateIngress(ingresses[key]);
        clusters := clusters + ingressClusters;
        virtualHosts := virtualHosts + ingressHosts;
        order := order + [key];
        todo := todo - {key};
      }
      assert ingresses.Keys - todo == ingresses.Keys;
      snapshot := Snapshot(clusters, virtualHosts);
    }
  }

  /****** Histories ******/

  datatype CacheOp = Put(ingress: Ingress) | Drop(key: string)

  function OpKey(op: CacheOp): string {
    match op
    case Put(ingress) => IngressKey(ingress)
    case Drop(key) => key
  }

  /** What the two methods leave after a history of calls. */
  function Contents(ops: seq<CacheOp>): map<string, Ingress> {
    if ops == [] then map[]
    else
      var before := Contents(ops[..|ops| - 1]);
      match ops[|ops| - 1]
      case Put(ingress) => before[IngressKey(ingress) := ingress]
      case Drop(key) => before - {key}
  }

  /** Call `i` wrote `key`, and no later call touched it. */
  ghost predicate LastWrite(ops: seq<CacheOp>, i: int, key: string) {
    && 0 <= i < |ops| && ops[i].Put? && OpKey(ops[i]) == key
    && forall j :: i < j < |ops| ==> OpKey(ops[j]) != key
  }

  /** The cache holds, per key, the ingress of the last write that nothing followed. */
  lemma {:induction false} ContentsAreLastWrites(ops: seq<CacheOp>, key: string)
    ensures key in Contents(ops) <==> exists i :: LastWrite(ops, i, key)
    ensures forall i :: LastWrite(ops, i, key) ==> key in Contents(ops) && Contents(ops)[key] == ops[i].ingress
  {
    if ops == [] {
    } else {
      var n := |ops| - 1;
      var before := ops[..n];
      ContentsAreLastWrites(before, key);
      if OpKey(ops[n]) == key {
        assert ops[n].Put? ==> LastWrite(ops, n, key);
        assert forall i :: LastWrite(ops, i, key) ==> i == n;
      } else {
        assert forall i :: LastWrite(ops, i, key) <==> LastWrite(before, i, key);
      }
    }
  }

  ghost predicate Keyed(m: map<string, Ingress>) {
    forall k :: k in m ==> IngressKey(m[k]) == k
  }

  lemma {:induction false} ContentsAreKeyed(ops: seq<CacheOp>)
    ensures Keyed(Contents(ops))
  {
    if ops == [] {
    } else {
      ContentsAreKeyed(ops[..|ops| - 1]);
    }
  }

  /****** What every snapshot satisfies ******/

  ghost predicate NamesDistinct(s: Snapshot) {
    && (forall i, j :: 0 <= i < j < |s.clusters| ==> s.clusters[i].name != s.clusters[j].name)
    && (forall i, j :: 0 <= i < j < |s.virtualHosts| ==> s.virtualHosts[i].name != s.virtualHosts[j].name)
  }

  ghost predicate HasCluster(s: Snapshot, name: string) {
    exists i :: 0 <= i < |s.clusters| && s.clusters[i].name == name
  }

  /** No route of the snapshot leads to a cluster the snapshot lacks. */
  ghost predicate RoutesResolve(s: Snapshot) {
    forall vh, r :: vh in s.virtualHosts && r in vh.routes ==> HasCluster(s, r.cluster)
  }

  /** Clusters and virtual hosts are each in one-to-one correspondence with the ingresses. */
  ghost predicate Corresponds(s: Snapshot, m: map<string, Ingress>) {
    && |s.clusters| == |s.virtualHosts| == |m|
    && (forall c :: c in s.clusters <==> c.name in m && c == ClusterFor(m[c.name]))
    && (forall vh :: vh in s.virtualHosts <==> vh.name in m && vh == VirtualHostFor(m[vh.name]))
  }

  lemma SnapshotAgrees(s: Snapshot, m: map<string, Ingress>)
    requires Keyed(m) && IsSnapshotOf(s, m)
    ensures NamesDistinct(s) && RoutesResolve(s) && Corresponds(s, m)
  {
    var order :| Enumerates(order, m.Keys) && s == Flatten(order, m);
    EnumerationLength(order, m.Keys);
    FlattenNames(order, m);
    FlattenResolves(order, m);
    FlattenCorresponds(order, m);
  }

  lemma FlattenNames(order: seq<string>, m: map<string, Ingress>)
    requires Keyed(m) && Enumerates(order, m.Keys)
    ensures var s := Flatten(order, m);
            && NamesDistinct(s)
            && forall i :: 0 <= i < |order| ==> s.clusters[i].name == order[i] == s.virtualHosts[i].name
  {
  }

  lemma FlattenResolves(order: seq<string>, m: map<string, Ingress>)
    requires Keyed(m) && Enumerates(order, m.Keys)
    ensures RoutesResolve(Flatten(order, m))
  {
    var s := Flatten(order, m);
    forall vh, r | vh in s.virtualHosts && r in vh.routes
      ensures HasCluster(s, r.cluster)
    {
      var i :| 0 <= i < |s.virtualHosts| && vh == s.virtualHosts[i];
      RoutesMeaning(m[order[i]], 0, "");
      assert s.clusters[i].name == r.cluster;
    }
  }

  lemma FlattenCorresponds(order: seq<string>, m: map<string, Ingress>)
    requires Keyed(m) && Enumerates(order, m.Keys) && |order| == |m|
    ensures Corresponds(Flatten(order, m), m)
  {
    var s := Flatten(order, m);
    forall c: Cluster
      ensures c in s.clusters <==> c.name in m && c == ClusterFor(m[c.name])
    {
      if c in s.clusters {
        var i :| 0 <= i < |s.clusters| && c == s.clusters[i];
        assert order[i] in m && c == ClusterFor(m[order[i]]);
      }
      if c.name in m && c == ClusterFor(m[c.name]) {
        var i :| 0 <= i < |order| && order[i] == c.name;
        assert c == s.clusters[i];
      }
    }
    forall vh: VirtualHost
      ensures vh in s.virtualHosts <==> vh.name in m && vh == VirtualHostFor(m[vh.name])
    {
      if vh in s.virtualHosts {
        var i :| 0 <= i < |s.virtualHosts| && vh == s.virtualHosts[i];
        assert order[i] in m && vh == VirtualHostFor(m[order[i]]);
      }
      if vh.name in m && vh == VirtualHostFor(m[vh.name]) {
        var i :| 0 <= i < |order| && order[i] == vh.name;
        assert vh == s.virtualHosts[i];
      }
    }
  }

  lemma {:induction false} EnumerationLength(order: seq<string>, keys: set<string>)
    requires Enumerates(order, keys)
    ensures |order| == |keys|
  {
    if order == [] {
      assert keys == {};
    } else {
      var last := order[|order| - 1];
      var rest := order[..|order| - 1];
      assert forall k :: k in rest <==> k in keys - {last};
      EnumerationLength(rest, keys - {last});
    }
  }

  /**
   After any history of updates and deletes, whatever order the map is walked in: the snapshot has exactly
   the clusters and virtual hosts of the last-written ingresses, under distinct names, and no dangling route.
   */
  lemma SnapshotOfHistory(ops: seq<CacheOp>, s: Snapshot)
    requires IsSnapshotOf(s, Contents(ops))
    ensures NamesDistinct(s) && RoutesResolve(s)
    ensures forall c :: c in s.clusters <==> exists i :: LastWrite(ops, i, c.name) && c == ClusterFor(ops[i].ingress)
    ensures forall vh :: vh in s.virtualHosts
                    <==> exists i :: LastWrite(ops, i, vh.name) && vh == VirtualHostFor(ops[i].ingress)
  {
    ContentsAreKeyed(ops);
    SnapshotAgrees(s, Contents(ops));
    forall c: Cluster
      ensures c in s.clusters <==> exists i :: LastWrite(ops, i, c.name) && c == ClusterFor(ops[i].ingress)
    {
      ContentsAreLastWrites(ops, c.name);
    }
    forall vh: VirtualHost
      ensures vh in s.virtualHosts
         <==> exists i :: LastWrite(ops, i, vh.name) && vh == VirtualHostFor(ops[i].ingress)
    {
      ContentsAreLastWrites(ops, vh.name);
    }
  }
}
