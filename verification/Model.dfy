/** Optional values, for nil slices, missing keys and error returns. */
module Wrappers {
  datatype Option<+T> = None | Some(value: T)
}

/** The objects the controller works on, and the texts that name them. */
module Model {
  import opened Wrappers
  import Text

  const CLUSTER_LABEL := "kcp.dev/cluster"
  const OWNED_BY_LABEL := "kcp.dev/owned-by"
  const HOST_ANNOTATION := "kuadrant.dev/host.generated"

  datatype LoadBalancer = LoadBalancer(hostname: string, ip: string)

  datatype PathType = Exact | Prefix | ImplementationSpecific

  datatype Path = Path(path: string, pathType: PathType, service: string)

  /** `paths` is None for a nil slice, which the Envoy translation tells from an empty one. */
  datatype Rule = Rule(host: string, paths: Option<seq<Path>>)

  /** What the API server stores a namespaced object under. */
  datatype Key = Key(namespace: string, name: string)

  datatype Ingress = Ingress(
    namespace: string,
    cluster: string,
    name: string,
    uid: nat,
    version: nat,
    labels: map<string, string>,
    annotations: map<string, string>,
    deleting: bool,
    owners: seq<nat>,
    rules: seq<Rule>,
    status: seq<LoadBalancer>)

  datatype Service = Service(namespace: string, cluster: string, name: string, labels: map<string, string>)

  /** An informer hands out references to objects it keeps; this is one of those objects. */
  class IngressRef {
    var obj: Ingress

    constructor (obj: Ingress)
      ensures this.obj == obj
    {
      this.obj := obj;
    }

    /** Generated code in the source: an equal object that shares nothing with this one. */
    method DeepCopy() returns (copy: IngressRef)
      ensures fresh(copy) && copy.obj == obj
    {
      copy := new IngressRef(obj);
    }
  }

  /** A missing entry of a Go string map reads as the empty text. */
  function Lookup(m: map<string, string>, k: string): string {
    if k in m then m[k] else ""
  }

  function KeyOf(i: Ingress): Key {
    Key(i.namespace, i.name)
  }

  function PathsOf(r: Rule): seq<Path> {
    if r.paths.Some? then r.paths.value else []
  }

  /** The part of an ingress that Create and Update take from the caller. */
  function Content(i: Ingress): Ingress {
    i.(uid := 0, version := 0, status := [], deleting := false)
  }

  predicate IsLeaf(i: Ingress) {
    Lookup(i.labels, CLUSTER_LABEL) != ""
  }

  /** What the label selector built from a root's name matches. */
  predicate Owned(i: Ingress, rootName: string) {
    OWNED_BY_LABEL in i.labels && i.labels[OWNED_BY_LABEL] == rootName
  }

  /** A selector does not parse when the value is too long for a label. */
  predicate Selectable(rootName: string) {
    |rootName| <= 63
  }

  function Identify(namespace: string, cluster: string, name: string): string {
    namespace + "/" + cluster + "#$#" + name
  }

  function IngressKey(i: Ingress): string {
    Identify(i.namespace, i.cluster, i.name)
  }

  function ServiceKey(s: Service): string {
    Identify(s.namespace, s.cluster, s.name)
  }

  function LeafName(root: string, cluster: string): string {
    root + "--" + cluster
  }

  /** A key can be read back: two objects share a key only if they share all three parts. */
  lemma KeysAreDecodable(n1: string, c1: string, m1: string, n2: string, c2: string, m2: string)
    requires '/' !in n1 && '/' !in n2
    requires '#' !in c1 && '#' !in c2
    requires Identify(n1, c1, m1) == Identify(n2, c2, m2)
    ensures n1 == n2 && c1 == c2 && m1 == m2
  {
    var t1, t2 := c1 + ['#'] + ("$#" + m1), c2 + ['#'] + ("$#" + m2);
    assert Identify(n1, c1, m1) == n1 + ['/'] + t1;
    assert Identify(n2, c2, m2) == n2 + ['/'] + t2;
    Text.SplitAtFirst(n1, t1, n2, t2, '/');
    Text.SplitAtFirst(c1, "$#" + m1, c2, "$#" + m2, '#');
    assert m1 == ("$#" + m1)[2..] && m2 == ("$#" + m2)[2..];
  }

  /** Keys tell ingresses and services apart by their three parts, as long as these have no separators in them. */
  lemma KeysTellObjectsApart(a: Ingress, b: Ingress, s: Service, t: Service)
    requires '/' !in a.namespace && '/' !in b.namespace && '#' !in a.cluster && '#' !in b.cluster
    requires '/' !in s.namespace && '/' !in t.namespace && '#' !in s.cluster && '#' !in t.cluster
    ensures IngressKey(a) == IngressKey(b) <==> a.namespace == b.namespace && a.cluster == b.cluster && a.name == b.name
    ensures ServiceKey(s) == ServiceKey(t) <==> s.namespace == t.namespace && s.cluster == t.cluster && s.name == t.name
  {
    if IngressKey(a) == IngressKey(b) {
      KeysAreDecodable(a.namespace, a.cluster, a.name, b.namespace, b.cluster, b.name);
    }
    if ServiceKey(s) == ServiceKey(t) {
      KeysAreDecodable(s.namespace, s.cluster, s.name, t.namespace, t.cluster, t.name);
    }
  }

  /** Two root names make one leaf name, with some clusters, exactly when one, closed by "--", begins the other. */
  lemma LeafNamesCollideIff(r1: string, r2: string)
    ensures (exists c1, c2 :: c1 != "" && c2 != "" && LeafName(r1, c1) == LeafName(r2, c2))
       <==> (r1 + "--" <= r2 + "--" || r2 + "--" <= r1 + "--")
  {
    var a, b := r1 + "--", r2 + "--";
    if c1, c2 :| c1 != "" && c2 != "" && LeafName(r1, c1) == LeafName(r2, c2) {
      var t := LeafName(r1, c1);
      assert a == t[..|a|] && b == t[..|b|];
      if |a| <= |b| {
        assert a == b[..|a|];
      } else {
        assert b == a[..|b|];
      }
    }
    if a <= b {
      assert LeafName(r1, b[|a|..] + "c") == b + "c" == LeafName(r2, "c");
    }
    if b <= a {
      assert LeafName(r2, a[|b|..] + "c") == a + "c" == LeafName(r1, "c");
    }
  }

  /** A root name from which leaf names can be read back. */
  predicate PlainRootName(r: string) {
    && (forall i :: 0 <= i < |r| - 1 ==> !(r[i] == '-' && r[i + 1] == '-'))
    && (r != "" ==> r[|r| - 1] != '-')
  }

  /** Leaves of different roots never share a name when root names have no "--" and no trailing '-'. */
  lemma LeafNamesAreDecodable(r1: string, c1: string, r2: string, c2: string)
    requires PlainRootName(r1) && PlainRootName(r2)
    requires LeafName(r1, c1) == LeafName(r2, c2)
    ensures r1 == r2 && c1 == c2
  {
    var t := LeafName(r1, c1);
    if |r1| < |r2| {
      SeparatorIsFirst(r1, c1, r2, c2);
    } else if |r2| < |r1| {
      SeparatorIsFirst(r2, c2, r1, c1);
    }
    assert r1 == t[..|r1|] && r2 == t[..|r2|];
    assert c1 == t[|r1| + 2..] && c2 == t[|r2| + 2..];
  }

  lemma SeparatorIsFirst(r1: string, c1: string, r2: string, c2: string)
    requires PlainRootName(r2)
    requires LeafName(r1, c1) == LeafName(r2, c2)
    ensures |r2| <= |r1|
  {
    var t := LeafName(r1, c1);
    assert t[|r1|] == '-' && t[|r1| + 1] == '-';
    assert forall i :: 0 <= i < |r2| ==> LeafName(r2, c2)[i] == r2[i];
  }
}
