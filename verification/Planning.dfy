/** Which leaves a root ingress wants, and which listed leaves it no longer wants. */
module Planning {
  import opened Wrappers
  import opened Model

  /****** Services ******/

  /** The names of the services the rules send traffic to, in order. */
  function ServiceNames(rules: seq<Rule>): seq<string> {
    if rules == [] then []
    else ServiceNames(rules[..|rules| - 1]) + PathServices(PathsOf(rules[|rules| - 1]))
  }

  function PathServices(paths: seq<Path>): seq<string> {
    seq(|paths|, i requires 0 <= i < |paths| => paths[i].service)
  }

  /** One missing service invalidates all. */
  function Fetched(names: seq<string>, namespace: string, services: map<Key, Service>): Option<seq<Service>> {
    if names == [] then Some([])
    else
      var before, k := Fetched(names[..|names| - 1], namespace, services), Key(namespace, names[|names| - 1]);
      if before.Some? && k in services then Some(before.value + [services[k]]) else None
  }

  /** Fetching succeeds exactly when every named service is stored, and then yields them name by name. */
  lemma {:induction false} FetchedMeaning(names: seq<string>, namespace: string, services: map<Key, Service>)
    ensures var f := Fetched(names, namespace, services);
            && (f.Some? <==> forall i :: 0 <= i < |names| ==> Key(namespace, names[i]) in services)
            && (f.Some? ==> |f.value| == |names|)
            && (f.Some? ==> forall i :: 0 <= i < |names| ==> f.value[i] == services[Key(namespace, names[i])])
  {
    if names == [] {
    } else {
      FetchedMeaning(names[..|names| - 1], namespace, services);
    }
  }

  /** Path `j` of rule `i` sends traffic to the service. */
  predicate RefersAt(rules: seq<Rule>, i: int, j: int, name: string) {
    && 0 <= i < |rules| && rules[i].paths.Some?
    && 0 <= j < |rules[i].paths.value| && rules[i].paths.value[j].service == name
  }

  /** The names are those of all paths of all rules. */
  lemma {:induction false} ServiceNamesMeaning(rules: seq<Rule>, name: string)
    ensures name in ServiceNames(rules) <==> exists i, j :: RefersAt(rules, i, j, name)
  {
    if rules != [] {
      var n := |rules| - 1;
      ServiceNamesMeaning(rules[..n], name);
      assert forall i, j :: i < n ==> (RefersAt(rules[..n], i, j, name) <==> RefersAt(rules, i, j, name));
      PathServicesMeaning(rules, n, name);
      if i, j :| RefersAt(rules, i, j, name) {
        assert i < n ==> RefersAt(rules[..n], i, j, name);
      }
    }
  }

  lemma PathServicesMeaning(rules: seq<Rule>, i: nat, name: string)
    requires i < |rules|
    ensures name in PathServices(PathsOf(rules[i])) <==> exists j :: RefersAt(rules, i, j, name)
  {
    var paths := PathsOf(rules[i]);
    if name in PathServices(paths) {
      var j :| 0 <= j < |paths| && PathServices(paths)[j] == name;
      assert RefersAt(rules, i, j, name);
    }
    if j :| RefersAt(rules, i, j, name) {
      assert PathServices(paths)[j] == name;
    }
  }

  /** They come in the order of the rules and, within a rule, of its paths. */
  lemma {:induction false} ServiceNamesInOrder(rules: seq<Rule>, i: nat)
    requires i < |rules|
    ensures ServiceNames(rules[..i]) + PathServices(PathsOf(rules[i])) <= ServiceNames(rules)
  {
    var n := |rules| - 1;
    if i < n {
      assert rules[..n][..i] == rules[..i];
      ServiceNamesInOrder(rules[..n], i);
    }
  }

  function ServicesOf(root: Ingress, services: map<Key, Service>): Option<seq<Service>> {
    Fetched(ServiceNames(root.rules), root.namespace, services)
  }

  /** All services that the rules name are looked up in the root's namespace: each must be there, and each is found. */
  lemma ServicesMeaning(root: Ingress, services: map<Key, Service>)
    ensures ServicesOf(root, services).Some? <==>
              forall i, j, name :: RefersAt(root.rules, i, j, name) ==> Key(root.namespace, name) in services
    ensures ServicesOf(root, services).Some? ==>
              forall s :: s in ServicesOf(root, services).value <==>
                exists i, j, name :: FindsAt(root, services, i, j, name, s)
  {
    FetchSucceedsIff(root, services);
    if ServicesOf(root, services).Some? {
      forall s
        ensures s in ServicesOf(root, services).value <==> exists i, j, name :: FindsAt(root, services, i, j, name, s)
      {
        FoundMeaning(root, services, s);
      }
    }
  }

  lemma FetchSucceedsIff(root: Ingress, services: map<Key, Service>)
    ensures ServicesOf(root, services).Some? <==>
              forall i, j, name :: RefersAt(root.rules, i, j, name) ==> Key(root.namespace, name) in services
  {
    var names := ServiceNames(root.rules);
    FetchedMeaning(names, root.namespace, services);
    if ServicesOf(root, services).Some? {
      forall i, j, name | RefersAt(root.rules, i, j, name)
        ensures Key(root.namespace, name) in services
      {
        ServiceNamesMeaning(root.rules, name);
      }
    } else {
      var n :| 0 <= n < |names| && Key(root.namespace, names[n]) !in services;
      ServiceNamesMeaning(root.rules, names[n]);
    }
  }

  /** Path `j` of rule `i` names the service `s` of the root's namespace. */
  predicate FindsAt(root: Ingress, services: map<Key, Service>, i: int, j: int, name: string, s: Service) {
    && RefersAt(root.rules, i, j, name)
    && Key(root.namespace, name) in services && services[Key(root.namespace, name)] == s
  }

  lemma FoundMeaning(root: Ingress, services: map<Key, Service>, s: Service)
    requires ServicesOf(root, services).Some?
    ensures s in ServicesOf(root, services).value <==> exists i, j, name :: FindsAt(root, services, i, j, name, s)
  {
    var names, found := ServiceNames(root.rules), ServicesOf(root, services).value;
    FetchedMeaning(names, root.namespace, services);
    if s in found {
      var n :| 0 <= n < |found| && found[n] == s;
      ServiceNamesMeaning(root.rules, names[n]);
      var i, j :| RefersAt(root.rules, i, j, names[n]);
      assert FindsAt(root, services, i, j, names[n], s);
    }
    if i, j, name :| FindsAt(root, services, i, j, name, s) {
      ServiceNamesMeaning(root.rules, name);
      var n :| 0 <= n < |names| && names[n] == name;
      assert found[n] == s;
    }
  }

  function ClustersOf(services: seq<Service>): seq<string> {
    if services == [] then []
    else
      var cluster := Lookup(services[|services| - 1].labels, CLUSTER_LABEL);
      ClustersOf(services[..|services| - 1]) + (if cluster != "" then [cluster] else [])
  }

  predicate IsIn(s: Service, cluster: string) {
    "kcp.dev/cluster" in s.labels && s.labels["kcp.dev/cluster"] == cluster
  }

  /** Every cluster that some service is labelled with, and no other; the empty label is none. */
  lemma {:induction false} ClustersMeaning(services: seq<Service>, cluster: string)
    ensures cluster in ClustersOf(services) <==> cluster != "" && exists s :: s in services && IsIn(s, cluster)
  {
    if services != [] {
      var n := |services| - 1;
      ClustersMeaning(services[..n], cluster);
      assert services == services[..n] + [services[n]] && services[n] in services;
      assert cluster != "" ==> (Lookup(services[n].labels, CLUSTER_LABEL) == cluster <==> IsIn(services[n], cluster));
      if s :| s in services && IsIn(s, cluster) {
        assert s in services[..n] || s == services[n];
      }
      if s :| s in services[..n] && IsIn(s, cluster) {
        assert s in services;
      }
    }
  }

  /** Some service that the rules name is labelled with the cluster. */
  ghost predicate Asks(root: Ingress, services: map<Key, Service>, cluster: string) {
    cluster != "" && exists i, j, name, s :: FindsAt(root, services, i, j, name, s) && IsIn(s, cluster)
  }

  lemma AskedClusters(root: Ingress, services: map<Key, Service>, cluster: string)
    requires ServicesOf(root, services).Some?
    ensures cluster in ClustersOf(ServicesOf(root, services).value) <==> Asks(root, services, cluster)
  {
    var found := ServicesOf(root, services).value;
    ClustersMeaning(found, cluster);
    if s :| s in found && IsIn(s, cluster) {
      FoundMeaning(root, services, s);
      var i, j, name :| FindsAt(root, services, i, j, name, s);
    }
    if i, j, name, s :| FindsAt(root, services, i, j, name, s) && IsIn(s, cluster) {
      FoundMeaning(root, services, s);
    }
  }

  /****** Leaves ******/

  function GlobalRules(rules: seq<Rule>, host: string): seq<Rule> {
    seq(|rules|, i requires 0 <= i < |rules| => rules[i].(host := host))
  }

  function LeafRules(root: Ingress): seq<Rule> {
    if HOST_ANNOTATION in root.annotations
    then root.rules + GlobalRules(root.rules, root.annotations[HOST_ANNOTATION])
    else root.rules
  }

  function LeafFor(root: Ingress, cluster: string): Ingress {
    root.(
      name := LeafName(root.name, cluster),
      labels := map[CLUSTER_LABEL := cluster, OWNED_BY_LABEL := root.name],
      owners := [],
      version := 0,
      rules := LeafRules(root))
  }

  function Plan(root: Ingress, clusters: seq<string>): seq<Ingress> {
    seq(|clusters|, i requires 0 <= i < |clusters| => LeafFor(root, clusters[i]))
  }

  /** The leaves of the clusters of the fetched services. */
  function Desired(root: Ingress, services: seq<Service>): seq<Ingress> {
    Plan(root, ClustersOf(services))
  }

  /** The leaf of a root in a cluster, field by field: each rule as it is, and once more for a generated host. */
  predicate IsLeafFor(leaf: Ingress, root: Ingress, cluster: string) {
    && leaf.namespace == root.namespace && leaf.cluster == root.cluster && leaf.name == root.name + "--" + cluster
    && leaf.labels == map["kcp.dev/cluster" := cluster, "kcp.dev/owned-by" := root.name]
    && leaf.annotations == root.annotations && leaf.owners == []
    && |leaf.rules| == (if "kuadrant.dev/host.generated" in root.annotations then 2 * |root.rules| else |root.rules|)
    && (forall i :: 0 <= i < |root.rules| ==> leaf.rules[i] == root.rules[i])
    && (forall i :: |root.rules| <= i < |leaf.rules| ==>
          && leaf.rules[i].host == root.annotations["kuadrant.dev/host.generated"]
          && leaf.rules[i].paths == root.rules[i - |root.rules|].paths)
  }

  /** What is planned is such a leaf; with a cluster, it is a leaf to reconcile. */
  lemma PlannedLeafMeaning(root: Ingress, cluster: string)
    ensures IsLeafFor(LeafFor(root, cluster), root, cluster)
    ensures IsLeaf(LeafFor(root, cluster)) <==> cluster != ""
  {
  }

  predicate HasName(list: seq<Ingress>, name: string) {
    exists i :: 0 <= i < |list| && list[i].name == name
  }

  predicate HasKey(list: seq<Ingress>, k: Key) {
    exists i :: 0 <= i < |list| && KeyOf(list[i]) == k
  }

  predicate DistinctKeys(list: seq<Ingress>) {
    forall i, j :: 0 <= i < j < |list| ==> KeyOf(list[i]) != KeyOf(list[j])
  }

  function NonDesired(current: seq<Ingress>, desired: seq<Ingress>): seq<Ingress> {
    if current == [] then []
    else
      var last := current[|current| - 1];
      NonDesired(current[..|current| - 1], desired) + (if HasName(desired, last.name) then [] else [last])
  }

  lemma {:induction false} NonDesiredMeaning(current: seq<Ingress>, desired: seq<Ingress>)
    ensures forall c :: c in NonDesired(current, desired) <==> c in current && !HasName(desired, c.name)
  {
    if current == [] {
    } else {
      var n := |current| - 1;
      NonDesiredMeaning(current[..n], desired);
      assert current == current[..n] + [current[n]];
    }
  }

  /** Desired leaves with one key agree: services in one cluster ask for the same leaf. */
  ghost predicate Consistent(desired: seq<Ingress>) {
    forall i, j :: 0 <= i < |desired| && 0 <= j < |desired| && KeyOf(desired[i]) == KeyOf(desired[j])
      ==> Content(desired[i]) == Content(desired[j])
  }

  lemma PlanIsConsistent(root: Ingress, clusters: seq<string>)
    ensures Consistent(Plan(root, clusters))
    ensures forall d :: d in Plan(root, clusters)
              ==> d.namespace == root.namespace && Owned(d, root.name) && IsPrefixed(d.name, root.name)
  {
    var plan := Plan(root, clusters);
    forall i, j | 0 <= i < |plan| && 0 <= j < |plan| && KeyOf(plan[i]) == KeyOf(plan[j])
      ensures Content(plan[i]) == Content(plan[j])
    {
      var t := plan[i].name;
      assert clusters[i] == t[|root.name| + 2..] && clusters[j] == t[|root.name| + 2..];
    }
  }

  predicate IsPrefixed(name: string, root: string) {
    root + "--" <= name
  }

  /****** What the expanded rules mean ******/

  /** The paths a request host selects, in rule order, under any notion of host matching. */
  ghost function Backends(rules: seq<Rule>, host: string, matches: (string, string) -> bool): seq<Path> {
    if rules == [] then []
    else (if matches(rules[0].host, host) then PathsOf(rules[0]) else []) + Backends(rules[1..], host, matches)
  }

  function AllPaths(rules: seq<Rule>): seq<Path> {
    if rules == [] then [] else PathsOf(rules[0]) + AllPaths(rules[1..])
  }

  lemma {:induction false} BackendsAppend(a: seq<Rule>, b: seq<Rule>, host: string, matches: (string, string) -> bool)
    ensures Backends(a + b, host, matches) == Backends(a, host, matches) + Backends(b, host, matches)
  {
    if a == [] {
      assert a + b == b;
    } else {
      BackendsAppend(a[1..], b, host, matches);
      assert (a + b)[1..] == a[1..] + b;
    }
  }

  lemma {:induction false} BackendsGlobal(
    rules: seq<Rule>, generated: string, host: string, matches: (string, string) -> bool)
    ensures Backends(GlobalRules(rules, generated), host, matches)
         == if matches(generated, host) then AllPaths(rules) else []
  {
    if rules == [] {
    } else {
      BackendsGlobal(rules[1..], generated, host, matches);
      assert GlobalRules(rules, generated)[1..] == GlobalRules(rules[1..], generated);
    }
  }

  /**
   A leaf serves every request host as its root does, in the same order, and after that adds all paths of
   all root rules for the hosts that match the generated name. Nothing is added before a name is generated.
   */
  lemma LeafServesTheRootAndTheGlobalHost(
    root: Ingress, cluster: string, host: string, matches: (string, string) -> bool)
    ensures Backends(LeafFor(root, cluster).rules, host, matches)
         == Backends(root.rules, host, matches)
            + (if HOST_ANNOTATION in root.annotations && matches(root.annotations[HOST_ANNOTATION], host)
               then AllPaths(root.rules) else [])
  {
    if HOST_ANNOTATION in root.annotations {
      var generated := root.annotations[HOST_ANNOTATION];
      BackendsAppend(root.rules, GlobalRules(root.rules, generated), host, matches);
      BackendsGlobal(root.rules, generated, host, matches);
    }
  }
}
