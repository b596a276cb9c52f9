/** The leaves that a root has in the store: exactly those of a plan, and what that is by services and labels. */
module StoredLeaves {
  import opened Wrappers
  import opened Model
  import opened ApiServer
  import opened Planning
  import opened RootPass

  /** In the root's namespace the store has exactly the leaves planned from `root`. */
  ghost predicate HasExactlyThePlan(s: Store, root: Ingress, services: seq<Service>) {
    forall k: Key :: k.namespace == root.namespace ==> MatchesPlan(LeavesOf(s, root.name), k, Desired(root, services))
  }

  ghost predicate MatchesPlan(leaves: map<Key, Ingress>, k: Key, desired: seq<Ingress>) {
    && (k in leaves <==> HasKey(desired, k))
    && (k in leaves ==> IsContentOf(leaves[k], desired))
  }

  /****** In terms of services and labels ******/

  /** The ingress under the key is labelled as owned by the root. */
  predicate StoredUnder(s: Store, rootName: string, k: Key) {
    && k in s.ingresses && "kcp.dev/owned-by" in s.ingresses[k].labels
    && s.ingresses[k].labels["kcp.dev/owned-by"] == rootName
  }

  /** The root's leaf in the cluster is there, with all its fields. */
  predicate StoresLeaf(s: Store, root: Ingress, cluster: string) {
    var k := Key(root.namespace, root.name + "--" + cluster);
    StoredUnder(s, root.name, k) && IsLeafFor(s.ingresses[k], root, cluster)
  }

  /**
   In its namespace the root has a leaf for each cluster that some service named by its rules is labelled with, with the
   fields that such a leaf should have, and it has no other leaf.
   */
  ghost predicate HasTheAskedLeaves(s: Store, root: Ingress, services: map<Key, Service>) {
    && (forall cluster :: Asks(root, services, cluster) ==> StoresLeaf(s, root, cluster))
    && (forall k: Key :: k.namespace == root.namespace && StoredUnder(s, root.name, k) ==> IsAsked(root, services, k))
  }

  ghost predicate IsAsked(root: Ingress, services: map<Key, Service>, k: Key) {
    exists cluster :: Asks(root, services, cluster) && k.name == root.name + "--" + cluster
  }

  /** A key is planned exactly when it is the leaf name of a cluster that the rules ask for. */
  lemma DesiredMeaning(root: Ingress, services: map<Key, Service>, k: Key)
    requires ServicesOf(root, services).Some?
    ensures HasKey(Desired(root, ServicesOf(root, services).value), k) <==>
              k.namespace == root.namespace && IsAsked(root, services, k)
  {
    var clusters := ClustersOf(ServicesOf(root, services).value);
    var desired := Plan(root, clusters);
    if HasKey(desired, k) {
      var i :| 0 <= i < |desired| && KeyOf(desired[i]) == k;
      AskedClusters(root, services, clusters[i]);
      assert k.name == root.name + "--" + clusters[i];
    }
    if k.namespace == root.namespace && IsAsked(root, services, k) {
      var cluster :| Asks(root, services, cluster) && k.name == root.name + "--" + cluster;
      AskedClusters(root, services, cluster);
      var i :| 0 <= i < |clusters| && clusters[i] == cluster;
      assert KeyOf(desired[i]) == k;
    }
  }

  /** The content of a planned leaf is that of the leaf its name stands for. */
  lemma DesiredContent(root: Ingress, clusters: seq<string>, leaf: Ingress, cluster: string)
    requires leaf.name == root.name + "--" + cluster && cluster in clusters && leaf.namespace == root.namespace
    ensures IsContentOf(Content(leaf), Plan(root, clusters)) <==> IsLeafFor(leaf, root, cluster)
  {
    var desired := Plan(root, clusters);
    if IsContentOf(Content(leaf), desired) {
      var j :| 0 <= j < |desired| && KeyOf(desired[j]) == KeyOf(Content(leaf))
                && Content(Content(leaf)) == Content(desired[j]);
      PlannedName(leaf, root, clusters[j], cluster);
      SameFields(leaf, desired[j], root, cluster);
    }
    if IsLeafFor(leaf, root, cluster) {
      var j :| 0 <= j < |clusters| && clusters[j] == cluster;
      FieldsMakeTheContent(leaf, root, cluster);
      assert KeyOf(desired[j]) == KeyOf(Content(leaf));
    }
  }

  lemma PlannedName(leaf: Ingress, root: Ingress, planned: string, cluster: string)
    requires KeyOf(LeafFor(root, planned)) == KeyOf(Content(leaf)) && leaf.name == root.name + "--" + cluster
    ensures planned == cluster
  {
    assert Content(leaf).name == leaf.name;
    assert planned == leaf.name[|root.name| + 2..] && cluster == leaf.name[|root.name| + 2..];
  }

  lemma SameFields(leaf: Ingress, planned: Ingress, root: Ingress, cluster: string)
    requires Content(leaf) == Content(planned) && planned == LeafFor(root, cluster)
    ensures IsLeafFor(leaf, root, cluster)
  {
    PlannedLeafMeaning(root, cluster);
    assert Content(leaf).(uid := 0) == Content(planned).(uid := 0);
  }

  lemma FieldsMakeTheContent(leaf: Ingress, root: Ingress, cluster: string)
    requires IsLeafFor(leaf, root, cluster)
    ensures Content(leaf) == Content(LeafFor(root, cluster))
  {
    assert leaf.rules == LeafRules(root);
  }

  /** To have exactly the plan is to have exactly the leaves that the services ask for. */
  lemma PlanIsWhatIsAsked(s: Store, root: Ingress, services: map<Key, Service>)
    requires Filed(s) && ServicesOf(root, services).Some?
    ensures HasExactlyThePlan(s, root, ServicesOf(root, services).value) <==> HasTheAskedLeaves(s, root, services)
  {
    var found := ServicesOf(root, services).value;
    if HasExactlyThePlan(s, root, found) {
      forall cluster | Asks(root, services, cluster)
        ensures StoresLeaf(s, root, cluster)
      {
        PlannedIsStored(s, root, services, cluster);
      }
      forall k: Key | k.namespace == root.namespace && StoredUnder(s, root.name, k)
        ensures IsAsked(root, services, k)
      {
        assert MatchesPlan(LeavesOf(s, root.name), k, Desired(root, found));
        DesiredMeaning(root, services, k);
      }
    }
    if HasTheAskedLeaves(s, root, services) {
      forall k: Key | k.namespace == root.namespace
        ensures MatchesPlan(LeavesOf(s, root.name), k, Desired(root, found))
      {
        AskedIsPlanned(s, root, services, k);
      }
    }
  }

  lemma PlannedIsStored(s: Store, root: Ingress, services: map<Key, Service>, cluster: string)
    requires Filed(s) && ServicesOf(root, services).Some? && Asks(root, services, cluster)
    requires HasExactlyThePlan(s, root, ServicesOf(root, services).value)
    ensures StoresLeaf(s, root, cluster)
  {
    var found, k := ServicesOf(root, services).value, Key(root.namespace, root.name + "--" + cluster);
    DesiredMeaning(root, services, k);
    assert MatchesPlan(LeavesOf(s, root.name), k, Desired(root, found));
    AskedClusters(root, services, cluster);
    DesiredContent(root, ClustersOf(found), s.ingresses[k], cluster);
  }

  lemma AskedIsPlanned(s: Store, root: Ingress, services: map<Key, Service>, k: Key)
    requires Filed(s) && ServicesOf(root, services).Some? && HasTheAskedLeaves(s, root, services)
    requires k.namespace == root.namespace
    ensures MatchesPlan(LeavesOf(s, root.name), k, Desired(root, ServicesOf(root, services).value))
  {
    var found := ServicesOf(root, services).value;
    DesiredMeaning(root, services, k);
    if IsAsked(root, services, k) {
      var cluster :| Asks(root, services, cluster) && k.name == root.name + "--" + cluster;
      assert StoresLeaf(s, root, cluster) && k == Key(root.namespace, root.name + "--" + cluster);
      AskedClusters(root, services, cluster);
      DesiredContent(root, ClustersOf(found), s.ingresses[k], cluster);
    } else {
      assert !StoredUnder(s, root.name, k);
    }
  }
}
