/** Root passes over whole runs: interrupted passes, repeated passes, and passes of different roots. */
module Convergence {
  import opened Wrappers
  import opened Model
  import opened ApiServer
  import opened Planning
  import opened RootPass
  import opened StoredLeaves

  /****** Interrupted passes ******/

  /** The writes of a pass cut somewhere, a host stored at the start of one, or a status that somebody wrote. */
  datatype Event =
    | Attempt(listing: seq<Ingress>, desired: seq<Ingress>, cut: nat)
    | HostStored(key: Key, host: string)
    | StatusWritten(key: Key, status: seq<LoadBalancer>)

  function Happen(s: Store, e: Event): Store {
    match e
    case Attempt(listing, desired, cut) =>
      var all := |Writes(listing, desired)|;
      CutPass(s, listing, desired, if cut <= all then cut else all)
    case HostStored(k, host) => Annotated(s, k, host)
    case StatusWritten(k, status) => StatusSet(s, k, status)
  }

  /** The attempts are at the leaves of `desired`, with any contents; the hosts go to objects that are none of them. */
  ghost predicate SameLeaves(es: seq<Event>, desired: seq<Ingress>) {
    && (forall e :: e in es && e.Attempt? ==> SameKeys(e.desired, desired))
    && (forall e :: e in es && e.HostStored? ==> !HasName(desired, e.key.name))
  }

  function RunAll(s: Store, es: seq<Event>): Store {
    if es == [] then s else Happen(RunAll(s, es[..|es| - 1]), es[|es| - 1])
  }

  lemma {:induction false} RunIsFiled(s: Store, es: seq<Event>)
    requires Filed(s)
    ensures Filed(RunAll(s, es))
  {
    if es == [] {
    } else {
      var t, e := RunAll(s, es[..|es| - 1]), es[|es| - 1];
      RunIsFiled(s, es[..|es| - 1]);
      if e.Attempt? {
        var all := |Writes(e.listing, e.desired)|;
        CutPassEntries(t, e.listing, e.desired, if e.cut <= all then e.cut else all, Key("", ""));
      }
    }
  }

  /** The same leaves are desired, whatever their contents: with or without a generated host, say. */
  ghost predicate SameKeys(a: seq<Ingress>, b: seq<Ingress>) {
    forall k :: HasKey(a, k) <==> HasKey(b, k)
  }

  lemma SameKeysSameNames(a: seq<Ingress>, b: seq<Ingress>, name: string)
    requires SameKeys(a, b) && HasName(b, name)
    ensures HasName(a, name)
  {
    var i :| 0 <= i < |b| && b[i].name == name;
    assert HasKey(b, KeyOf(b[i]));
    KeyHasName(a, KeyOf(b[i]));
  }

  /** Attempts at the same leaves leave alone every leaf that shares only its name with a desired one. */
  lemma {:induction false} AttemptsKeepNamesakes(
    s: Store, es: seq<Event>, desired: seq<Ingress>, rootName: string, k: Key)
    requires Filed(s)
    requires SameLeaves(es, desired)
    requires HasName(desired, k.name) && !HasKey(desired, k)
    ensures var was, now := LeavesOf(s, rootName), LeavesOf(RunAll(s, es), rootName);
            (k in was <==> k in now) && (k in was ==> now[k] == was[k])
  {
    if es == [] {
    } else {
      var before, e := es[..|es| - 1], es[|es| - 1];
      AttemptsKeepNamesakes(s, before, desired, rootName, k);
      RunIsFiled(s, before);
      assert e in es;
      HappeningKeepsNamesake(RunAll(s, before), e, desired, k);
    }
  }

  lemma HappeningKeepsNamesake(t: Store, e: Event, desired: seq<Ingress>, k: Key)
    requires Filed(t) && HasName(desired, k.name) && !HasKey(desired, k)
    requires e.Attempt? ==> SameKeys(e.desired, desired)
    requires e.HostStored? ==> !HasName(desired, e.key.name)
    ensures var u := Happen(t, e);
            && (k in t.ingresses <==> k in u.ingresses)
            && (k in t.ingresses ==> Content(u.ingresses[k]) == Content(t.ingresses[k]))
  {
    if e.Attempt? {
      SameKeysSameNames(e.desired, desired, k.name);
      var all := |Writes(e.listing, e.desired)|;
      CutPassEntries(t, e.listing, e.desired, if e.cut <= all then e.cut else all, k);
    }
  }

  lemma OneContent(a: Ingress, b: Ingress, desired: seq<Ingress>)
    requires Consistent(desired) && KeyOf(a) == KeyOf(b)
    requires IsContentOf(a, desired) && IsContentOf(b, desired)
    ensures Content(a) == Content(b)
  {
  }

  /**
   Crash tolerance. A pass is attempted any number of times, each time from any listing however stale and cut at
   any write, storing hosts and desiring the same leaves with any contents, with statuses written in between. A later
   completed pass with a fresh listing ends with the same leaves, with the same contents, as one uninterrupted pass from
   the start.
   */
  lemma CrashTolerance(
    s: Store, es: seq<Event>, desired: seq<Ingress>, namespace: string, rootName: string,
    listing: seq<Ingress>, listing': seq<Ingress>)
    requires Filed(s) && LeavesOfRoot(desired, namespace, rootName)
    requires SameLeaves(es, desired)
    requires Fresh(listing, s, rootName) && Fresh(listing', RunAll(s, es), rootName)
    ensures LeavesOf(FullPass(RunAll(s, es), listing', desired), rootName)
         == LeavesOf(FullPass(s, listing, desired), rootName)
  {
    RunIsFiled(s, es);
    var t := RunAll(s, es);
    var direct := LeavesOf(FullPass(s, listing, desired), rootName);
    var retried := LeavesOf(FullPass(t, listing', desired), rootName);
    forall k
      ensures k in direct <==> k in retried
      ensures k in direct ==> retried[k] == direct[k]
    {
      FreshPassConverges(s, listing, desired, namespace, rootName, k);
      FreshPassConverges(t, listing', desired, namespace, rootName, k);
      if HasKey(desired, k) {
        FullPassIsFiled(s, listing, desired);
        FullPassIsFiled(t, listing', desired);
        OneContent(direct[k], retried[k], desired);
      } else if HasName(desired, k.name) {
        AttemptsKeepNamesakes(s, es, desired, rootName, k);
      }
    }
  }

  /** Whatever two stores went through before, a completed fresh pass makes the root's namespace the same in both. */
  lemma HistoryIsForgotten(
    s: Store, t: Store, desired: seq<Ingress>, rootName: string,
    listing: seq<Ingress>, listing': seq<Ingress>, k: Key)
    requires Filed(s) && Filed(t) && LeavesOfRoot(desired, k.namespace, rootName)
    requires Fresh(listing, s, rootName) && Fresh(listing', t, rootName)
    ensures var a := LeavesOf(FullPass(s, listing, desired), rootName);
            var b := LeavesOf(FullPass(t, listing', desired), rootName);
            (k in a <==> k in b) && (k in a ==> a[k] == b[k])
  {
    FreshPassConverges(s, listing, desired, k.namespace, rootName, k);
    FreshPassConverges(t, listing', desired, k.namespace, rootName, k);
    if HasKey(desired, k) {
      FullPassIsFiled(s, listing, desired);
      FullPassIsFiled(t, listing', desired);
      OneContent(
        LeavesOf(FullPass(s, listing, desired), rootName)[k], LeavesOf(FullPass(t, listing', desired), rootName)[k],
        desired);
    }
  }

  lemma FullPassIsFiled(s: Store, listing: seq<Ingress>, desired: seq<Ingress>)
    requires Filed(s)
    ensures Filed(FullPass(s, listing, desired))
  {
    var ws := Writes(listing, desired);
    assert ws[..|ws|] == ws;
    CutPassEntries(s, listing, desired, |ws|, Key("", ""));
  }

  /** The status last written to `k`, or the initial one. */
  function LastStatus(es: seq<Event>, k: Key, initial: seq<LoadBalancer>): seq<LoadBalancer> {
    if es == [] then initial
    else
      var e := es[|es| - 1];
      if e.StatusWritten? && e.key == k then e.status else LastStatus(es[..|es| - 1], k, initial)
  }

  /**
   A leaf desired by every attempt, whatever else the attempts desire, however stale their listings and wherever
   they are cut, is never deleted: it keeps its uid and its status until someone writes a status.
   */
  lemma {:induction false} DesiredLeafIsRetained(s: Store, es: seq<Event>, k: Key)
    requires Filed(s) && k in s.ingresses
    requires forall e :: e in es && e.Attempt? ==> HasKey(e.desired, k)
    ensures k in RunAll(s, es).ingresses
    ensures RunAll(s, es).ingresses[k].uid == s.ingresses[k].uid
    ensures RunAll(s, es).ingresses[k].status == LastStatus(es, k, s.ingresses[k].status)
  {
    if es == [] {
    } else {
      var before, e := es[..|es| - 1], es[|es| - 1];
      DesiredLeafIsRetained(s, before, k);
      RunIsFiled(s, before);
      assert e in es;
      if e.Attempt? {
        var all := |Writes(e.listing, e.desired)|;
        CutPassEntries(RunAll(s, before), e.listing, e.desired, if e.cut <= all then e.cut else all, k);
      }
    }
  }

  /****** Passes of different roots ******/

  /**
   A pass of one root, cut anywhere, leaves the leaves of every other root of the namespace as they are, provided
   leaf names can be read back.
   */
  lemma OtherRootsKeepTheirLeaves(
    s: Store, listing: seq<Ingress>, root: Ingress, clusters: seq<string>, cut: nat,
    other: string, cluster: string, k: Key)
    requires Filed(s) && Fresh(listing, s, root.name)
    requires cut <= |Writes(listing, Plan(root, clusters))|
    requires PlainRootName(root.name) && PlainRootName(other) && other != root.name
    requires k in s.ingresses && Owned(s.ingresses[k], other) && k.name == LeafName(other, cluster)
    ensures var t := CutPass(s, listing, Plan(root, clusters), cut);
            k in t.ingresses && t.ingresses[k] == s.ingresses[k]
  {
    var desired := Plan(root, clusters);
    if HasKey(desired, k) {
      var i :| 0 <= i < |desired| && KeyOf(desired[i]) == k;
      LeafNamesAreDecodable(root.name, clusters[i], other, cluster);
    }
    CutPassEntries(s, listing, desired, cut, k);
  }

  /**
   A pass of another root, cut anywhere, leaves a root and its leaves alone, when both have plain and different names
   and neither is labelled as a leaf of the other.
   */
  lemma OtherPassLeavesAlone(
    s: Store, other: Ingress, host: string, listing: seq<Ingress>, clusters: seq<string>, cut: nat, k: Key)
    requires AreSeparate(s, other, k) && Fresh(listing, HostStage(s, other, host), other.name)
    requires cut <= |Writes(listing, Plan(other, clusters))|
    ensures LeavesAlone(s, CutPass(HostStage(s, other, host), listing, Plan(other, clusters), cut), k)
  {
    var h, desired := HostStage(s, other, host), Plan(other, clusters);
    var t := CutPass(h, listing, desired, cut);
    CutPassEntries(h, listing, desired, cut, k);
    PlainIsNoLeaf(other, clusters, k);
    forall l: Key | l.namespace == k.namespace
      ensures LeafLeftAlone(LeavesOf(s, k.name), LeavesOf(t, k.name), l, k.name)
    {
      CutPassEntries(h, listing, desired, cut, l);
      OtherPassEntry(s, t, other, host, listing, clusters, k, l);
    }
  }

  lemma OtherHostLeavesAlone(s: Store, other: Ingress, host: string, k: Key)
    requires AreSeparate(s, other, k)
    ensures LeavesAlone(s, HostStage(s, other, host), k)
  {
  }

  ghost predicate AreSeparate(s: Store, other: Ingress, k: Key) {
    && Filed(s) && k in s.ingresses && KeyOf(other) in s.ingresses && s.ingresses[KeyOf(other)] == other
    && other.name != k.name && PlainRootName(other.name) && PlainRootName(k.name)
    && !Owned(other, k.name) && !Owned(s.ingresses[k], other.name)
  }

  lemma PlainIsNoLeaf(root: Ingress, clusters: seq<string>, k: Key)
    requires PlainRootName(k.name)
    ensures !HasKey(Plan(root, clusters), k)
  {
    var desired := Plan(root, clusters);
    forall i | 0 <= i < |desired|
      ensures desired[i].name != k.name
    {
      var name, n := desired[i].name, |root.name|;
      assert name[n] == '-' && name[n + 1] == '-';
    }
  }

  lemma OtherPassEntry(
    s: Store, t: Store, other: Ingress, host: string, listing: seq<Ingress>, clusters: seq<string>, k: Key, l: Key)
    requires AreSeparate(s, other, k) && Fresh(listing, HostStage(s, other, host), other.name)
    requires Entry(HostStage(s, other, host), t, listing, Plan(other, clusters), l)
    ensures LeafLeftAlone(LeavesOf(s, k.name), LeavesOf(t, k.name), l, k.name)
  {
    if l in LeavesOf(t, k.name) {
      OtherPassAddsNoLeaf(s, t, other, host, listing, clusters, k, l);
    }
    if l in LeavesOf(s, k.name) && IsPrefixed(l.name, k.name) {
      OtherPassDropsNoLeaf(s, t, other, host, listing, clusters, k, l);
    }
  }

  lemma OtherPassAddsNoLeaf(
    s: Store, t: Store, other: Ingress, host: string, listing: seq<Ingress>, clusters: seq<string>, k: Key, l: Key)
    requires AreSeparate(s, other, k) && l in LeavesOf(t, k.name)
    requires Entry(HostStage(s, other, host), t, listing, Plan(other, clusters), l)
    ensures l in LeavesOf(s, k.name) && LeavesOf(t, k.name)[l] == LeavesOf(s, k.name)[l]
  {
    var h, desired := HostStage(s, other, host), Plan(other, clusters);
    if IsContentOf(t.ingresses[l], desired) {
      PlanIsConsistent(other, clusters);
      DesiredIsOwned(t.ingresses[l], desired, other.name);
    } else {
      ContentShares(t.ingresses[l], h.ingresses[l]);
    }
  }

  lemma OtherPassDropsNoLeaf(
    s: Store, t: Store, other: Ingress, host: string, listing: seq<Ingress>, clusters: seq<string>, k: Key, l: Key)
    requires AreSeparate(s, other, k) && Fresh(listing, HostStage(s, other, host), other.name)
    requires Entry(HostStage(s, other, host), t, listing, Plan(other, clusters), l)
    requires l in LeavesOf(s, k.name) && IsPrefixed(l.name, k.name)
    ensures l in LeavesOf(t, k.name)
  {
    var desired := Plan(other, clusters);
    if HasKey(desired, l) {
      var i :| 0 <= i < |desired| && KeyOf(desired[i]) == l;
      var cluster := l.name[|k.name| + 2..];
      assert LeafName(k.name, cluster) == l.name;
      LeafNamesAreDecodable(other.name, clusters[i], k.name, cluster);
    }
  }

  lemma DesiredIsOwned(i: Ingress, desired: seq<Ingress>, rootName: string)
    requires IsContentOf(i, desired) && forall d :: d in desired ==> Owned(d, rootName)
    ensures Owned(i, rootName)
  {
    var j :| 0 <= j < |desired| && KeyOf(desired[j]) == KeyOf(i) && Content(i) == Content(desired[j]);
    ContentShares(i, desired[j]);
    assert desired[j] in desired;
  }

  /**
   Roots of one name in two namespaces are not separate: they list each other's leaves. A completed pass of one leaves
   the plan of the other in place exactly when it has all the clusters of the other.
   */
  lemma NamesakePassKeepsThePlanIff(
    s: Store, root: Ingress, services: seq<Service>, other: Ingress, others: seq<Service>, listing: seq<Ingress>)
    requires Filed(s) && HasExactlyThePlan(s, root, services)
    requires other.name == root.name && other.namespace != root.namespace && Fresh(listing, s, other.name)
    ensures HasExactlyThePlan(FullPass(s, listing, Desired(other, others)), root, services)
       <==> ClustersWithin(ClustersOf(services), ClustersOf(others))
  {
    NamesakesHaveTheName(root, ClustersOf(services), other, ClustersOf(others));
    NamesakePassKeepsNames(s, root, services, other, others, listing);
  }

  predicate ClustersWithin(clusters: seq<string>, others: seq<string>) {
    forall cluster :: cluster in clusters ==> cluster in others
  }

  /** Every leaf of the one list has a namesake in the other. */
  ghost predicate NamesWithin(desired: seq<Ingress>, others: seq<Ingress>) {
    forall l :: HasKey(desired, l) ==> HasName(others, l.name)
  }

  lemma NamesakePassKeepsNames(
    s: Store, root: Ingress, services: seq<Service>, other: Ingress, others: seq<Service>, listing: seq<Ingress>)
    requires Filed(s) && HasExactlyThePlan(s, root, services)
    requires other.name == root.name && other.namespace != root.namespace && Fresh(listing, s, other.name)
    ensures HasExactlyThePlan(FullPass(s, listing, Desired(other, others)), root, services)
       <==> NamesWithin(Desired(root, services), Desired(other, others))
  {
    var desired, t := Desired(root, services), FullPass(s, listing, Desired(other, others));
    if HasExactlyThePlan(t, root, services) {
      forall l | HasKey(desired, l)
        ensures HasName(Desired(other, others), l.name)
      {
        assert l.namespace == root.namespace;
        NamesakePassAt(s, root, services, other, others, listing, l);
      }
    }
    if NamesWithin(desired, Desired(other, others)) {
      forall l: Key | l.namespace == root.namespace
        ensures MatchesPlan(LeavesOf(t, root.name), l, desired)
      {
        NamesakePassAt(s, root, services, other, others, listing, l);
      }
    }
  }

  lemma NamesakePassAt(
    s: Store, root: Ingress, services: seq<Service>, other: Ingress, others: seq<Service>, listing: seq<Ingress>,
    l: Key)
    requires Filed(s) && HasExactlyThePlan(s, root, services) && l.namespace == root.namespace
    requires other.name == root.name && other.namespace != root.namespace && Fresh(listing, s, other.name)
    ensures MatchesPlan(LeavesOf(FullPass(s, listing, Desired(other, others)), root.name), l, Desired(root, services))
       <==> (HasKey(Desired(root, services), l) ==> HasName(Desired(other, others), l.name))
  {
    var desired' := Desired(other, others);
    PlanIsConsistent(other, ClustersOf(others));
    FreshPassConverges(s, listing, desired', other.namespace, other.name, l);
    assert MatchesPlan(LeavesOf(s, root.name), l, Desired(root, services));
    assert forall i :: 0 <= i < |desired'| ==> desired'[i].namespace == other.namespace;
  }

  lemma NamesakesHaveTheName(root: Ingress, clusters: seq<string>, other: Ingress, others: seq<string>)
    requires other.name == root.name
    ensures NamesWithin(Plan(root, clusters), Plan(other, others)) <==> ClustersWithin(clusters, others)
  {
    var desired, desired' := Plan(root, clusters), Plan(other, others);
    if NamesWithin(desired, desired') {
      forall cluster | cluster in clusters
        ensures cluster in others
      {
        var i :| 0 <= i < |clusters| && clusters[i] == cluster;
        assert HasKey(desired, KeyOf(desired[i]));
        var j :| 0 <= j < |desired'| && desired'[j].name == desired[i].name;
        assert clusters[i] == desired[i].name[|root.name| + 2..] == others[j];
      }
    }
    if ClustersWithin(clusters, others) {
      forall l | HasKey(desired, l)
        ensures HasName(desired', l.name)
      {
        var i :| 0 <= i < |desired| && KeyOf(desired[i]) == l;
        assert clusters[i] in others;
        var j :| 0 <= j < |others| && others[j] == clusters[i];
        assert desired'[j].name == l.name;
      }
    }
  }

  /** Roots "a" and "a--b": the first takes the leaf of the second over, which its owner then no longer lists. */
  lemma CollidingRootsExample(s: Store, listing: seq<Ingress>, a: Ingress, ab: Ingress)
    requires Filed(s) && a.name == "a" && ab.name == "a--b" && a.namespace == ab.namespace
    ensures PlainRootName(a.name) && !PlainRootName(ab.name)
    ensures var leaf := LeafFor(ab, "c");
            var t := FullPass(s, listing, Plan(a, ["b--c"]));
            Owned(leaf, ab.name) && KeyOf(leaf) !in LeavesOf(t, ab.name) && KeyOf(leaf) in LeavesOf(t, a.name)
  {
    var leaf, desired := LeafFor(ab, "c"), Plan(a, ["b--c"]);
    assert "a" + "--" + "b--c" == "a--b" + "--" + "c";
    assert ab.name[1] == '-' && ab.name[2] == '-';
    assert KeyOf(desired[0]) == KeyOf(leaf);
    PlanIsConsistent(a, ["b--c"]);
    DesiredIsStored(s, listing, desired, KeyOf(leaf));
    var t := FullPass(s, listing, desired);
    assert Content(t.ingresses[KeyOf(leaf)]).labels == desired[0].labels;
  }

  /****** Repeated passes ******/

  predicate NeedsHost(root: Ingress) {
    Lookup(root.annotations, HOST_ANNOTATION) == ""
  }

  /** The patch goes to the stored root only: the pass goes on with the root as it read it. */
  function HostStage(s: Store, root: Ingress, host: string): Store {
    if NeedsHost(root) then Annotated(s, KeyOf(root), host) else s
  }

  /** A completed pass that read the stored root and a fresh listing. */
  ghost predicate HostedPass(
    s: Store, t: Store, k: Key, services: map<Key, Service>, host: string, listing: seq<Ingress>)
  {
    && k in s.ingresses && host != ""
    && var root := s.ingresses[k];
    && ServicesOf(root, services).Some?
    && Fresh(listing, HostStage(s, root, host), root.name)
    && t == FullPass(HostStage(s, root, host), listing, Desired(root, ServicesOf(root, services).value))
  }

  /**
   A pass that read the stored root, stored the host, and was then cut at some write. Its listing may be stale, but
   never has the root among the leaves.
   */
  ghost predicate HostedCut(
    s: Store, t: Store, k: Key, services: map<Key, Service>, host: string, listing: seq<Ingress>, cut: nat)
  {
    && k in s.ingresses && host != ""
    && var root := s.ingresses[k];
    && ServicesOf(root, services).Some? && !HasKey(listing, k)
    && var desired := Desired(root, ServicesOf(root, services).value);
    && cut <= |Writes(listing, desired)|
    && t == CutPass(HostStage(s, root, host), listing, desired, cut)
  }

  /**
   A failed pass either got as far as storing the host and then some writes, or it changed nothing. `Elsewhere` is what
   leaves the root and its leaves alone, such as a pass of another root.
   */
  datatype Beat =
    | Pass(host: string, listing: seq<Ingress>)
    | Failed(host: string, listing: seq<Ingress>, cut: nat)
    | Status(key: Key, status: seq<LoadBalancer>)
    | Elsewhere
    | Nothing

  /** The root keeps its content, its namesake leaves stay as they are, and none are added. */
  ghost predicate LeavesAlone(s: Store, t: Store, k: Key) {
    && Filed(t) && k in s.ingresses && k in t.ingresses && Content(t.ingresses[k]) == Content(s.ingresses[k])
    && forall l: Key :: l.namespace == k.namespace ==>
         LeafLeftAlone(LeavesOf(s, k.name), LeavesOf(t, k.name), l, k.name)
  }

  /** Leaves that are labelled with the root but not named after it may go. */
  ghost predicate LeafLeftAlone(was: map<Key, Ingress>, now: map<Key, Ingress>, l: Key, rootName: string) {
    && (l in now ==> l in was && now[l] == was[l])
    && (l in was && IsPrefixed(l.name, rootName) ==> l in now)
  }

  /** Passes over one root with its services unchanged, completed and failed, and in between statuses and the like. */
  ghost predicate Run(states: seq<Store>, beats: seq<Beat>, k: Key, services: map<Key, Service>) {
    && |states| == |beats| + 1
    && forall i :: 0 <= i < |beats| ==> Follows(states[i], states[i + 1], beats[i], k, services)
  }

  ghost predicate Follows(s: Store, t: Store, beat: Beat, k: Key, services: map<Key, Service>) {
    match beat
    case Pass(host, listing) => HostedPass(s, t, k, services, host, listing)
    case Failed(host, listing, cut) => HostedCut(s, t, k, services, host, listing, cut)
    case Status(key, status) => t == StatusSet(s, key, status)
    case Elsewhere => LeavesAlone(s, t, k)
    case Nothing => t == s
  }

  predicate Stores(beat: Beat) {
    beat.Pass? || beat.Failed?
  }

  /** The host the root came with, or the one first stored for it; empty if there is none yet. */
  function AssignedHost(root: Ingress, beats: seq<Beat>): string {
    if !NeedsHost(root) then root.annotations[HOST_ANNOTATION]
    else if beats == [] then ""
    else
      var before := AssignedHost(root, beats[..|beats| - 1]);
      if before == "" && Stores(beats[|beats| - 1]) then beats[|beats| - 1].host else before
  }

  /** Some completed pass read the root with its host. */
  predicate Settled(root: Ingress, beats: seq<Beat>) {
    beats != []
    && (Settled(root, beats[..|beats| - 1])
        || (beats[|beats| - 1].Pass? && AssignedHost(root, beats[..|beats| - 1]) != ""))
  }

  function Passes(beats: seq<Beat>): nat {
    if beats == [] then 0 else Passes(beats[..|beats| - 1]) + (if beats[|beats| - 1].Pass? then 1 else 0)
  }

  function WithHost(root: Ingress, host: string): Ingress {
    root.(annotations := root.annotations[HOST_ANNOTATION := host])
  }

  lemma PassOutcome(s: Store, t: Store, k: Key, services: map<Key, Service>, host: string, listing: seq<Ingress>)
    requires Filed(s) && HostedPass(s, t, k, services, host, listing)
    requires !Owned(s.ingresses[k], s.ingresses[k].name)
    ensures Filed(t) && k in t.ingresses
    ensures var root := s.ingresses[k];
            && Content(t.ingresses[k]) == Content(if NeedsHost(root) then WithHost(root, host) else root)
            && HasExactlyThePlan(t, root, ServicesOf(root, services).value)
  {
    var root := s.ingresses[k];
    var h, desired := HostStage(s, root, host), Desired(root, ServicesOf(root, services).value);
    var ws := Writes(listing, desired);
    assert ws[..|ws|] == ws;
    CutPassEntries(h, listing, desired, |ws|, k);
    assert !HasKey(desired, k);
    PassPlansWhatItRead(h, listing, root, ServicesOf(root, services).value);
  }

  /** A completed pass with a fresh listing leaves exactly the leaves of the root as the pass read it. */
  lemma PassPlansWhatItRead(h: Store, listing: seq<Ingress>, read: Ingress, services: seq<Service>)
    requires Filed(h) && Fresh(listing, h, read.name)
    ensures HasExactlyThePlan(FullPass(h, listing, Desired(read, services)), read, services)
  {
    var desired := Desired(read, services);
    PlanIsConsistent(read, ClustersOf(services));
    forall l: Key | l.namespace == read.namespace
      ensures MatchesPlan(LeavesOf(FullPass(h, listing, desired), read.name), l, desired)
    {
      FreshPassConverges(h, listing, desired, read.namespace, read.name, l);
    }
  }

  /** A completed pass keeps its own root exactly when the root is not labelled as a leaf of its own name. */
  lemma RootSurvivesIff(s: Store, t: Store, k: Key, services: map<Key, Service>, host: string, listing: seq<Ingress>)
    requires Filed(s) && HostedPass(s, t, k, services, host, listing)
    ensures k in t.ingresses <==> !Owned(s.ingresses[k], s.ingresses[k].name)
  {
    var root := s.ingresses[k];
    if Owned(root, root.name) {
      var h, desired := HostStage(s, root, host), Desired(root, ServicesOf(root, services).value);
      PlanIsConsistent(root, ClustersOf(ServicesOf(root, services).value));
      CompletedPass(h, listing, desired);
      assert HasKey(listing, k) && !HasName(desired, k.name);
    } else {
      PassOutcome(s, t, k, services, host, listing);
    }
  }

  /** A root labelled as owned by itself: its own completed pass lists it as a leftover and deletes it. */
  lemma SelfOwnedRootExample(root: Ingress, services: map<Key, Service>)
    requires root.name == "web" && root.rules == [] && root.labels == map[OWNED_BY_LABEL := "web"]
    ensures var s := Store(map[KeyOf(root) := root], 1);
            forall t, listing :: HostedPass(s, t, KeyOf(root), services, "h.hcp.dev", listing) ==> t.ingresses == map[]
  {
    var s := Store(map[KeyOf(root) := root], 1);
    forall t, listing | HostedPass(s, t, KeyOf(root), services, "h.hcp.dev", listing)
      ensures t.ingresses == map[]
    {
      RootSurvivesIff(s, t, KeyOf(root), services, "h.hcp.dev", listing);
      assert ServicesOf(root, services) == Some([]);
      OnlyTheRootIsStored(s, t, root, "h.hcp.dev", listing);
    }
  }

  lemma OnlyTheRootIsStored(s: Store, t: Store, root: Ingress, host: string, listing: seq<Ingress>)
    requires s == Store(map[KeyOf(root) := root], 1)
    requires t == FullPass(HostStage(s, root, host), listing, [])
    ensures t.ingresses.Keys <= {KeyOf(root)}
  {
    var h, ws := HostStage(s, root, host), Writes(listing, []);
    assert ws[..|ws|] == ws;
    assert h.ingresses.Keys == {KeyOf(root)};
    forall k | k in t.ingresses
      ensures k == KeyOf(root)
    {
      CutPassEntries(h, listing, [], |ws|, k);
    }
  }

  lemma SamePlan(s: Store, a: Ingress, b: Ingress, services: seq<Service>)
    requires Content(a) == Content(b) && HasExactlyThePlan(s, a, services)
    ensures HasExactlyThePlan(s, b, services)
  {
    assert Content(a).name == a.name && Content(b).name == b.name;
    assert Content(a).namespace == a.namespace && Content(b).namespace == b.namespace;
    var pa, pb := Desired(a, services), Desired(b, services);
    forall i | 0 <= i < |pa|
      ensures Content(pa[i]) == Content(pb[i]) && KeyOf(pa[i]) == KeyOf(pb[i])
    {
      LeafContent(a, b, ClustersOf(services)[i]);
    }
    forall k: Key | k.namespace == b.namespace
      ensures MatchesPlan(LeavesOf(s, b.name), k, pb)
    {
      assert MatchesPlan(LeavesOf(s, a.name), k, pa);
    }
  }

  lemma LeafContent(a: Ingress, b: Ingress, cluster: string)
    requires Content(a) == Content(b)
    ensures Content(LeafFor(a, cluster)) == Content(LeafFor(b, cluster))
    ensures KeyOf(LeafFor(a, cluster)) == KeyOf(LeafFor(b, cluster))
  {
  }

  lemma StatusKeepsLeaves(s: Store, key: Key, status: seq<LoadBalancer>, rootName: string)
    requires Filed(s)
    ensures var t := StatusSet(s, key, status);
            && Filed(t) && t.ingresses.Keys == s.ingresses.Keys
            && (forall k :: k in s.ingresses ==> Content(t.ingresses[k]) == Content(s.ingresses[k]))
            && LeavesOf(t, rootName) == LeavesOf(s, rootName)
  {
  }

  /** An attempt at the plan the store already has, cut anywhere and from any listing, leaves it in place. */
  lemma AttemptKeepsThePlan(
    s: Store, listing: seq<Ingress>, root: Ingress, services: seq<Service>, cut: nat)
    requires Filed(s) && HasExactlyThePlan(s, root, services)
    requires cut <= |Writes(listing, Desired(root, services))|
    ensures HasExactlyThePlan(CutPass(s, listing, Desired(root, services), cut), root, services)
  {
    var desired := Desired(root, services);
    var t := CutPass(s, listing, desired, cut);
    PlanIsConsistent(root, ClustersOf(services));
    forall k: Key | k.namespace == root.namespace
      ensures MatchesPlan(LeavesOf(t, root.name), k, desired)
    {
      assert MatchesPlan(LeavesOf(s, root.name), k, desired);
      CutPassEntries(s, listing, desired, cut, k);
      if HasKey(desired, k) {
        ContentIsOwned(t.ingresses[k], LeavesOf(s, root.name)[k], desired, root.name);
      }
    }
  }

  lemma ContentIsOwned(i: Ingress, was: Ingress, desired: seq<Ingress>, rootName: string)
    requires Content(i) == Content(was) || IsContentOf(i, desired)
    requires IsContentOf(was, desired) && (forall d :: d in desired ==> Owned(d, rootName))
    ensures Owned(i, rootName) && IsContentOf(Content(i), desired)
  {
    if Content(i) == Content(was) {
      ContentShares(i, was);
      var j :| 0 <= j < |desired| && KeyOf(desired[j]) == KeyOf(was) && Content(was) == Content(desired[j]);
      ContentShares(was, desired[j]);
      assert desired[j] in desired && Content(Content(i)) == Content(desired[j]);
    } else {
      var j :| 0 <= j < |desired| && KeyOf(desired[j]) == KeyOf(i) && Content(i) == Content(desired[j]);
      ContentShares(i, desired[j]);
      assert desired[j] in desired && Content(Content(i)) == Content(desired[j]);
    }
  }

  lemma ContentShares(a: Ingress, b: Ingress)
    requires Content(a) == Content(b)
    ensures a.name == b.name && a.namespace == b.namespace && a.rules == b.rules
    ensures a.annotations == b.annotations && a.labels == b.labels
  {
  }

  /** The root as its passes have left it. */
  function Hosted(root: Ingress, beats: seq<Beat>): Ingress {
    if AssignedHost(root, beats) == "" then root else WithHost(root, AssignedHost(root, beats))
  }

  /** What a run has reached. */
  ghost predicate Reached(s: Store, k: Key, root: Ingress, services: seq<Service>, beats: seq<Beat>) {
    && Filed(s) && k in s.ingresses
    && Content(s.ingresses[k]) == Content(Hosted(root, beats))
    && (Settled(root, beats) ==> AssignedHost(root, beats) != "" && HasExactlyThePlan(s, Hosted(root, beats), services))
  }

  lemma {:induction false} RunReaches(
    states: seq<Store>, beats: seq<Beat>, k: Key, services: map<Key, Service>)
    requires Run(states, beats, k, services)
    requires Filed(states[0]) && k in states[0].ingresses
    requires var root := states[0].ingresses[k]; !Owned(root, root.name) && ServicesOf(root, services).Some?
    ensures var root := states[0].ingresses[k];
            Reached(states[|beats|], k, root, ServicesOf(root, services).value, beats)
  {
    var root := states[0].ingresses[k];
    if beats == [] {
      HostedFromTheStart(root);
    } else {
      var n := |beats| - 1;
      RunPrefix(states, beats, k, services, n);
      RunReaches(states[..n + 1], beats[..n], k, services);
      assert Follows(states[n], states[n + 1], beats[n], k, services);
      match beats[n] {
        case Status(key, status) => StatusKeepsLeaves(states[n], key, status, root.name);
        case Pass(_, _) => PassReaches(states[n], states[n + 1], beats, k, services, root);
        case Failed(_, _, _) => FailedReaches(states[n], states[n + 1], beats, k, services, root);
        case Elsewhere =>
          ElsewhereReaches(states[n], states[n + 1], beats, k, services, root);
        case Nothing =>
      }
    }
  }

  /** Storing the host that is stored already changes nothing. */
  lemma HostedFromTheStart(root: Ingress)
    ensures Content(Hosted(root, [])) == Content(root)
  {
    if !NeedsHost(root) {
      assert root.annotations[HOST_ANNOTATION := root.annotations[HOST_ANNOTATION]] == root.annotations;
    }
  }

  /** What a pass that stores a host makes of the root it read. */
  lemma HostStoredByPass(read: Ingress, root: Ingress, beats: seq<Beat>)
    requires beats != [] && Stores(beats[|beats| - 1]) && beats[|beats| - 1].host != ""
    requires Content(read) == Content(Hosted(root, beats[..|beats| - 1]))
    ensures var host := beats[|beats| - 1].host;
            Content(if NeedsHost(read) then WithHost(read, host) else read) == Content(Hosted(root, beats))
    ensures AssignedHost(root, beats) != ""
    ensures AssignedHost(root, beats[..|beats| - 1]) != "" ==> Hosted(root, beats) == Hosted(root, beats[..|beats| - 1])
  {
    var host, before := beats[|beats| - 1].host, beats[..|beats| - 1];
    ContentShares(read, Hosted(root, before));
    if AssignedHost(root, before) == "" {
      assert Content(WithHost(read, host)) == WithHost(Content(read), host);
      assert Content(WithHost(root, host)) == WithHost(Content(root), host);
    }
  }

  lemma PassReaches(
    s: Store, t: Store, beats: seq<Beat>, k: Key, services: map<Key, Service>, root: Ingress)
    requires beats != [] && beats[|beats| - 1].Pass?
    requires !Owned(root, root.name) && ServicesOf(root, services).Some?
    requires Reached(s, k, root, ServicesOf(root, services).value, beats[..|beats| - 1])
    requires Follows(s, t, beats[|beats| - 1], k, services)
    ensures Reached(t, k, root, ServicesOf(root, services).value, beats)
  {
    var before, host, listing := beats[..|beats| - 1], beats[|beats| - 1].host, beats[|beats| - 1].listing;
    var read := s.ingresses[k];
    ContentShares(read, Hosted(root, before));
    PassOutcome(s, t, k, services, host, listing);
    HostStoredByPass(read, root, beats);
    if Settled(root, beats) {
      SamePlan(t, read, Hosted(root, beats), ServicesOf(root, services).value);
    }
  }

  lemma ElsewhereReaches(
    s: Store, t: Store, beats: seq<Beat>, k: Key, services: map<Key, Service>, root: Ingress)
    requires beats != [] && beats[|beats| - 1].Elsewhere? && KeyOf(root) == k
    requires ServicesOf(root, services).Some? && LeavesAlone(s, t, k)
    requires Reached(s, k, root, ServicesOf(root, services).value, beats[..|beats| - 1])
    ensures Reached(t, k, root, ServicesOf(root, services).value, beats)
  {
    var hosted := Hosted(root, beats);
    if Settled(root, beats) {
      LeavesAloneKeepThePlan(s, t, k, hosted, ServicesOf(root, services).value);
    }
  }

  lemma LeavesAloneKeepThePlan(s: Store, t: Store, k: Key, root: Ingress, services: seq<Service>)
    requires KeyOf(root) == k && LeavesAlone(s, t, k) && HasExactlyThePlan(s, root, services)
    ensures HasExactlyThePlan(t, root, services)
  {
    var desired := Desired(root, services);
    PlanIsConsistent(root, ClustersOf(services));
    forall l: Key | l.namespace == root.namespace
      ensures MatchesPlan(LeavesOf(t, root.name), l, desired)
    {
      assert MatchesPlan(LeavesOf(s, root.name), l, desired);
      assert LeafLeftAlone(LeavesOf(s, k.name), LeavesOf(t, k.name), l, k.name);
      if HasKey(desired, l) {
        var i :| 0 <= i < |desired| && KeyOf(desired[i]) == l;
        assert desired[i] in desired;
      }
    }
  }

  lemma FailedReaches(
    s: Store, t: Store, beats: seq<Beat>, k: Key, services: map<Key, Service>, root: Ingress)
    requires beats != [] && beats[|beats| - 1].Failed?
    requires !Owned(root, root.name) && ServicesOf(root, services).Some?
    requires Reached(s, k, root, ServicesOf(root, services).value, beats[..|beats| - 1])
    requires Follows(s, t, beats[|beats| - 1], k, services)
    ensures Reached(t, k, root, ServicesOf(root, services).value, beats)
  {
    var before, beat := beats[..|beats| - 1], beats[|beats| - 1];
    var read, fetched := s.ingresses[k], ServicesOf(root, services).value;
    var stage, desired := HostStage(s, read, beat.host), Desired(read, fetched);
    ContentShares(read, Hosted(root, before));
    HostStoredByPass(read, root, beats);
    CutPassEntries(stage, beat.listing, desired, beat.cut, k);
    assert !HasKey(desired, k);
    if Settled(root, beats) {
      assert stage == s;
      AttemptKeepsTheSamePlan(
        s, beat.listing, read, Hosted(root, before), Hosted(root, beats), fetched, beat.cut);
    }
  }

  lemma AttemptKeepsTheSamePlan(
    s: Store, listing: seq<Ingress>, read: Ingress, was: Ingress, now: Ingress, services: seq<Service>, cut: nat)
    requires Filed(s) && HasExactlyThePlan(s, was, services)
    requires Content(read) == Content(was) && Content(read) == Content(now)
    requires cut <= |Writes(listing, Desired(read, services))|
    ensures HasExactlyThePlan(CutPass(s, listing, Desired(read, services), cut), now, services)
  {
    SamePlan(s, was, read, services);
    AttemptKeepsThePlan(s, listing, read, services, cut);
    SamePlan(CutPass(s, listing, Desired(read, services), cut), read, now, services);
  }

  /**
   Fixed point. Once a completed pass has read the root with its host, then and after every further pass, completed or
   cut at any write and from any listing, the root has the one host it was first given, and its namespace has exactly
   the leaves of the root with that host: every root rule once as it is and once for the host.
   */
  lemma FixedPoint(states: seq<Store>, beats: seq<Beat>, k: Key, services: map<Key, Service>, n: nat)
    requires Run(states, beats, k, services)
    requires Filed(states[0]) && k in states[0].ingresses
    requires var root := states[0].ingresses[k]; !Owned(root, root.name) && ServicesOf(root, services).Some?
    requires n <= |beats| && Settled(states[0].ingresses[k], beats[..n])
    ensures var root := states[0].ingresses[k];
            var hosted := WithHost(root, AssignedHost(root, beats));
            && AssignedHost(root, beats) != ""
            && k in states[n].ingresses && Content(states[n].ingresses[k]) == Content(hosted)
            && HasExactlyThePlan(states[n], hosted, ServicesOf(root, services).value)
            && HasTheAskedLeaves(states[n], hosted, services)
    ensures var root, host := states[0].ingresses[k], AssignedHost(states[0].ingresses[k], beats);
            var stored := states[n].ingresses[k];
            && stored.rules == root.rules && stored.annotations == root.annotations[HOST_ANNOTATION := host]
            && (HOST_ANNOTATION in root.annotations && root.annotations[HOST_ANNOTATION] != "" ==>
                  host == root.annotations[HOST_ANNOTATION])
  {
    var root := states[0].ingresses[k];
    RunPrefix(states, beats, k, services, n);
    RunReaches(states[..n + 1], beats[..n], k, services);
    AssignedOnce(root, beats, n);
    var hosted := WithHost(root, AssignedHost(root, beats));
    ContentShares(states[n].ingresses[k], hosted);
    PlanIsWhatIsAsked(states[n], hosted, services);
  }

  /** Two completed passes suffice, whatever failed before and between them. */
  lemma {:induction false} TwoPassesSettle(root: Ingress, beats: seq<Beat>)
    requires forall b :: b in beats && Stores(b) ==> b.host != ""
    ensures Passes(beats) >= 1 ==> AssignedHost(root, beats) != ""
    ensures Passes(beats) >= 2 ==> Settled(root, beats)
  {
    if beats == [] {
    } else {
      var before, last := beats[..|beats| - 1], beats[|beats| - 1];
      assert last in beats && forall b :: b in before ==> b in beats;
      TwoPassesSettle(root, before);
    }
  }

  /** One does not: the pass that stores the generated host plans the leaves without it. */
  lemma FirstPassOmitsTheGlobalRules(
    s: Store, t: Store, k: Key, services: map<Key, Service>, host: string, listing: seq<Ingress>)
    requires Filed(s) && HostedPass(s, t, k, services, host, listing)
    requires !Owned(s.ingresses[k], s.ingresses[k].name) && HOST_ANNOTATION !in s.ingresses[k].annotations
    ensures var root := s.ingresses[k];
            && k in t.ingresses && Lookup(t.ingresses[k].annotations, HOST_ANNOTATION) == host
            && HasExactlyThePlan(t, root, ServicesOf(root, services).value)
            && forall cluster :: LeafFor(root, cluster).rules == root.rules
  {
    PassOutcome(s, t, k, services, host, listing);
    ContentShares(t.ingresses[k], WithHost(s.ingresses[k], host));
  }

  lemma RunPrefix(states: seq<Store>, beats: seq<Beat>, k: Key, services: map<Key, Service>, n: nat)
    requires Run(states, beats, k, services) && n <= |beats|
    ensures Run(states[..n + 1], beats[..n], k, services)
  {
  }

  lemma {:induction false} AssignedOnce(root: Ingress, beats: seq<Beat>, n: nat)
    requires n <= |beats| && AssignedHost(root, beats[..n]) != ""
    ensures AssignedHost(root, beats) == AssignedHost(root, beats[..n])
  {
    if n == |beats| {
      assert beats[..n] == beats;
    } else {
      assert beats[..|beats| - 1][..n] == beats[..n];
      AssignedOnce(root, beats[..|beats| - 1], n);
    }
  }
}
