/** Runs of passes that read the root from an informer that lags behind: any stored version, however old. */
module StaleReads {
  import opened Wrappers
  import opened Model
  import opened ApiServer
  import opened Planning
  import opened RootPass
  import opened StoredLeaves
  import opened Convergence
  import opened RootReconciler
  import opened Informer
  import opened EnvoyCache

  /**
   A pass that got past the host stage, having read the root as it was stored at an earlier point of the run, and was
   then cut at some write; a status written in between; or anything else that leaves the root alone, such as a pass of
   another root. The services may be different for every pass.
   */
  datatype Beat =
    | Pass(readAt: nat, services: map<Key, Service>, host: string, listing: seq<Ingress>, cut: nat)
    | Status(key: Key, status: seq<LoadBalancer>)
    | Elsewhere

  ghost predicate Run(states: seq<Store>, beats: seq<Beat>, k: Key) {
    && |states| == |beats| + 1
    && Filed(states[0]) && k in states[0].ingresses
    && forall i :: 0 <= i < |beats| ==> Follows(states, i, beats[i], k)
  }

  ghost predicate Follows(states: seq<Store>, i: nat, beat: Beat, k: Key)
    requires i + 1 < |states|
  {
    match beat
    case Pass(readAt, services, host, listing, cut) =>
      && readAt <= i && k in states[readAt].ingresses
      && CutAfterHost(states[i], states[i + 1], states[readAt].ingresses[k], services, host, listing, cut)
      && !HasKey(listing, k)
    case Status(key, status) => states[i + 1] == StatusSet(states[i], key, status)
    case Elsewhere =>
      && Filed(states[i + 1]) && k in states[i].ingresses && k in states[i + 1].ingresses
      && states[i + 1].ingresses[k] == states[i].ingresses[k]
  }

  /** Without all its services the pass ends after the host stage. */
  ghost predicate CutAfterHost(
    s: Store, t: Store, read: Ingress, services: map<Key, Service>, host: string, listing: seq<Ingress>, cut: nat)
  {
    && host != ""
    && if ServicesOf(read, services).None? then t == HostStage(s, read, host)
       else
         var desired := Desired(read, ServicesOf(read, services).value);
         cut <= |Writes(listing, desired)| && t == CutPass(HostStage(s, read, host), listing, desired, cut)
  }

  /** The root passes of the controller are such beats, if the indexer has some stored version of the root. */
  lemma ReportIsABeat(
    states: seq<Store>, i: nat, readAt: nat, k: Key, live: map<string, Ingress>, services: map<Key, Service>,
    host: string, ok: bool, spent: bool, trail: RootTrail)
    returns (beat: Beat)
    requires readAt <= i < |states| - 1 && Filed(states[i]) && k in states[i].ingresses
    requires k in states[readAt].ingresses && KeyOf(states[readAt].ingresses[k]) == k && host != ""
    requires RootReport(live, states[i], states[i + 1], states[readAt].ingresses[k], services, host, ok, spent, trail)
    requires forall t :: t in live && KeyOf(live[t]) == k ==> !Owned(live[t], k.name)
    ensures Follows(states, i, beat, k)
    ensures trail.services.Some? ==> beat == Beat.Pass(readAt, services, host, trail.listing, trail.done)
    ensures trail.services.None? ==> beat == Beat.Pass(readAt, services, host, [], 0) || states[i + 1] == states[i]
  {
    if trail.services.Some? {
      SelectedHasNoRoot(trail.listing, live, k);
      beat := Beat.Pass(readAt, services, host, trail.listing, trail.done);
    } else if states[i + 1] == states[i] {
      beat := Beat.Elsewhere;
    } else {
      beat := Beat.Pass(readAt, services, host, [], 0);
    }
  }

  lemma SelectedHasNoRoot(listing: seq<Ingress>, live: map<string, Ingress>, k: Key)
    requires Selected(listing, live, k.name)
    requires forall t :: t in live && KeyOf(live[t]) == k ==> !Owned(live[t], k.name)
    ensures !HasKey(listing, k)
  {
    var order :| SelectedBy(order, listing, live, k.name);
    forall i | 0 <= i < |listing|
      ensures KeyOf(listing[i]) != k
    {
      assert order[i] in Wanted(live, k.name);
    }
  }

  function HostOf(i: Ingress): string {
    Lookup(i.annotations, HOST_ANNOTATION)
  }

  /** Host names are generated to be unique. */
  ghost predicate HostsAreUnique(root: Ingress, beats: seq<Beat>) {
    && (forall i :: 0 <= i < |beats| && beats[i].Pass? ==> beats[i].host != HostOf(root))
    && (forall i, j :: 0 <= i < j < |beats| && beats[i].Pass? && beats[j].Pass? ==> beats[i].host != beats[j].host)
  }

  /** The same object but for its host, uid, version, status and deletion mark. */
  predicate SameButHost(a: Ingress, b: Ingress) {
    Content(a).(annotations := map[]) == Content(b).(annotations := map[])
    && (a.annotations - {HOST_ANNOTATION}) == (b.annotations - {HOST_ANNOTATION})
  }

  /** One pass on the stored root: it gets another host if the pass read it without one, and nothing else changes. */
  lemma PassOnTheRoot(
    s: Store, t: Store, k: Key, read: Ingress, services: map<Key, Service>, host: string, listing: seq<Ingress>,
    cut: nat)
    requires Filed(s) && k in s.ingresses && KeyOf(read) == k && !HasKey(listing, k)
    requires CutAfterHost(s, t, read, services, host, listing, cut)
    ensures Filed(t) && k in t.ingresses && SameButHost(t.ingresses[k], s.ingresses[k])
    ensures HostOf(t.ingresses[k]) == if NeedsHost(read) then host else HostOf(s.ingresses[k])
  {
    var h := HostStage(s, read, host);
    if ServicesOf(read, services).Some? {
      var desired := Desired(read, ServicesOf(read, services).value);
      CutPassEntries(h, listing, desired, cut, k);
      LeavesAreLonger(read, ClustersOf(ServicesOf(read, services).value), k);
    }
    assert h.ingresses[k].annotations - {HOST_ANNOTATION} == s.ingresses[k].annotations - {HOST_ANNOTATION};
  }

  lemma LeavesAreLonger(root: Ingress, clusters: seq<string>, k: Key)
    requires k.name == root.name
    ensures !HasKey(Plan(root, clusters), k)
  {
    forall i | 0 <= i < |clusters|
      ensures Plan(root, clusters)[i].name != k.name
    {
      assert |LeafName(root.name, clusters[i])| > |root.name|;
    }
  }

  /** Every stored version is the first one but for its host, and that host is the first one's or some pass's. */
  lemma {:induction false} VersionsDifferInHost(states: seq<Store>, beats: seq<Beat>, k: Key, n: nat)
    requires Run(states, beats, k) && n <= |beats|
    ensures Filed(states[n]) && k in states[n].ingresses
    ensures SameButHost(states[n].ingresses[k], states[0].ingresses[k])
    ensures var host := HostOf(states[n].ingresses[k]);
            host == HostOf(states[0].ingresses[k]) || exists j :: 0 <= j < n && beats[j].Pass? && beats[j].host == host
  {
    if n > 0 {
      VersionsDifferInHost(states, beats, k, n - 1);
      assert Follows(states, n - 1, beats[n - 1], k);
      if beats[n - 1].Pass? {
        var readAt := beats[n - 1].readAt;
        VersionsDifferInHost(states, beats, k, readAt);
        PassOnTheRoot(
          states[n - 1], states[n], k, states[readAt].ingresses[k], beats[n - 1].services, beats[n - 1].host,
          beats[n - 1].listing, beats[n - 1].cut);
      }
    }
  }

  lemma HostAfter(states: seq<Store>, beats: seq<Beat>, k: Key, n: nat)
    requires Run(states, beats, k) && n < |beats|
    ensures k in states[n].ingresses && k in states[n + 1].ingresses
    ensures beats[n].Pass? ==> beats[n].readAt <= n && k in states[beats[n].readAt].ingresses
    ensures HostOf(states[n + 1].ingresses[k])
         == if beats[n].Pass? && NeedsHost(states[beats[n].readAt].ingresses[k]) then beats[n].host
            else HostOf(states[n].ingresses[k])
  {
    VersionsDifferInHost(states, beats, k, n);
    VersionsDifferInHost(states, beats, k, n + 1);
    assert Follows(states, n, beats[n], k);
    if beats[n].Pass? {
      VersionsDifferInHost(states, beats, k, beats[n].readAt);
      PassOnTheRoot(
        states[n], states[n + 1], k, states[beats[n].readAt].ingresses[k], beats[n].services, beats[n].host,
        beats[n].listing, beats[n].cut);
    }
  }

  ghost predicate HostAt(states: seq<Store>, k: Key, n: int, host: string) {
    0 <= n < |states| && k in states[n].ingresses && HostOf(states[n].ingresses[k]) == host
  }

  /** Once the root has a host, that host is there at every later point. */
  ghost predicate AssignedOnceForAll(states: seq<Store>, k: Key) {
    forall i, j, host :: HostAt(states, k, i, host) && host != "" && i <= j < |states| ==> HostAt(states, k, j, host)
  }

  /** No pass that starts while the root has a host reads a version of the root without one. */
  ghost predicate HostIsSeen(states: seq<Store>, beats: seq<Beat>, k: Key) {
    forall i :: 0 <= i < |beats| && beats[i].Pass? && i < |states| && !HostAt(states, k, i, "") ==>
      SeesHost(states, beats[i], k)
  }

  ghost predicate SeesHost(states: seq<Store>, beat: Beat, k: Key)
    requires beat.Pass?
  {
    beat.readAt < |states| && k in states[beat.readAt].ingresses && !NeedsHost(states[beat.readAt].ingresses[k])
  }

  /**
   Over every run of passes, however old the versions they read and wherever they are cut: the first host that is stored
   stays for good exactly when no later pass reads the root without a host. A pass that does generates another host and
   stores that one instead.
   */
  lemma HostIsAssignedOnceIff(states: seq<Store>, beats: seq<Beat>, k: Key)
    requires Run(states, beats, k) && HostsAreUnique(states[0].ingresses[k], beats)
    ensures AssignedOnceForAll(states, k) <==> HostIsSeen(states, beats, k)
  {
    if AssignedOnceForAll(states, k) {
      forall i | 0 <= i < |beats| && beats[i].Pass? && !HostAt(states, k, i, "")
        ensures SeesHost(states, beats[i], k)
      {
        HostAfter(states, beats, k, i);
        VersionsDifferInHost(states, beats, k, i);
        var host := HostOf(states[i].ingresses[k]);
        assert HostAt(states, k, i, host);
        assert HostAt(states, k, i + 1, host);
      }
    }
    if HostIsSeen(states, beats, k) {
      forall i, j, host | HostAt(states, k, i, host) && host != "" && i <= j < |states|
        ensures HostAt(states, k, j, host)
      {
        SeenHostStays(states, beats, k, i, j, host);
      }
    }
  }

  lemma {:induction false} SeenHostStays(
    states: seq<Store>, beats: seq<Beat>, k: Key, i: nat, j: nat, host: string)
    requires Run(states, beats, k) && HostIsSeen(states, beats, k)
    requires HostAt(states, k, i, host) && host != "" && i <= j < |states|
    ensures HostAt(states, k, j, host)
  {
    if i < j {
      SeenHostStays(states, beats, k, i, j - 1, host);
      HostAfter(states, beats, k, j - 1);
    }
  }

  /****** The leaves ******/

  /**
   The leaves follow what the pass read: a completed pass with a fresh listing leaves exactly the leaves of the version
   it read. These are the leaves of the stored root exactly when that version has the stored root's annotations, unless
   no service has a cluster.
   */
  lemma LeavesFollowTheRead(
    states: seq<Store>, beats: seq<Beat>, k: Key, n: nat)
    requires Run(states, beats, k) && n < |beats| && beats[n].Pass?
    requires beats[n].readAt <= n && k in states[beats[n].readAt].ingresses
    requires var beat, read := beats[n], states[beats[n].readAt].ingresses[k];
             && Fresh(beat.listing, HostStage(states[n], read, beat.host), read.name)
             && ServicesOf(read, beat.services).Some?
             && beat.cut == |Writes(beat.listing, Desired(read, ServicesOf(read, beat.services).value))|
    ensures k in states[n + 1].ingresses
    ensures var beat, read, stored := beats[n], states[beats[n].readAt].ingresses[k], states[n + 1].ingresses[k];
            var fetched := ServicesOf(read, beat.services).value;
            && HasExactlyThePlan(states[n + 1], read, fetched)
            && (HasExactlyThePlan(states[n + 1], stored, fetched)
                <==> ClustersOf(fetched) == [] || read.annotations == stored.annotations)
  {
    var beat, read := beats[n], states[beats[n].readAt].ingresses[k];
    var fetched, h := ServicesOf(read, beat.services).value, HostStage(states[n], read, beat.host);
    VersionsDifferInHost(states, beats, k, n);
    VersionsDifferInHost(states, beats, k, n + 1);
    VersionsDifferInHost(states, beats, k, beat.readAt);
    assert Follows(states, n, beat, k);
    var ws := Writes(beat.listing, Desired(read, fetched));
    assert ws[..|ws|] == ws;
    PassPlansWhatItRead(h, beat.listing, read, fetched);
    PlansAgreeIff(states[n + 1], read, states[n + 1].ingresses[k], fetched);
  }

  lemma PlansAgreeIff(s: Store, read: Ingress, stored: Ingress, services: seq<Service>)
    requires SameButHost(read, stored) && HasExactlyThePlan(s, read, services)
    ensures HasExactlyThePlan(s, stored, services)
       <==> ClustersOf(services) == [] || read.annotations == stored.annotations
  {
    SameButHostShares(read, stored);
    var clusters := ClustersOf(services);
    if clusters == [] {
      forall l: Key | l.namespace == stored.namespace
        ensures MatchesPlan(LeavesOf(s, stored.name), l, Desired(stored, services))
      {
        assert MatchesPlan(LeavesOf(s, read.name), l, Desired(read, services));
      }
    } else if read.annotations == stored.annotations {
      assert Content(read) == Content(read).(annotations := map[]).(annotations := read.annotations);
      assert Content(stored) == Content(stored).(annotations := map[]).(annotations := stored.annotations);
      SamePlan(s, read, stored, services);
    } else if HasExactlyThePlan(s, stored, services) {
      OnePlanOneAnnotation(s, read, stored, services);
    }
  }

  lemma SameButHostShares(a: Ingress, b: Ingress)
    requires SameButHost(a, b)
    ensures a.name == b.name && a.namespace == b.namespace
  {
    assert Content(a).(annotations := map[]).name == a.name && Content(b).(annotations := map[]).name == b.name;
    assert Content(a).(annotations := map[]).namespace == a.namespace;
    assert Content(b).(annotations := map[]).namespace == b.namespace;
  }

  lemma OnePlanOneAnnotation(s: Store, a: Ingress, b: Ingress, services: seq<Service>)
    requires a.name == b.name && a.namespace == b.namespace && ClustersOf(services) != []
    requires HasExactlyThePlan(s, a, services) && HasExactlyThePlan(s, b, services)
    ensures a.annotations == b.annotations
  {
    var leaf := KeyOf(Desired(a, services)[0]);
    assert leaf.namespace == a.namespace;
    assert HasKey(Desired(a, services), leaf);
    assert MatchesPlan(LeavesOf(s, a.name), leaf, Desired(a, services));
    assert MatchesPlan(LeavesOf(s, b.name), leaf, Desired(b, services));
    PlannedAnnotations(LeavesOf(s, a.name)[leaf], a, services);
    PlannedAnnotations(LeavesOf(s, b.name)[leaf], b, services);
  }

  lemma PlannedAnnotations(leaf: Ingress, root: Ingress, services: seq<Service>)
    requires IsContentOf(leaf, Desired(root, services))
    ensures leaf.annotations == root.annotations
  {
    var desired := Desired(root, services);
    var j :| 0 <= j < |desired| && KeyOf(desired[j]) == KeyOf(leaf) && Content(leaf) == Content(desired[j]);
    ContentShares(leaf, desired[j]);
  }

  /** Two passes in a row that both read the root as it was before the first one: the second replaces the host. */
  lemma StaleReadExample(
    s: Store, root: Ingress, services: map<Key, Service>, t: Store, u: Store, one: string, two: string,
    listing: seq<Ingress>)
    requires Filed(s) && KeyOf(root) in s.ingresses && s.ingresses[KeyOf(root)] == root
    requires HostOf(root) == "" && ServicesOf(root, services).Some? && !HasKey(listing, KeyOf(root))
    requires one != "" && two != "" && one != two
    requires t == CutPass(HostStage(s, root, one), listing, Desired(root, ServicesOf(root, services).value), 0)
    requires u == CutPass(HostStage(t, root, two), listing, Desired(root, ServicesOf(root, services).value), 0)
    ensures var k, states := KeyOf(root), [s, t, u];
            var beats := [Beat.Pass(0, services, one, listing, 0), Beat.Pass(0, services, two, listing, 0)];
            && Run(states, beats, k) && HostAt(states, k, 1, one) && HostAt(states, k, 2, two)
            && !AssignedOnceForAll(states, k) && !HostIsSeen(states, beats, k)
            && SameButHost(u.ingresses[k], root)
  {
    var k, states := KeyOf(root), [s, t, u];
    var beats := [Beat.Pass(0, services, one, listing, 0), Beat.Pass(0, services, two, listing, 0)];
    assert Follows(states, 0, beats[0], k) && Follows(states, 1, beats[1], k);
    HostAfter(states, beats, k, 0);
    HostAfter(states, beats, k, 1);
    VersionsDifferInHost(states, beats, k, 2);
    assert HostAt(states, k, 1, one) && !HostAt(states, k, 2, one);
    HostIsAssignedOnceIff(states, beats, k);
  }
}
