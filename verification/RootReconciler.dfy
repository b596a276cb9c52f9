/** The root branch of reconcile, as the ordered API calls it makes. */
module RootReconciler {
  import opened Wrappers
  import opened Model
  import opened ApiServer
  import opened ServiceTracker
  import opened Planning
  import opened RootPass
  import opened StoredLeaves
  import opened Convergence
  import opened Informer

  /****** Services ******/

  lemma {:induction false} FetchedAppend(
    a: seq<string>, b: seq<string>, namespace: string, services: map<Key, Service>)
    ensures var fa, fb := Fetched(a, namespace, services), Fetched(b, namespace, services);
            Fetched(a + b, namespace, services) == if fa.Some? && fb.Some? then Some(fa.value + fb.value) else None
  {
    if b == [] {
      assert a + b == a;
      assert Fetched(a, namespace, services).Some? ==>
        Fetched(a, namespace, services).value + [] == Fetched(a, namespace, services).value;
    } else {
      var rest, k := b[..|b| - 1], Key(namespace, b[|b| - 1]);
      FetchedAppend(a, rest, namespace, services);
      assert (a + b)[..|a + b| - 1] == a + rest;
      var fa, fb := Fetched(a, namespace, services), Fetched(rest, namespace, services);
      if fa.Some? && fb.Some? && k in services {
        assert (fa.value + fb.value) + [services[k]] == fa.value + (fb.value + [services[k]]);
      }
    }
  }

  lemma {:induction false} EarlierFailureFails(
    rules: seq<Rule>, n: nat, namespace: string, services: map<Key, Service>)
    requires n <= |rules| && Fetched(ServiceNames(rules[..n]), namespace, services).None?
    ensures Fetched(ServiceNames(rules), namespace, services).None?
  {
    if n == |rules| {
      assert rules[..n] == rules;
    } else {
      var rest := rules[..|rules| - 1];
      assert rest[..n] == rules[..n];
      EarlierFailureFails(rest, n, namespace, services);
      FetchedAppend(ServiceNames(rest), PathServices(PathsOf(rules[|rules| - 1])), namespace, services);
    }
  }

  /** The services of the rules in order; a missing service or a failed call yields none. */
  method GetServices(api: Api, ingress: IngressRef) returns (found: Option<seq<Service>>)
    modifies api`faults
    ensures found.Some? ==> found == ServicesOf(ingress.obj, api.services) && api.faults == old(api.faults)
    ensures found.Some? ==> (
              forall s :: s in found.value <==> exists i, j, name :: FindsAt(ingress.obj, api.services, i, j, name, s))
    ensures found.None? ==> api.faults < old(api.faults) || ServicesOf(ingress.obj, api.services).None?
    ensures api.faults <= old(api.faults)
  {
    var rules, namespace := ingress.obj.rules, ingress.obj.namespace;
    var services := [];
    for i := 0 to |rules|
      invariant Fetched(ServiceNames(rules[..i]), namespace, api.services) == Some(services)
      invariant api.faults == old(api.faults)
    {
      var more := GetPathServices(api, namespace, PathsOf(rules[i]));
      assert rules[..i + 1][..i] == rules[..i];
      FetchedAppend(ServiceNames(rules[..i]), PathServices(PathsOf(rules[i])), namespace, api.services);
      if more.None? {
        if api.faults == old(api.faults) {
          EarlierFailureFails(rules, i + 1, namespace, api.services);
        }
        return None;
      }
      services := services + more.value;
    }
    assert rules[..|rules|] == rules;
    ServicesMeaning(ingress.obj, api.services);
    return Some(services);
  }

  method GetPathServices(api: Api, namespace: string, paths: seq<Path>) returns (found: Option<seq<Service>>)
    modifies api`faults
    ensures found.Some? ==> (
              found == Fetched(PathServices(paths), namespace, api.services) && api.faults == old(api.faults))
    ensures found.None? ==> (
              api.faults < old(api.faults)
              || (Fetched(PathServices(paths), namespace, api.services).None? && api.faults == old(api.faults)))
  {
    var services := [];
    for j := 0 to |paths|
      invariant Fetched(PathServices(paths[..j]), namespace, api.services) == Some(services)
      invariant api.faults == old(api.faults)
    {
      var r, service := api.GetService(Key(namespace, paths[j].service));
      assert PathServices(paths[..j + 1])[..j] == PathServices(paths[..j]);
      if r != Ok {
        FetchedAppend(PathServices(paths[..j + 1]), PathServices(paths[j + 1..]), namespace, api.services);
        assert PathServices(paths[..j + 1]) + PathServices(paths[j + 1..]) == PathServices(paths);
        return None;
      }
      services := services + [service.value];
    }
    assert paths[..|paths|] == paths;
    return Some(services);
  }

  /****** Planning ******/

  /** A fresh object holding the planned leaf; the root is only read. */
  method NewLeaf(root: IngressRef, cluster: string) returns (vd: IngressRef)
    ensures fresh(vd) && vd.obj == LeafFor(root.obj, cluster)
  {
    vd := root.DeepCopy();
    vd.obj := vd.obj.(name := root.obj.name + "--" + cluster);
    vd.obj := vd.obj.(labels := map[CLUSTER_LABEL := cluster, OWNED_BY_LABEL := root.obj.name]);
    vd.obj := vd.obj.(owners := [], version := 0);
    if HOST_ANNOTATION in root.obj.annotations {
      var hostname := root.obj.annotations[HOST_ANNOTATION];
      var rules, globalRules := vd.obj.rules, [];
      for i := 0 to |rules|
        invariant globalRules == GlobalRules(rules, hostname)[..i]
      {
        globalRules := globalRules + [rules[i].(host := hostname)];
      }
      assert globalRules == GlobalRules(rules, hostname);
      vd.obj := vd.obj.(rules := rules + globalRules);
    }
  }

  ghost predicate AreFresh(leaves: seq<IngressRef>, desired: seq<Ingress>)
    reads leaves
  {
    && |leaves| == |desired|
    && (forall i :: 0 <= i < |leaves| ==> leaves[i].obj == desired[i])
    && (forall i, j :: 0 <= i < j < |leaves| ==> leaves[i] != leaves[j])
  }

  /** Tracks every service of the root, and makes one leaf per service that has a cluster. */
  method DesiredLeaves(api: Api, tracker: Tracker, root: IngressRef)
    returns (leaves: Option<seq<IngressRef>>, ghost services: seq<Service>)
    modifies api`faults, tracker
    ensures leaves.None? ==> tracker.State() == old(tracker.State())
    ensures leaves.None? ==> api.faults < old(api.faults) || ServicesOf(root.obj, api.services).None?
    ensures api.faults <= old(api.faults)
    ensures leaves.Some? ==> ServicesOf(root.obj, api.services) == Some(services)
    ensures leaves.Some? ==> tracker.State() == AddedAll(old(tracker.State()), root.obj, services)
    ensures leaves.Some? ==> fresh(leaves.value) && AreFresh(leaves.value, Desired(root.obj, services))
    ensures leaves.Some? ==> (
              forall k :: HasKey(Desired(root.obj, services), k) <==>
                k.namespace == root.obj.namespace && IsAsked(root.obj, api.services, k))
    ensures leaves.Some? ==> api.faults == old(api.faults)
  {
    services := [];
    var found := GetServices(api, root);
    if found.None? {
      return None, [];
    }
    services := found.value;
    var clusters := TrackServices(tracker, root, found.value);
    var made := MakeLeaves(root, clusters);
    forall k
      ensures HasKey(Desired(root.obj, services), k) <==>
                k.namespace == root.obj.namespace && IsAsked(root.obj, api.services, k)
    {
      DesiredMeaning(root.obj, api.services, k);
    }
    return Some(made), services;
  }

  method MakeLeaves(root: IngressRef, clusters: seq<string>) returns (leaves: seq<IngressRef>)
    ensures fresh(leaves) && AreFresh(leaves, Plan(root.obj, clusters))
  {
    leaves := [];
    for i := 0 to |clusters|
      invariant fresh(leaves) && AreFresh(leaves, Plan(root.obj, clusters)[..i])
    {
      var vd := NewLeaf(root, clusters[i]);
      leaves := leaves + [vd];
    }
    assert Plan(root.obj, clusters)[..|clusters|] == Plan(root.obj, clusters);
  }

  method TrackServices(tracker: Tracker, root: IngressRef, services: seq<Service>) returns (clusters: seq<string>)
    modifies tracker
    ensures clusters == ClustersOf(services)
    ensures tracker.State() == AddedAll(old(tracker.State()), root.obj, services)
  {
    clusters := [];
    for i := 0 to |services|
      invariant clusters == ClustersOf(services[..i])
      invariant tracker.State() == AddedAll(old(tracker.State()), root.obj, services[..i])
    {
      assert services[..i + 1][..i] == services[..i];
      var cluster := Lookup(services[i].labels, CLUSTER_LABEL);
      if cluster != "" {
        clusters := clusters + [cluster];
      }
      tracker.Add(root.obj, services[i]);
    }
    assert services[..|services|] == services;
  }

  /****** Writing ******/

  /** Create the leaf, or on an existing one take over its identity and update it. */
  method PutLeaf(api: Api, leaf: IngressRef) returns (ok: bool)
    modifies api`store, api`faults, leaf
    ensures ok ==> api.store == Do(old(api.store), Put(old(leaf.obj)))
    ensures !ok ==> api.store == old(api.store) || api.store == Do(old(api.store), Put(old(leaf.obj)))
    ensures if ok then api.faults == old(api.faults) else api.faults < old(api.faults)
  {
    var r := api.CreateIngress(leaf.obj);
    if r == Ok {
      return true;
    }
    if r != AlreadyExists {
      return false;
    }
    var r', existing := api.GetIngress(KeyOf(leaf.obj));
    if r' != Ok {
      return false;
    }
    // The stored resource version and UID go into the leaf, so that the update is accepted.
    leaf.obj := leaf.obj.(version := existing.value.version);
    leaf.obj := leaf.obj.(uid := existing.value.uid);
    r := api.UpdateIngress(leaf.obj);
    return r == Ok;
  }

  lemma DoAllNext(s: Store, ws: seq<Write>, n: nat)
    requires n < |ws|
    ensures DoAll(s, ws[..n + 1]) == Do(DoAll(s, ws[..n]), ws[n])
  {
    assert ws[..n + 1][..n] == ws[..n];
  }

  /** The leftovers from `i` on are still stored, each once. */
  ghost predicate Standing(leftovers: seq<Ingress>, i: nat, s: Store) {
    && (forall j :: i <= j < |leftovers| ==> KeyOf(leftovers[j]) in s.ingresses)
    && DistinctKeys(leftovers)
  }

  method DeleteLeftovers(api: Api, leftovers: seq<Ingress>) returns (ok: bool, ghost done: nat)
    modifies api`store, api`faults
    ensures done <= |leftovers|
    ensures api.store == DoAll(old(api.store), Removes(leftovers)[..done])
    ensures ok ==> done == |leftovers| && api.store == DoAll(old(api.store), Removes(leftovers))
    ensures ok ==> api.faults == old(api.faults)
    ensures !ok ==> api.faults < old(api.faults) || !Standing(leftovers, 0, old(api.store))
    ensures api.faults <= old(api.faults)
  {
    done := 0;
    for i := 0 to |leftovers|
      invariant done == i
      invariant api.store == DoAll(old(api.store), Removes(leftovers)[..i])
      invariant api.faults == old(api.faults)
      invariant Standing(leftovers, 0, old(api.store)) ==> Standing(leftovers, i, api.store)
    {
      ghost var ws := Removes(leftovers);
      DoAllNext(old(api.store), ws, i);
      var r := api.DeleteIngress(KeyOf(leftovers[i]));
      if r != Ok {
        done := if api.store == DoAll(old(api.store), ws[..i]) then i else i + 1;
        return false, done;
      }
      done := i + 1;
    }
    assert Removes(leftovers)[..|leftovers|] == Removes(leftovers);
    return true, |leftovers|;
  }

  method PutLeaves(api: Api, leaves: seq<IngressRef>, ghost desired: seq<Ingress>) returns (ok: bool, ghost done: nat)
    requires AreFresh(leaves, desired)
    modifies api`store, api`faults, leaves
    ensures done <= |desired|
    ensures api.store == DoAll(old(api.store), Puts(desired)[..done])
    ensures if ok then done == |desired| else api.faults < old(api.faults)
    ensures api.faults <= old(api.faults)
  {
    done := 0;
    for i := 0 to |leaves|
      invariant done == i
      invariant api.store == DoAll(old(api.store), Puts(desired)[..i])
      invariant api.faults == old(api.faults)
      invariant forall j :: i <= j < |leaves| ==> leaves[j].obj == desired[j]
    {
      ghost var ws := Puts(desired);
      DoAllNext(old(api.store), ws, i);
      var put := PutLeaf(api, leaves[i]);
      if !put {
        done := if api.store == DoAll(old(api.store), ws[..i]) then i else i + 1;
        return false, done;
      }
      done := i + 1;
    }
    return true, |desired|;
  }

  /** How far a root pass came: the services it fetched if it planned at all, its listing, its writes. */
  datatype RootTrail = RootTrail(services: Option<seq<Service>>, listing: seq<Ingress>, done: nat)

  /** A planned pass has done the first `done` writes of its plan. */
  ghost predicate Planned(before: Store, after: Store, root: Ingress, trail: RootTrail) {
    && trail.services.Some?
    && var desired := Desired(root, trail.services.value);
    && trail.done <= |Writes(trail.listing, desired)|
    && after == CutPass(before, trail.listing, desired, trail.done)
  }

  /** A planned pass has done all writes of its plan. */
  ghost predicate Completed(root: Ingress, trail: RootTrail) {
    trail.services.Some? && trail.done == |Writes(trail.listing, Desired(root, trail.services.value))|
  }

  lemma FreshLeftoversStand(s: Store, listing: seq<Ingress>, desired: seq<Ingress>, rootName: string)
    ensures Fresh(listing, s, rootName) ==> Standing(NonDesired(listing, desired), 0, s)
  {
    if Fresh(listing, s, rootName) {
      LeftoversStand(s, listing, desired, rootName);
    }
  }

  lemma LeftoversStand(s: Store, listing: seq<Ingress>, desired: seq<Ingress>, rootName: string)
    requires Fresh(listing, s, rootName)
    ensures Standing(NonDesired(listing, desired), 0, s)
  {
    NonDesiredMeaning(listing, desired);
    NonDesiredDistinct(listing, desired);
    var leftovers := NonDesired(listing, desired);
    forall j | 0 <= j < |leftovers|
      ensures KeyOf(leftovers[j]) in s.ingresses
    {
      assert leftovers[j] in leftovers;
      var i :| 0 <= i < |listing| && listing[i] == leftovers[j];
      assert HasKey(listing, KeyOf(leftovers[j]));
    }
  }

  lemma {:induction false} NonDesiredDistinct(listing: seq<Ingress>, desired: seq<Ingress>)
    requires DistinctKeys(listing)
    ensures DistinctKeys(NonDesired(listing, desired))
  {
    if listing == [] {
    } else {
      var n := |listing| - 1;
      NonDesiredDistinct(listing[..n], desired);
      NonDesiredMeaning(listing[..n], desired);
      var before := NonDesired(listing[..n], desired);
      forall i | 0 <= i < |before|
        ensures KeyOf(before[i]) != KeyOf(listing[n])
      {
        assert before[i] in before;
        var m :| 0 <= m < n && listing[..n][m] == before[i];
        assert listing[m] == before[i];
      }
      assert DistinctKeys(before + [listing[n]]);
    }
  }

  method FindNonDesiredLeaves(current: seq<Ingress>, leaves: seq<IngressRef>, ghost desired: seq<Ingress>)
    returns (missing: seq<Ingress>)
    requires AreFresh(leaves, desired)
    ensures missing == NonDesired(current, desired)
  {
    missing := [];
    for i := 0 to |current|
      invariant missing == NonDesired(current[..i], desired)
    {
      var found := false;
      for j := 0 to |leaves|
        invariant found <==> HasName(desired[..j], current[i].name)
      {
        if current[i].name == leaves[j].obj.name {
          found := true;
        }
      }
      assert desired[..|desired|] == desired && current[..i + 1][..i] == current[..i];
      if !found {
        missing := missing + [current[i]];
      }
    }
    assert current[..|current|] == current;
  }

  /** Makes the store follow a plan: the listed leftovers are deleted, then the desired leaves are put. */
  method CarryOut(
    api: Api, listing: seq<Ingress>, leaves: seq<IngressRef>, ghost desired: seq<Ingress>)
    returns (ok: bool, ghost done: nat)
    requires AreFresh(leaves, desired)
    modifies api`store, api`faults, leaves
    ensures done <= |Writes(listing, desired)|
    ensures api.store == CutPass(old(api.store), listing, desired, done)
    ensures ok ==> done == |Writes(listing, desired)|
    ensures !ok ==> (
              api.faults < old(api.faults) || !Standing(NonDesired(listing, desired), 0, old(api.store)))
    ensures api.faults <= old(api.faults)
  {
    var leftovers := FindNonDesiredLeaves(listing, leaves, desired);
    ok, done := DeleteLeftovers(api, leftovers);
    CutAmongRemoves(old(api.store), listing, desired, leftovers, done);
    if ok {
      ghost var put;
      ok, put := PutLeaves(api, leaves, desired);
      CutAmongPuts(old(api.store), listing, desired, leftovers, put);
      done := done + put;
    }
  }

  /**
   A root that was read with a host, not an empty one, is left alone. Otherwise the stored root gets the host, and keeps
   all else but its version; nobody else changes.
   */
  ghost predicate HostIsThere(s: Store, t: Store, read: Ingress, host: string) {
    var k := Key(read.namespace, read.name);
    if Lookup(read.annotations, "kuadrant.dev/host.generated") != "" then t == s
    else
      && k in s.ingresses && k in t.ingresses && t.ingresses - {k} == s.ingresses - {k}
      && t.ingresses[k].annotations == s.ingresses[k].annotations["kuadrant.dev/host.generated" := host]
      && t.ingresses[k].(annotations := map[], version := 0) == s.ingresses[k].(annotations := map[], version := 0)
  }

  /** Stores a generated host on a root that has none; the root as read is left as it is. */
  method AssignHost(api: Api, ingress: IngressRef, generatedHost: string) returns (ok: bool)
    modifies api`store, api`faults
    ensures ok ==> api.store == HostStage(old(api.store), ingress.obj, generatedHost) && api.faults == old(api.faults)
    ensures ok ==> HostIsThere(old(api.store), api.store, ingress.obj, generatedHost)
    ensures !ok ==> (
              api.store == old(api.store) || api.store == HostStage(old(api.store), ingress.obj, generatedHost))
    ensures !ok ==> api.faults < old(api.faults) || KeyOf(ingress.obj) !in old(api.store.ingresses)
    ensures api.faults <= old(api.faults)
  {
    if Lookup(ingress.obj.annotations, HOST_ANNOTATION) == "" {
      var r := api.PatchHost(KeyOf(ingress.obj), generatedHost);
      return r == Ok;
    }
    return true;
  }

  method PlanAndCarryOut(api: Api, tracker: Tracker, ingress: IngressRef, currentLeaves: seq<Ingress>)
    returns (ok: bool, ghost trail: RootTrail)
    modifies api`store, api`faults, tracker
    ensures trail.listing == currentLeaves
    ensures trail.services.None? ==> (
              !ok && tracker.State() == old(tracker.State()) && api.store == old(api.store))
    ensures trail.services.Some? ==> (
              && trail.services == ServicesOf(ingress.obj, api.services)
              && tracker.State() == AddedAll(old(tracker.State()), ingress.obj, trail.services.value)
              && Planned(old(api.store), api.store, ingress.obj, trail))
    ensures ok ==> Completed(ingress.obj, trail)
    ensures !ok ==> (
              || api.faults < old(api.faults)
              || ServicesOf(ingress.obj, api.services).None?
              || (trail.services.Some? && !Fresh(trail.listing, old(api.store), ingress.obj.name)))
    ensures api.faults <= old(api.faults)
  {
    var leaves;
    ghost var services;
    leaves, services := DesiredLeaves(api, tracker, ingress);
    if leaves.None? {
      return false, RootTrail(None, currentLeaves, 0);
    }
    ghost var done;
    ok, done := CarryOut(api, currentLeaves, leaves.value, Desired(ingress.obj, services));
    trail := RootTrail(Some(services), currentLeaves, done);
    FreshLeftoversStand(old(api.store), currentLeaves, Desired(ingress.obj, services), ingress.obj.name);
  }

  /**
   Why a pass may fail although no call does: a name too long for a label, a missing service, a root no longer stored, a
   stale listing.
   */
  ghost predicate MayFail(
    before: Store, root: Ingress, services: map<Key, Service>, host: string, trail: RootTrail)
  {
    || !Selectable(root.name)
    || ServicesOf(root, services).None?
    || KeyOf(root) !in before.ingresses
    || (trail.services.Some? && !Fresh(trail.listing, HostStage(before, root, host), root.name))
  }

  /**
   What a root pass wrote to the API. Before planning: at most the host. After: the host and a prefix of the plan's
   writes, all of them on success. It fails only after a failed call (`spent`) or for a reason of `MayFail`.
   */
  ghost predicate RootWrites(
    before: Store, after: Store, root: Ingress, services: map<Key, Service>, host: string,
    ok: bool, spent: bool, trail: RootTrail)
  {
    && (trail.services.None? ==> !ok && (after == before || after == HostStage(before, root, host)))
    && (trail.services.Some? ==>
          trail.services == ServicesOf(root, services) && Planned(HostStage(before, root, host), after, root, trail))
    && (trail.services.Some? ==> |root.name| <= 63)
    && (ok ==> Completed(root, trail))
    && (!ok ==> spent || MayFail(before, root, services, host, trail))
  }

  function Tracked(index: Index, root: Ingress, trail: RootTrail): Index {
    if trail.services.Some? then AddedAll(index, root, trail.services.value) else index
  }

  /** The writes of a root pass, with a listing of all leaves that the indexer has. */
  ghost predicate RootReport(
    live: map<string, Ingress>, before: Store, after: Store, root: Ingress, services: map<Key, Service>, host: string,
    ok: bool, spent: bool, trail: RootTrail)
  {
    match trail
    case RootTrail(fetched, listing, _) =>
      && RootWrites(before, after, root, services, host, ok, spent, trail)
      && (fetched.Some? ==> Selected(listing, live, root.name))
  }

  /** One root pass. Nothing but the store, the tracker and objects of its own making is written. */
  method ReconcileRoot(api: Api, tracker: Tracker, indexer: Indexer, domain: string, ingress: IngressRef, xid: string)
    returns (ok: bool, ghost trail: RootTrail)
    requires indexer.Valid()
    modifies api`store, api`faults, tracker
    ensures RootReport(
              indexer.live, old(api.store), api.store, ingress.obj, api.services, xid + "." + domain,
              ok, api.faults < old(api.faults), trail)
    ensures tracker.State() == Tracked(old(tracker.State()), ingress.obj, trail)
    ensures api.faults <= old(api.faults)
  {
    trail := RootTrail(None, [], 0);
    ok := AssignHost(api, ingress, xid + "." + domain);
    if !ok {
      return;
    }
    if !Selectable(ingress.obj.name) {
      return false, trail;
    }
    var currentLeaves := indexer.List(ingress.obj.name);
    ok, trail := PlanAndCarryOut(api, tracker, ingress, currentLeaves);
  }

  /** A pass cut among its deletes, and a pass cut among its puts. */
  lemma CutAmongRemoves(
    s: Store, listing: seq<Ingress>, desired: seq<Ingress>, leftovers: seq<Ingress>, n: nat)
    requires leftovers == NonDesired(listing, desired) && n <= |leftovers|
    ensures n <= |Writes(listing, desired)| && CutPass(s, listing, desired, n) == DoAll(s, Removes(leftovers)[..n])
  {
    assert Writes(listing, desired)[..n] == Removes(leftovers)[..n];
  }

  lemma CutAmongPuts(s: Store, listing: seq<Ingress>, desired: seq<Ingress>, leftovers: seq<Ingress>, n: nat)
    requires leftovers == NonDesired(listing, desired) && n <= |desired|
    ensures |leftovers| + n <= |Writes(listing, desired)| == |leftovers| + |desired|
    ensures CutPass(s, listing, desired, |leftovers| + n) == DoAll(DoAll(s, Removes(leftovers)), Puts(desired)[..n])
  {
    var removes := Removes(leftovers);
    assert Writes(listing, desired)[..|removes| + n] == removes + Puts(desired)[..n];
    DoAllAppend(s, removes, Puts(desired)[..n]);
  }

  lemma HostStageKeepsListingsFresh(s: Store, root: Ingress, host: string, listing: seq<Ingress>, rootName: string)
    requires Fresh(listing, s, rootName)
    ensures Fresh(listing, HostStage(s, root, host), rootName)
  {
  }

  /**
   The passes of the method are the passes of the run theorems: one that succeeds, from an indexer that has caught up
   with the store, is a completed pass with a fresh listing.
   */
  lemma CaughtUpPassIsHosted(
    s: Store, t: Store, live: map<string, Ingress>, root: Ingress, services: map<Key, Service>, host: string,
    trail: RootTrail)
    requires Filed(s) && Mirrors(live, s) && host != ""
    requires KeyOf(root) in s.ingresses && s.ingresses[KeyOf(root)] == root
    requires trail.services.Some? && trail.services == ServicesOf(root, services)
    requires Selected(trail.listing, live, root.name)
    requires Planned(HostStage(s, root, host), t, root, trail) && Completed(root, trail)
    ensures HostedPass(s, t, KeyOf(root), services, host, trail.listing)
  {
    ListingOfAMirrorIsFresh(trail.listing, live, s, root.name);
    HostStageKeepsListingsFresh(s, root, host, trail.listing, root.name);
    var ws := Writes(trail.listing, Desired(root, trail.services.value));
    assert ws[..|ws|] == ws;
  }

  /** And one that fails after planning is a cut pass of the run theorems, if the root is no leaf of its own. */
  lemma CaughtUpFailureIsCut(
    s: Store, t: Store, live: map<string, Ingress>, root: Ingress, services: map<Key, Service>, host: string,
    trail: RootTrail)
    requires Filed(s) && Mirrors(live, s) && host != "" && !Owned(root, root.name)
    requires KeyOf(root) in s.ingresses && s.ingresses[KeyOf(root)] == root
    requires trail.services.Some? && trail.services == ServicesOf(root, services)
    requires Selected(trail.listing, live, root.name)
    requires Planned(HostStage(s, root, host), t, root, trail)
    ensures HostedCut(s, t, KeyOf(root), services, host, trail.listing, trail.done)
  {
    ListingOfAMirrorIsFresh(trail.listing, live, s, root.name);
  }

  /** One that fails before planning, after its host was stored, is such a pass cut before its first write. */
  lemma UnplannedFailureIsCut(s: Store, root: Ingress, services: map<Key, Service>, host: string)
    requires KeyOf(root) in s.ingresses && s.ingresses[KeyOf(root)] == root && host != ""
    requires ServicesOf(root, services).Some?
    ensures HostedCut(s, HostStage(s, root, host), KeyOf(root), services, host, [], 0)
  {
  }

  /**
   From an indexer that has caught up, with the services there and a name that fits a label, there is no reason left for
   a pass to fail but a failed call.
   */
  lemma OnlyFaultsStopACaughtUpPass(
    s: Store, live: map<string, Ingress>, root: Ingress, services: map<Key, Service>, host: string, trail: RootTrail)
    requires Filed(s) && Mirrors(live, s)
    requires KeyOf(root) in s.ingresses && |root.name| <= 63 && ServicesOf(root, services).Some?
    requires trail.services.Some? ==> Selected(trail.listing, live, root.name)
    ensures !MayFail(s, root, services, host, trail)
  {
    if trail.services.Some? {
      ListingOfAMirrorIsFresh(trail.listing, live, s, root.name);
      HostStageKeepsListingsFresh(s, root, host, trail.listing, root.name);
    }
  }
}
