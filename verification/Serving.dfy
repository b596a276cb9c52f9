/** What Envoy is served over whole runs of the system, although a deletion ignores whether its snapshot was set. */
module Serving {
  import opened Wrappers
  import opened Model
  import opened Translator
  import opened EnvoyCache
  import opened System

  ghost predicate IsCurrent(w: World) {
    IsSnapshotOf(w.served, w.envoy)
  }

  /** Envoy gets the same for the ingress as for the one cached under its key. */
  predicate TranslatesAlike(envoy: map<string, Ingress>, ingress: Ingress) {
    var k := IngressKey(ingress);
    && k in envoy && ClusterFor(envoy[k]) == ClusterFor(ingress) && VirtualHostFor(envoy[k]) == VirtualHostFor(ingress)
  }

  /** The step set a snapshot with effect. */
  predicate Publishes(e: Step) {
    (e.WorkLeaf? || e.WorkGone?) && e.published.Some?
  }

  /** The step's snapshot took effect, or none was needed: it cached what translates as before, or removed nothing. */
  predicate PublishesItsChange(w: World, e: Step) {
    match e
    case WorkLeaf(_, cached, _, published) => published.Some? || cached.None? || TranslatesAlike(w.envoy, cached.value)
    case WorkGone(k, published) => published.Some? || k !in w.envoy
    case _ => true
  }

  /** A snapshot of one cache is one of another exactly when both translate to the same. */
  ghost predicate SameTranslation(a: map<string, Ingress>, b: map<string, Ingress>) {
    && a.Keys == b.Keys
    && forall k :: k in a ==> ClusterFor(a[k]) == ClusterFor(b[k]) && VirtualHostFor(a[k]) == VirtualHostFor(b[k])
  }

  lemma SnapshotOfBothIff(s: Snapshot, a: map<string, Ingress>, b: map<string, Ingress>)
    requires Keyed(a) && Keyed(b) && IsSnapshotOf(s, a)
    ensures IsSnapshotOf(s, b) <==> SameTranslation(a, b)
  {
    if IsSnapshotOf(s, b) {
      SharedSnapshotIsSame(s, a, b);
    }
    if SameTranslation(a, b) {
      SameTranslationShares(s, a, b);
    }
  }

  lemma SharedSnapshotIsSame(s: Snapshot, a: map<string, Ingress>, b: map<string, Ingress>)
    requires Keyed(a) && Keyed(b) && IsSnapshotOf(s, a) && IsSnapshotOf(s, b)
    ensures SameTranslation(a, b)
  {
    SnapshotCorresponds(s, a);
    SnapshotCorresponds(s, b);
    TranslatedIn(s, a, b);
    TranslatedIn(s, b, a);
  }

  lemma SnapshotCorresponds(s: Snapshot, m: map<string, Ingress>)
    requires Keyed(m) && IsSnapshotOf(s, m)
    ensures Corresponds(s, m)
  {
    SnapshotAgrees(s, m);
  }

  lemma SameTranslationShares(s: Snapshot, a: map<string, Ingress>, b: map<string, Ingress>)
    requires IsSnapshotOf(s, a) && SameTranslation(a, b)
    ensures IsSnapshotOf(s, b)
  {
    var order :| Enumerates(order, a.Keys) && s == Flatten(order, a);
    FlattenAlike(order, a, b);
  }

  lemma FlattenAlike(order: seq<string>, a: map<string, Ingress>, b: map<string, Ingress>)
    requires Enumerates(order, a.Keys) && SameTranslation(a, b)
    ensures Enumerates(order, b.Keys) && Flatten(order, a) == Flatten(order, b)
  {
    assert Flatten(order, a).clusters == Flatten(order, b).clusters;
    assert Flatten(order, a).virtualHosts == Flatten(order, b).virtualHosts;
  }

  lemma TranslatedIn(s: Snapshot, a: map<string, Ingress>, b: map<string, Ingress>)
    requires Keyed(a) && Corresponds(s, a) && Corresponds(s, b)
    ensures a.Keys <= b.Keys
    ensures forall k :: k in a ==> ClusterFor(a[k]) == ClusterFor(b[k]) && VirtualHostFor(a[k]) == VirtualHostFor(b[k])
  {
    forall k | k in a
      ensures k in b && ClusterFor(a[k]) == ClusterFor(b[k]) && VirtualHostFor(a[k]) == VirtualHostFor(b[k])
    {
      assert ClusterFor(a[k]).name == k && ClusterFor(a[k]) in s.clusters;
      assert VirtualHostFor(a[k]).name == k && VirtualHostFor(a[k]) in s.virtualHosts;
    }
  }

  lemma NextEnvoy(w: World, e: Step)
    ensures Next(w, e).envoy == EnvoyAfter(w.envoy, e)
    ensures Next(w, e).served == match e
                                 case WorkLeaf(_, _, _, published) => Served(w.served, published)
                                 case WorkGone(_, published) => Served(w.served, published)
                                 case _ => w.served
  {
  }

  lemma StepStaysCurrentIff(w: World, e: Step)
    requires Keyed(w.envoy) && IsCurrent(w) && Enabled(w, e)
    ensures IsCurrent(Next(w, e)) <==> PublishesItsChange(w, e)
  {
    NextEnvoy(w, e);
    if Publishes(e) {
      PublishingHeals(w, e);
    } else {
      UnpublishedStaysCurrentIff(w, e);
    }
  }

  lemma UnpublishedStaysCurrentIff(w: World, e: Step)
    requires Keyed(w.envoy) && IsCurrent(w) && !Publishes(e)
    ensures IsSnapshotOf(w.served, EnvoyAfter(w.envoy, e)) <==> PublishesItsChange(w, e)
  {
    SnapshotOfBothIff(w.served, w.envoy, EnvoyAfter(w.envoy, e));
    UnpublishedChange(w.envoy, e);
  }

  lemma UnpublishedChange(envoy: map<string, Ingress>, e: Step)
    requires !Publishes(e)
    ensures SameTranslation(envoy, EnvoyAfter(envoy, e)) <==>
              match e
              case WorkLeaf(_, cached, _, _) => cached.None? || TranslatesAlike(envoy, cached.value)
              case WorkGone(k, _) => k !in envoy
              case _ => true
  {
  }

  ghost predicate AlwaysCurrent(w: World, es: seq<Step>) {
    forall n :: 0 <= n <= |es| ==> IsCurrent(After(w, es[..n]))
  }

  ghost predicate ChangesArePublished(w: World, es: seq<Step>) {
    forall n :: 0 <= n < |es| ==> PublishesItsChange(After(w, es[..n]), es[n])
  }

  /**
   In every state of a run Envoy is served a snapshot of the cache, exactly when the snapshot of every step that changed
   what the cache translates to took effect. Such a leaf pass fails otherwise and is retried; a deletion is not.
   */
  lemma AlwaysCurrentIff(w: World, es: seq<Step>)
    requires Keyed(w.envoy) && IsCurrent(w) && ValidRun(w, es)
    ensures AlwaysCurrent(w, es) <==> ChangesArePublished(w, es)
  {
    if AlwaysCurrent(w, es) {
      forall n | 0 <= n < |es|
        ensures PublishesItsChange(After(w, es[..n]), es[n])
      {
        assert IsCurrent(After(w, es[..n])) && IsCurrent(After(w, es[..n + 1]));
        AfterNext(w, es, n);
        RunsKeepEnvoyKeyed(w, es[..n]);
        assert EnabledAt(w, es, n);
        StepStaysCurrentIff(After(w, es[..n]), es[n]);
      }
    }
    if ChangesArePublished(w, es) {
      forall n | 0 <= n <= |es|
        ensures IsCurrent(After(w, es[..n]))
      {
        PublishedRunIsCurrent(w, es, n);
      }
    }
  }

  lemma {:induction false} PublishedRunIsCurrent(w: World, es: seq<Step>, n: nat)
    requires Keyed(w.envoy) && IsCurrent(w) && ValidRun(w, es) && ChangesArePublished(w, es)
    requires n <= |es|
    ensures IsCurrent(After(w, es[..n]))
  {
    if n > 0 {
      PublishedRunIsCurrent(w, es, n - 1);
      AfterNext(w, es, n - 1);
      RunsKeepEnvoyKeyed(w, es[..n - 1]);
      assert EnabledAt(w, es, n - 1);
      StepStaysCurrentIff(After(w, es[..n - 1]), es[n - 1]);
    }
  }

  /** A snapshot set later makes up for any that was not: what is published is always the whole cache. */
  lemma PublishingHeals(w: World, e: Step)
    requires Enabled(w, e) && Publishes(e)
    ensures IsCurrent(Next(w, e))
  {
    NextEnvoy(w, e);
  }

  lemma EmptyIsCurrent()
    ensures Keyed(EMPTY_WORLD.envoy) && IsCurrent(EMPTY_WORLD)
  {
    assert Enumerates([], EMPTY_WORLD.envoy.Keys) && Snapshot([], []) == Flatten([], EMPTY_WORLD.envoy);
  }

  /****** Deleted ingresses ******/

  /** How many steps the run had taken when a snapshot last took effect. */
  function PublishedUpTo(es: seq<Step>): (n: nat)
    ensures n <= |es|
  {
    if es == [] then 0
    else if Publishes(es[|es| - 1]) then |es|
    else PublishedUpTo(es[..|es| - 1])
  }

  /** What is served is a snapshot of the cache as it was when one last took effect. */
  lemma {:induction false} ServedIsAsLastPublished(w: World, es: seq<Step>)
    requires IsCurrent(w) && ValidRun(w, es)
    ensures IsSnapshotOf(After(w, es).served, After(w, es[..PublishedUpTo(es)]).envoy)
  {
    if es != [] {
      var n := |es| - 1;
      ValidPrefix(w, es, n);
      assert EnabledAt(w, es, n) && es[..n + 1] == es;
      AfterNext(w, es, n);
      if Publishes(es[n]) {
        PublishingHeals(After(w, es[..n]), es[n]);
      } else {
        ServedIsAsLastPublished(w, es[..n]);
        NextEnvoy(After(w, es[..n]), es[n]);
        assert es[..n][..PublishedUpTo(es)] == es[..PublishedUpTo(es)];
      }
    }
  }

  lemma {:induction false} NothingPublishedSince(es: seq<Step>, j: nat)
    requires PublishedUpTo(es) <= j < |es|
    ensures !Publishes(es[j])
  {
    if j < |es| - 1 {
      NothingPublishedSince(es[..|es| - 1], j);
    }
  }

  lemma {:induction false} ServedStays(w: World, es: seq<Step>, n: nat, m: nat)
    requires n <= m <= |es| && forall j :: n <= j < m ==> !Publishes(es[j])
    ensures After(w, es[..m]).served == After(w, es[..n]).served
  {
    if n < m {
      ServedStays(w, es, n, m - 1);
      AfterNext(w, es, m - 1);
      NextEnvoy(After(w, es[..m - 1]), es[m - 1]);
    }
  }

  ghost predicate Serves(w: World, k: string) {
    exists c :: c in w.served.clusters && c.name == k
  }

  ghost predicate ServesTheLiving(w: World) {
    && (forall c :: c in w.served.clusters ==> c.name in w.live)
    && (forall vh :: vh in w.served.virtualHosts ==> vh.name in w.live)
  }

  /** Step `m` dropped a served ingress with no effect on what is served; nothing did since, nor did it return. */
  ghost predicate Forgotten(es: seq<Step>, m: int) {
    && 0 <= m < |es| && es[m].WorkGone? && es[m].published.None?
    && Serves(After(EMPTY_WORLD, es[..m]), es[m].key)
    && es[m].key !in After(EMPTY_WORLD, es).live
    && forall j :: m < j < |es| ==> !Publishes(es[j])
  }

  /** The names that are served are those that were cached when a snapshot last took effect. */
  lemma ServedNames(es: seq<Step>)
    requires ValidRun(EMPTY_WORLD, es)
    ensures var w, cached := After(EMPTY_WORLD, es), After(EMPTY_WORLD, es[..PublishedUpTo(es)]).envoy;
            && (forall k :: Serves(w, k) <==> k in cached)
            && (forall vh :: vh in w.served.virtualHosts ==> vh.name in cached)
  {
    EmptyIsCurrent();
    ServedIsAsLastPublished(EMPTY_WORLD, es);
    var w, cached := After(EMPTY_WORLD, es), After(EMPTY_WORLD, es[..PublishedUpTo(es)]).envoy;
    RunsKeepEnvoyKeyed(EMPTY_WORLD, es[..PublishedUpTo(es)]);
    SnapshotCorresponds(w.served, cached);
    forall k | k in cached
      ensures Serves(w, k)
    {
      assert ClusterFor(cached[k]).name == k && ClusterFor(cached[k]) in w.served.clusters;
    }
  }

  /**
   Once the queue has run dry, Envoy is served nothing for an ingress that is gone, exactly when everything that was
   cached when a snapshot last took effect is still there; and exactly when no deletion was forgotten, that is, each one
   that found its ingress served but did not set its snapshot was followed by a step that set one, or by the ingress's
   return.
   */
  lemma DrainedServesTheLivingIff(es: seq<Step>)
    requires ValidRun(EMPTY_WORLD, es) && TombstonesHarmless(EMPTY_WORLD, es)
    requires After(EMPTY_WORLD, es).queue.queued == {}
    ensures var w := After(EMPTY_WORLD, es);
            && (ServesTheLiving(w) <==> After(EMPTY_WORLD, es[..PublishedUpTo(es)]).envoy.Keys <= w.live.Keys)
            && (ServesTheLiving(w) <==> !exists m :: Forgotten(es, m))
  {
    var w, n := After(EMPTY_WORLD, es), PublishedUpTo(es);
    ServedNames(es);
    assert ServesTheLiving(w) <==> After(EMPTY_WORLD, es[..n]).envoy.Keys <= w.live.Keys by {
      assert forall k :: k in After(EMPTY_WORLD, es[..n]).envoy ==> Serves(w, k);
      assert forall c :: c in w.served.clusters ==> Serves(w, c.name);
    }
    if m :| Forgotten(es, m) {
      ForgottenIsServed(es, m);
    }
    if !ServesTheLiving(w) {
      var k :| k in After(EMPTY_WORLD, es[..n]).envoy && k !in w.live;
      DrainedMeansClean(es);
      assert es[..|es|] == es;
      var m := DroppedSomewhere(EMPTY_WORLD, es, n, |es|, k);
      DroppedIsForgotten(es, m, k);
    }
  }

  lemma ForgottenIsServed(es: seq<Step>, m: nat)
    requires Forgotten(es, m)
    ensures Serves(After(EMPTY_WORLD, es), es[m].key) && !ServesTheLiving(After(EMPTY_WORLD, es))
  {
    StillServed(es, m, es[m].key);
  }

  /** What held and holds no more stopped holding somewhere. */
  lemma {:induction false} LossBetween(held: seq<bool>, n: nat, m: nat) returns (j: nat)
    requires n < m < |held| && held[n] && !held[m]
    ensures n <= j < m && held[j] && !held[j + 1]
  {
    if held[m - 1] {
      j := m - 1;
    } else {
      j := LossBetween(held, n, m - 1);
    }
  }

  /** Something cached that is cached no more was dropped on the way. */
  lemma DroppedSomewhere(w: World, es: seq<Step>, n: nat, m: nat, k: string) returns (j: nat)
    requires n < m <= |es| && k in After(w, es[..n]).envoy && k !in After(w, es[..m]).envoy
    ensures n <= j < m && WorkedGone(es[j], k)
  {
    var held := seq(|es| + 1, i requires 0 <= i < |es| + 1 => k in After(w, es[..i]).envoy);
    j := LossBetween(held, n, m);
    DroppedAt(w, es, j, k);
  }

  lemma DroppedAt(w: World, es: seq<Step>, m: nat, k: string)
    requires m < |es| && k in After(w, es[..m]).envoy && k !in After(w, es[..m + 1]).envoy
    ensures WorkedGone(es[m], k)
  {
    AfterNext(w, es, m);
    NextEnvoy(After(w, es[..m]), es[m]);
  }

  lemma DroppedIsForgotten(es: seq<Step>, m: nat, k: string)
    requires ValidRun(EMPTY_WORLD, es) && PublishedUpTo(es) <= m < |es| && WorkedGone(es[m], k)
    requires k in After(EMPTY_WORLD, es[..PublishedUpTo(es)]).envoy && k !in After(EMPTY_WORLD, es).live
    ensures Forgotten(es, m)
  {
    forall j | m <= j < |es|
      ensures !Publishes(es[j])
    {
      NothingPublishedSince(es, j);
    }
    CachedIsServed(es, k);
    StillServed(es, m, k);
  }

  lemma CachedIsServed(es: seq<Step>, k: string)
    requires ValidRun(EMPTY_WORLD, es) && k in After(EMPTY_WORLD, es[..PublishedUpTo(es)]).envoy
    ensures Serves(After(EMPTY_WORLD, es), k)
  {
    ServedNames(es);
  }

  lemma StillServed(es: seq<Step>, m: nat, k: string)
    requires m <= |es| && forall j :: m <= j < |es| ==> !Publishes(es[j])
    ensures Serves(After(EMPTY_WORLD, es[..m]), k) <==> Serves(After(EMPTY_WORLD, es), k)
  {
    assert es[..|es|] == es;
    ServedStays(EMPTY_WORLD, es, m, |es|);
  }

  /****** Cached roots ******/

  ghost predicate Touches(e: Step, k: string) {
    WorkedGone(e, k) || (e.WorkLeaf? && e.cached.Some? && IngressKey(e.cached.value) == k)
  }

  lemma {:induction false} CachedStays(w: World, es: seq<Step>, n: nat, m: nat, k: string)
    requires n <= m <= |es| && k in After(w, es[..n]).envoy
    requires forall j :: n <= j < m ==> !Touches(es[j], k)
    ensures k in After(w, es[..m]).envoy && After(w, es[..m]).envoy[k] == After(w, es[..n]).envoy[k]
  {
    if n < m {
      CachedStays(w, es, n, m - 1, k);
      AfterNext(w, es, m - 1);
      NextEnvoy(After(w, es[..m - 1]), es[m - 1]);
    }
  }

  /**
   What a leaf pass put into the cache is what Envoy is served under the root's name, and nothing else under that name,
   until another leaf pass caches the root or its deletion is worked off.
   */
  lemma CachedRootIsServed(w: World, es: seq<Step>, n: nat, m: nat)
    requires Keyed(w.envoy) && IsCurrent(w) && ValidRun(w, es) && ChangesArePublished(w, es)
    requires n < m <= |es| && es[n].WorkLeaf? && es[n].cached.Some?
    requires forall j :: n < j < m ==> !Touches(es[j], IngressKey(es[n].cached.value))
    ensures var root, served := es[n].cached.value, After(w, es[..m]).served;
            && ClusterFor(root) in served.clusters && VirtualHostFor(root) in served.virtualHosts
            && (forall c :: c in served.clusters && c.name == IngressKey(root) ==> c == ClusterFor(root))
            && (forall vh :: vh in served.virtualHosts && vh.name == IngressKey(root) ==> vh == VirtualHostFor(root))
  {
    var root := es[n].cached.value;
    AfterNext(w, es, n);
    NextEnvoy(After(w, es[..n]), es[n]);
    CachedStays(w, es, n + 1, m, IngressKey(root));
    PublishedRunIsCurrent(w, es, m);
    RunsKeepEnvoyKeyed(w, es[..m]);
    SnapshotAgrees(After(w, es[..m]).served, After(w, es[..m]).envoy);
    assert ClusterFor(root).name == IngressKey(root) == VirtualHostFor(root).name;
  }

  /** A root whose deletion was worked off without its snapshot being set: the queue is dry, and it is still served. */
  lemma DeletedRootStaysServed(root: Ingress, leaf: Ingress)
    requires !IsLeaf(root) && IsLeaf(leaf)
    requires RootKeyOf(leaf) == IngressKey(root) && IngressKey(leaf) != IngressKey(root)
    ensures var k, s := IngressKey(root), Snapshot([ClusterFor(root)], [VirtualHostFor(root)]);
            var es := [
              Changed(root), Changed(leaf), WorkLeaf(IngressKey(leaf), Some(root), Done, Some(s)),
              Gone(root), WorkGone(k, None)];
            var w := After(EMPTY_WORLD, es);
            && ValidRun(EMPTY_WORLD, es) && w.queue.queued == {}
            && k !in w.live && k !in w.envoy && ClusterFor(root) in w.served.clusters
            && !ChangesArePublished(EMPTY_WORLD, es)
  {
    var k, l, s := IngressKey(root), IngressKey(leaf), Snapshot([ClusterFor(root)], [VirtualHostFor(root)]);
    var es := [
      Changed(root), Changed(leaf), WorkLeaf(l, Some(root), Done, Some(s)), Gone(root), WorkGone(k, None)];
    BothAreQueued(root, leaf);
    var w2 := Next(Next(EMPTY_WORLD, es[0]), es[1]);
    RootIsServed(w2, root, leaf);
    var w3 := Next(w2, es[2]);
    RootIsGone(w3, root);
    FiveSteps(EMPTY_WORLD, es, Next(EMPTY_WORLD, es[0]), w2, w3, Next(w3, es[3]));
  }

  lemma FiveSteps(w: World, es: seq<Step>, w1: World, w2: World, w3: World, w4: World)
    requires |es| == 5
    requires Performs(w, w1, es[0]) && Performs(w1, w2, es[1]) && Performs(w2, w3, es[2]) && Performs(w3, w4, es[3])
    requires Enabled(w4, es[4])
    ensures Leads(w, es[..4], w4) && Leads(w, es, Next(w4, es[4]))
    ensures ChangesArePublished(w, es) ==> PublishesItsChange(w4, es[4])
  {
    assert es[..0] == [] && es[..5] == es;
    LeadsFurther(w, es, 0, w);
    LeadsFurther(w, es, 1, w1);
    LeadsFurther(w, es, 2, w2);
    LeadsFurther(w, es, 3, w3);
    LeadsFurther(w, es, 4, w4);
    assert PublishesItsChange(After(w, es[..4]), es[4]) ==> PublishesItsChange(w4, es[4]);
  }

  ghost predicate Leads(w: World, es: seq<Step>, w': World) {
    ValidRun(w, es) && After(w, es) == w'
  }

  lemma LeadsFurther(w: World, es: seq<Step>, n: nat, u: World)
    requires n < |es| && Leads(w, es[..n], u) && Enabled(u, es[n])
    ensures Leads(w, es[..n + 1], Next(u, es[n]))
  {
    var longer := es[..n + 1];
    AfterNext(w, es, n);
    forall m | 0 <= m < |longer|
      ensures EnabledAt(w, longer, m)
    {
      assert longer[..m] == es[..m];
      if m < n {
        assert es[..n][..m] == es[..m];
        assert EnabledAt(w, es[..n], m);
      }
    }
  }

  lemma BothAreQueued(root: Ingress, leaf: Ingress)
    requires IngressKey(leaf) != IngressKey(root)
    ensures var w := Next(Next(EMPTY_WORLD, Changed(root)), Changed(leaf));
            && w.live == map[IngressKey(root) := root, IngressKey(leaf) := leaf] && w.envoy == map[]
            && w.queue.queued == {IngressKey(root), IngressKey(leaf)}
  {
  }

  lemma RootIsServed(w: World, root: Ingress, leaf: Ingress)
    requires !IsLeaf(root) && IsLeaf(leaf)
    requires RootKeyOf(leaf) == IngressKey(root) && IngressKey(leaf) != IngressKey(root)
    requires w.live == map[IngressKey(root) := root, IngressKey(leaf) := leaf] && w.envoy == map[]
    requires w.queue.queued == {IngressKey(root), IngressKey(leaf)}
    ensures var s := Snapshot([ClusterFor(root)], [VirtualHostFor(root)]);
            var e := WorkLeaf(IngressKey(leaf), Some(root), Done, Some(s));
            && Enabled(w, e) && Next(w, e).live == w.live && Next(w, e).served == s
            && Next(w, e).queue.queued == {IngressKey(root)} && Next(w, e).envoy == map[IngressKey(root) := root]
  {
    var s, m := Snapshot([ClusterFor(root)], [VirtualHostFor(root)]), map[IngressKey(root) := root];
    assert Enumerates([IngressKey(root)], m.Keys) && s == Flatten([IngressKey(root)], m);
  }

  lemma RootIsGone(w: World, root: Ingress)
    requires w.queue.queued == {IngressKey(root)} && w.envoy == map[IngressKey(root) := root]
    ensures var k, t := IngressKey(root), Next(w, Gone(root));
            && k in t.queue.queued && k !in t.live && k in t.envoy
            && var u := Next(t, WorkGone(k, None));
            u.queue.queued == {} && k !in u.live && k !in u.envoy && u.served == w.served
  {
  }
}
