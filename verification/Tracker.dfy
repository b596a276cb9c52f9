/**
 The two-way index from services to the ingresses that reference them.

 `Added(.., keep := false)` is what the code does: the service set of an ingress is replaced at each
 newly tracked service. `keep := true` is the variant that extends an existing set. The lemmas say which
 of the two they are about: `Run` is the code, `RunKeeping` the variant.
 */
module ServiceTracker {
  import opened Model

  /** `tracked` goes from service keys to ingresses, `back` from ingress keys to service keys. */
  datatype Index = Index(tracked: map<string, seq<Ingress>>, back: map<string, set<string>>)

  const EMPTY_INDEX := Index(map[], map[])

  function ListOf(x: Index, service: string): seq<Ingress> {
    if service in x.tracked then x.tracked[service] else []
  }

  function BackOf(x: Index, key: string): set<string> {
    if key in x.back then x.back[key] else {}
  }

  predicate Holds(list: seq<Ingress>, key: string) {
    exists j :: 0 <= j < |list| && IngressKey(list[j]) == key
  }

  /** A change of `service` triggers the ingress `key`. */
  predicate Tracks(x: Index, service: string, key: string) {
    Holds(ListOf(x, service), key)
  }

  function Added(x: Index, ingress: Ingress, service: Service, keep: bool): Index {
    var s, k := ServiceKey(service), IngressKey(ingress);
    if Tracks(x, s, k) then x
    else Index(x.tracked[s := ListOf(x, s) + [ingress]], x.back[k := (if keep then BackOf(x, k) else {}) + {s}])
  }

  function AddedAll(x: Index, ingress: Ingress, services: seq<Service>): Index {
    if services == [] then x
    else Added(AddedAll(x, ingress, services[..|services| - 1]), ingress, services[|services| - 1], false)
  }

  function RemoveFirst(list: seq<Ingress>, key: string): seq<Ingress> {
    if list == [] then []
    else if IngressKey(list[0]) == key then list[1..]
    else [list[0]] + RemoveFirst(list[1..], key)
  }

  /** Takes the ingress out of the lists of the touched services; a touched list left empty goes away. */
  function Swept(tracked: map<string, seq<Ingress>>, touched: set<string>, key: string): map<string, seq<Ingress>> {
    map s | s in tracked && (s in touched ==> RemoveFirst(tracked[s], key) != []) ::
      if s in touched then RemoveFirst(tracked[s], key) else tracked[s]
  }

  function Deleted(x: Index, key: string): Index {
    Index(Swept(x.tracked, BackOf(x, key), key), x.back - {key})
  }

  /** Visiting one more service: its list loses the ingress, and goes away when nothing is left. */
  lemma SweepNext(tracked: map<string, seq<Ingress>>, done: set<string>, s: string, key: string)
    requires s !in done
    ensures var m := Swept(tracked, done, key);
            Swept(tracked, done + {s}, key)
            == if s !in m then m
               else if RemoveFirst(m[s], key) == [] then m - {s}
               else m[s := RemoveFirst(m[s], key)]
  {
  }

  class Tracker {
    var trackedServices: map<string, seq<Ingress>>
    var ingressToServices: map<string, set<string>>

    constructor ()
      ensures State() == EMPTY_INDEX
    {
      trackedServices, ingressToServices := map[], map[];
    }

    ghost function State(): Index
      reads this
    {
      Index(trackedServices, ingressToServices)
    }

    method GetIngress(service: Service) returns (list: seq<Ingress>, ok: bool)
      ensures ok <==> ServiceKey(service) in trackedServices
      ensures list == ListOf(State(), ServiceKey(service))
    {
      var s := ServiceKey(service);
      ok := s in trackedServices;
      list := if ok then trackedServices[s] else [];
    }

    method Add(ingress: Ingress, service: Service)
      modifies this
      ensures State() == Added(old(State()), ingress, service, false)
    {
      var s, k := ServiceKey(service), IngressKey(ingress);
      var list := if s in trackedServices then trackedServices[s] else [];
      for i := 0 to |list|
        invariant !Holds(list[..i], k)
        invariant State() == old(State())
      {
        if IngressKey(list[i]) == k {
          return;
        }
      }
      trackedServices := trackedServices[s := list + [ingress]];
      ingressToServices := ingressToServices[k := {}];
      ingressToServices := ingressToServices[k := ingressToServices[k] + {s}];
    }

    /** The services are visited in any order. */
    method DeleteIngress(key: string)
      modifies this
      ensures State() == Deleted(old(State()), key)
    {
      var todo := if key in ingressToServices then ingressToServices[key] else {};
      ghost var touched := todo;
      while todo != {}
        invariant todo <= touched
        invariant trackedServices == Swept(old(trackedServices), touched - todo, key)
        invariant ingressToServices == old(ingressToServices)
      {
        var s :| s in todo;
        SweepNext(old(trackedServices), touched - todo, s, key);
        assert touched - (todo - {s}) == touched - todo + {s};
        RemoveFrom(s, key);
        if s !in trackedServices || |trackedServices[s]| == 0 {
          trackedServices := trackedServices - {s};
        }
        todo := todo - {s};
      }
      ingressToServices := ingressToServices - {key};
    }

    method RemoveFrom(s: string, key: string)
      modifies this`trackedServices
      ensures trackedServices == if s in old(trackedServices)
              then old(trackedServices)[s := RemoveFirst(old(trackedServices)[s], key)] else old(trackedServices)
    {
      var list := if s in trackedServices then trackedServices[s] else [];
      var i := 0;
      while i < |list|
        invariant 0 <= i <= |list| && !Holds(list[..i], key)
        invariant trackedServices == old(trackedServices)
      {
        if IngressKey(list[i]) == key {
          RemoveFirstAt(list, key, i);
          trackedServices := trackedServices[s := list[..i] + list[i + 1..]];
          return;
        }
        i := i + 1;
      }
      RemoveFirstAt(list, key, i);
      assert s in trackedServices ==> trackedServices == trackedServices[s := list];
    }
  }

  /** Removal takes out the first entry of the key; without one it changes nothing. */
  lemma {:induction false} RemoveFirstAt(list: seq<Ingress>, key: string, i: nat)
    requires i <= |list| && !Holds(list[..i], key) && (i < |list| ==> IngressKey(list[i]) == key)
    ensures RemoveFirst(list, key) == if i < |list| then list[..i] + list[i + 1..] else list
  {
    if i > 0 {
      assert list[..i][0] == list[0];
      forall j | 0 <= j < i - 1
        ensures IngressKey(list[1..][j]) != key
      {
        assert list[1..][j] == list[..i][j + 1];
      }
      RemoveFirstAt(list[1..], key, i - 1);
      HeadRejoins(list, i);
    }
  }

  lemma HeadRejoins(list: seq<Ingress>, i: nat)
    requires 0 < i <= |list|
    ensures [list[0]] + list[1..] == list
    ensures i < |list| ==> [list[0]] + (list[1..][..i - 1] + list[1..][i..]) == list[..i] + list[i + 1..]
  {
  }

  /****** Runs, and the plain relation they should agree with ******/

  datatype Op = Track(ingress: Ingress, service: Service) | Untrack(key: string)

  function Apply(x: Index, op: Op, keep: bool): Index {
    match op
    case Track(ingress, service) => Added(x, ingress, service, keep)
    case Untrack(key) => Deleted(x, key)
  }

  function RunWith(ops: seq<Op>, keep: bool): Index {
    if ops == [] then EMPTY_INDEX
    else Apply(RunWith(ops[..|ops| - 1], keep), ops[|ops| - 1], keep)
  }

  function Run(ops: seq<Op>): Index {
    RunWith(ops, false)
  }

  function RunKeeping(ops: seq<Op>): Index {
    RunWith(ops, true)
  }

  type Relation = set<(string, string)>

  /** The pairs (service key, ingress key) that should trigger: tracked and not deleted since. */
  function Wanted(ops: seq<Op>): Relation {
    if ops == [] then {}
    else
      var before := Wanted(ops[..|ops| - 1]);
      match ops[|ops| - 1]
      case Track(ingress, service) => before + {(ServiceKey(service), IngressKey(ingress))}
      case Untrack(key) => set p | p in before && p.1 != key
  }

  ghost predicate Exact(x: Index, r: Relation) {
    forall s, k :: Tracks(x, s, k) <==> (s, k) in r
  }

  /** The ingress has at most one service in the relation. */
  ghost predicate AtMostOne(r: Relation, key: string) {
    forall s1, s2 :: (s1, key) in r && (s2, key) in r ==> s1 == s2
  }

  predicate Distinct(list: seq<Ingress>) {
    forall i, j :: 0 <= i < j < |list| ==> IngressKey(list[i]) != IngressKey(list[j])
  }

  /** The representation invariant of both versions. */
  ghost predicate WellFormed(x: Index) {
    && (forall s :: s in x.tracked ==> x.tracked[s] != [] && Distinct(x.tracked[s]))
    && (forall k :: k in x.back ==> x.back[k] != {})
    && (forall s, k :: s in BackOf(x, k) ==> Tracks(x, s, k))
  }

  function Others(list: seq<Ingress>, key: string): seq<Ingress> {
    if list == [] then []
    else (if IngressKey(list[0]) == key then [] else [list[0]]) + Others(list[1..], key)
  }

  ghost predicate ExactThroughout(ops: seq<Op>) {
    forall n :: 0 <= n <= |ops| ==> Exact(Run(ops[..n]), Wanted(ops[..n]))
  }

  /** No ingress is deleted while it tracks two distinct services. */
  ghost predicate SingleAtDeletes(ops: seq<Op>) {
    forall n :: 0 <= n < |ops| && ops[n].Untrack? ==> AtMostOne(Wanted(ops[..n]), ops[n].key)
  }

  /****** One step ******/

  lemma RemoveFirstHolds(list: seq<Ingress>, key: string, k: string)
    ensures k != key ==> (Holds(RemoveFirst(list, key), k) <==> Holds(list, k))
    ensures Holds(RemoveFirst(list, key), k) ==> Holds(list, k)
    ensures Distinct(list) ==> Distinct(RemoveFirst(list, key)) && !Holds(RemoveFirst(list, key), key)
    ensures Others(RemoveFirst(list, key), key) == Others(list, key)
  {
    RemoveFirstKeepsOthers(list, key);
    RemoveFirstHoldsNoMore(list, key, k);
    if Distinct(list) {
      RemoveFirstStaysDistinct(list, key);
    }
  }

  lemma {:induction false} RemoveFirstKeepsOthers(list: seq<Ingress>, key: string)
    ensures Others(RemoveFirst(list, key), key) == Others(list, key)
  {
    if list != [] && IngressKey(list[0]) != key {
      RemoveFirstKeepsOthers(list[1..], key);
    }
  }

  lemma {:induction false} RemoveFirstHoldsNoMore(list: seq<Ingress>, key: string, k: string)
    ensures k != key ==> (Holds(RemoveFirst(list, key), k) <==> Holds(list, k))
    ensures Holds(RemoveFirst(list, key), k) ==> Holds(list, k)
  {
    if list != [] {
      var head, rest := list[0], list[1..];
      assert list == [head] + rest;
      HoldsSplit([head], rest, k);
      if IngressKey(head) != key {
        RemoveFirstHoldsNoMore(rest, key, k);
        HoldsSplit([head], RemoveFirst(rest, key), k);
      }
    }
  }

  lemma {:induction false} RemoveFirstStaysDistinct(list: seq<Ingress>, key: string)
    requires Distinct(list)
    ensures Distinct(RemoveFirst(list, key)) && !Holds(RemoveFirst(list, key), key)
  {
    if list != [] {
      var head, rest := list[0], list[1..];
      DistinctUncons(list);
      if IngressKey(head) != key {
        RemoveFirstStaysDistinct(rest, key);
        RemoveFirstHoldsNoMore(rest, key, IngressKey(head));
        DistinctCons(head, RemoveFirst(rest, key));
        HoldsSplit([head], RemoveFirst(rest, key), key);
      }
    }
  }

  lemma DistinctUncons(list: seq<Ingress>)
    requires list != [] && Distinct(list)
    ensures Distinct(list[1..]) && !Holds(list[1..], IngressKey(list[0]))
  {
    assert forall j :: 0 <= j < |list[1..]| ==> list[1..][j] == list[j + 1];
  }

  lemma HoldsSplit(a: seq<Ingress>, b: seq<Ingress>, k: string)
    ensures Holds(a + b, k) <==> Holds(a, k) || Holds(b, k)
  {
    if Holds(a, k) {
      var j :| 0 <= j < |a| && IngressKey(a[j]) == k;
      assert (a + b)[j] == a[j];
    }
    if Holds(b, k) {
      var j :| 0 <= j < |b| && IngressKey(b[j]) == k;
      assert (a + b)[|a| + j] == b[j];
    }
  }

  lemma DistinctCons(head: Ingress, rest: seq<Ingress>)
    requires Distinct(rest) && !Holds(rest, IngressKey(head))
    ensures Distinct([head] + rest)
  {
  }

  lemma AddedTracks(x: Index, ingress: Ingress, service: Service, keep: bool, s: string, k: string)
    ensures Tracks(Added(x, ingress, service, keep), s, k)
       <==> Tracks(x, s, k) || (s == ServiceKey(service) && k == IngressKey(ingress))
  {
    var s0 := ServiceKey(service);
    HoldsSplit(ListOf(x, s0), [ingress], k);
    assert Holds([ingress], k) <==> k == IngressKey(ingress) by {
      assert [ingress][0] == ingress;
    }
  }

  lemma DeletedTracks(x: Index, key: string, s: string, k: string)
    ensures k != key ==> (Tracks(Deleted(x, key), s, k) <==> Tracks(x, s, k))
    ensures s !in BackOf(x, key) ==> ListOf(Deleted(x, key), s) == ListOf(x, s)
    ensures WellFormed(x) && s in BackOf(x, key) ==> !Tracks(Deleted(x, key), s, key)
    ensures Others(ListOf(Deleted(x, key), s), key) == Others(ListOf(x, s), key)
  {
    RemoveFirstHolds(ListOf(x, s), key, k);
  }

  /** Removal in place leaves every other ingress in every list, with its content and in its order. */
  lemma DeleteKeepsTheOthers(x: Index, key: string, s: string)
    ensures Others(ListOf(Deleted(x, key), s), key) == Others(ListOf(x, s), key)
    ensures forall k :: k != key ==> BackOf(Deleted(x, key), k) == BackOf(x, k)
  {
    DeletedTracks(x, key, s, key);
  }

  lemma StepKeepsWellFormed(x: Index, op: Op, keep: bool)
    requires WellFormed(x)
    ensures WellFormed(Apply(x, op, keep))
  {
    match op {
      case Track(ingress, service) => AddedKeepsWellFormed(x, ingress, service, keep);
      case Untrack(key) => DeletedKeepsWellFormed(x, key);
    }
  }

  lemma AddedKeepsWellFormed(x: Index, ingress: Ingress, service: Service, keep: bool)
    requires WellFormed(x)
    ensures WellFormed(Added(x, ingress, service, keep))
  {
    var s0, k0 := ServiceKey(service), IngressKey(ingress);
    var y := Added(x, ingress, service, keep);
    if !Tracks(x, s0, k0) {
      DistinctSnoc(ListOf(x, s0), ingress);
      forall s, k | s in BackOf(y, k)
        ensures Tracks(y, s, k)
      {
        AddedTracks(x, ingress, service, keep, s, k);
      }
    }
  }

  lemma DeletedKeepsWellFormed(x: Index, key: string)
    requires WellFormed(x)
    ensures WellFormed(Deleted(x, key))
  {
    var y := Deleted(x, key);
    forall s | s in y.tracked
      ensures y.tracked[s] != [] && Distinct(y.tracked[s])
    {
      RemoveFirstHolds(x.tracked[s], key, key);
    }
    forall s, k | s in BackOf(y, k)
      ensures Tracks(y, s, k)
    {
      DeletedTracks(x, key, s, k);
    }
  }

  lemma DistinctSnoc(list: seq<Ingress>, last: Ingress)
    requires Distinct(list) && !Holds(list, IngressKey(last))
    ensures Distinct(list + [last])
  {
  }

  /****** Every run ******/

  /** Both versions keep lists non-empty and free of duplicate keys, and back every reverse pair. */
  lemma {:induction false} RunsAreWellFormed(ops: seq<Op>, keep: bool)
    ensures WellFormed(RunWith(ops, keep))
  {
    if ops == [] {
    } else {
      RunsAreWellFormed(ops[..|ops| - 1], keep);
      StepKeepsWellFormed(RunWith(ops[..|ops| - 1], keep), ops[|ops| - 1], keep);
    }
  }

  /** The code never loses a trigger: it tracks every pair the relation holds. */
  lemma {:induction false} NoTriggerLost(ops: seq<Op>, s: string, k: string)
    requires (s, k) in Wanted(ops)
    ensures Tracks(Run(ops), s, k)
  {
    var n := |ops| - 1;
    var before := ops[..n];
    match ops[n] {
      case Track(ingress, service) =>
        AddedTracks(Run(before), ingress, service, false, s, k);
        if (s, k) in Wanted(before) {
          NoTriggerLost(before, s, k);
        }
      case Untrack(key) =>
        NoTriggerLost(before, s, k);
        DeletedTracks(Run(before), key, s, k);
    }
  }

  /** The variant that keeps an existing set agrees with the relation on every run, in both directions of the index. */
  lemma {:induction false} KeepingIsExact(ops: seq<Op>)
    ensures Exact(RunKeeping(ops), Wanted(ops))
    ensures forall s, k :: s in BackOf(RunKeeping(ops), k) <==> (s, k) in Wanted(ops)
  {
    if ops == [] {
    } else {
      var n := |ops| - 1;
      var before := ops[..n];
      KeepingIsExact(before);
      RunsAreWellFormed(before, true);
      var x, y := RunKeeping(before), RunKeeping(ops);
      forall s, k
        ensures Tracks(y, s, k) <==> (s, k) in Wanted(ops)
        ensures s in BackOf(y, k) <==> (s, k) in Wanted(ops)
      {
        assert Tracks(x, s, k) <==> (s, k) in Wanted(before);
        match ops[n] {
          case Track(ingress, service) => AddedTracks(x, ingress, service, true, s, k);
          case Untrack(key) => DeletedTracks(x, key, s, k);
        }
      }
    }
  }

  /** The reverse set of the code never has two services, and is there for every ingress in the relation. */
  lemma {:induction false} BackIsASingleton(ops: seq<Op>, k: string)
    ensures forall s1, s2 :: s1 in BackOf(Run(ops), k) && s2 in BackOf(Run(ops), k) ==> s1 == s2
  {
    if ops == [] {
    } else {
      var before, last := ops[..|ops| - 1], ops[|ops| - 1];
      BackIsASingleton(before, k);
      var x, y := Run(before), Run(ops);
      match last {
        case Track(ingress, service) => assert BackOf(y, k) == BackOf(x, k) || BackOf(y, k) == {ServiceKey(service)};
        case Untrack(key) => assert BackOf(y, k) <= BackOf(x, k);
      }
    }
  }

  /** A deletion that finds two services in the relation leaves the code with a pair the relation no longer holds. */
  lemma DeleteOfTwoIsInexact(ops: seq<Op>, key: string)
    requires Exact(Run(ops), Wanted(ops))
    requires !AtMostOne(Wanted(ops), key)
    ensures !Exact(Run(ops + [Untrack(key)]), Wanted(ops + [Untrack(key)]))
  {
    var x, r := Run(ops), Wanted(ops);
    var s1, s2 :| (s1, key) in r && (s2, key) in r && s1 != s2;
    BackIsASingleton(ops, key);
    assert (ops + [Untrack(key)])[..|ops|] == ops;
    var s := if s1 in BackOf(x, key) then s2 else s1;
    DeletedTracks(x, key, s, key);
    assert Tracks(x, s, key);
    assert Tracks(Deleted(x, key), s, key);
    assert (s, key) !in Wanted(ops + [Untrack(key)]);
  }

  /** What holds while every deletion so far found at most one service. */
  ghost predicate Agrees(x: Index, r: Relation) {
    && WellFormed(x)
    && Exact(x, r)
    && (forall s, k :: s in BackOf(x, k) ==> (s, k) in r)
    && (forall s, k :: (s, k) in r ==> BackOf(x, k) != {})
  }

  lemma {:induction false} AgreesWhileSingle(ops: seq<Op>)
    requires SingleAtDeletes(ops)
    ensures Agrees(Run(ops), Wanted(ops))
  {
    if ops == [] {
    } else {
      var n := |ops| - 1;
      var before := ops[..n];
      SingleAtDeletesPrefix(ops, n);
      AgreesWhileSingle(before);
      StepKeepsWellFormed(Run(before), ops[n], false);
      StepAgrees(Run(before), Wanted(before), ops[n], Wanted(ops));
    }
  }

  lemma StepAgrees(x: Index, r: Relation, op: Op, r': Relation)
    requires Agrees(x, r)
    requires op.Track? ==> r' == r + {(ServiceKey(op.service), IngressKey(op.ingress))}
    requires op.Untrack? ==> AtMostOne(r, op.key) && r' == set p | p in r && p.1 != op.key
    requires WellFormed(Apply(x, op, false))
    ensures Agrees(Apply(x, op, false), r')
  {
    var y := Apply(x, op, false);
    forall s, k
      ensures Tracks(y, s, k) <==> (s, k) in r'
      ensures s in BackOf(y, k) ==> (s, k) in r'
      ensures (s, k) in r' ==> BackOf(y, k) != {}
    {
      assert Tracks(x, s, k) <==> (s, k) in r;
      match op {
        case Track(ingress, service) =>
          AddedTracks(x, ingress, service, false, s, k);
          assert Tracks(x, ServiceKey(service), IngressKey(ingress))
            <==> (ServiceKey(service), IngressKey(ingress)) in r;
        case Untrack(key) =>
          SingleIsUntracked(x, r, key, s, k);
          UntrackedIsNotBacked(x, r, key, s, k);
      }
    }
  }

  lemma SingleIsUntracked(x: Index, r: Relation, key: string, s: string, k: string)
    requires Agrees(x, r) && AtMostOne(r, key)
    ensures Tracks(Deleted(x, key), s, k) <==> (s, k) in r && k != key
  {
    DeletedTracks(x, key, s, k);
    if k != key {
      assert Tracks(x, s, k) <==> (s, k) in r;
    } else if Tracks(x, s, key) {
      SingleIsBacked(x, r, key, s);
    }
  }

  lemma UntrackedIsNotBacked(x: Index, r: Relation, key: string, s: string, k: string)
    requires Agrees(x, r)
    ensures s in BackOf(Deleted(x, key), k) ==> (s, k) in r && k != key
    ensures (s, k) in r && k != key ==> BackOf(Deleted(x, key), k) != {}
  {
    assert BackOf(Deleted(x, key), k) == if k == key then {} else BackOf(x, k);
  }

  lemma SingleIsBacked(x: Index, r: Relation, key: string, s: string)
    requires Agrees(x, r) && AtMostOne(r, key) && Tracks(x, s, key)
    ensures s in BackOf(x, key)
  {
    assert (s, key) in r;
    var b :| b in BackOf(x, key);
    assert (b, key) in r;
  }

  /** The code agrees with the relation throughout a run exactly when each deletion finds at most one service. */
  lemma ExactIffSingleAtDeletes(ops: seq<Op>)
    ensures ExactThroughout(ops) <==> SingleAtDeletes(ops)
  {
    if ExactThroughout(ops) {
      forall n | 0 <= n < |ops| && ops[n].Untrack?
        ensures AtMostOne(Wanted(ops[..n]), ops[n].key)
      {
        assert ops[..n + 1] == ops[..n] + [Untrack(ops[n].key)];
        assert Exact(Run(ops[..n + 1]), Wanted(ops[..n + 1]));
        if !AtMostOne(Wanted(ops[..n]), ops[n].key) {
          DeleteOfTwoIsInexact(ops[..n], ops[n].key);
        }
      }
    }
    if SingleAtDeletes(ops) {
      forall n | 0 <= n <= |ops|
        ensures Exact(Run(ops[..n]), Wanted(ops[..n]))
      {
        SingleAtDeletesPrefix(ops, n);
        AgreesWhileSingle(ops[..n]);
      }
    }
  }

  lemma SingleAtDeletesPrefix(ops: seq<Op>, n: nat)
    requires n <= |ops| && SingleAtDeletes(ops)
    ensures SingleAtDeletes(ops[..n])
  {
    forall m | 0 <= m < n && ops[..n][m].Untrack?
      ensures AtMostOne(Wanted(ops[..n][..m]), ops[..n][m].key)
    {
      assert ops[..n][..m] == ops[..m];
    }
  }

  /** A concrete run that leaves a stale pair: two services tracked, then the ingress deleted. */
  lemma StalePairExample(ingress: Ingress, s1: Service, s2: Service)
    requires ServiceKey(s1) != ServiceKey(s2)
    ensures var ops := [Track(ingress, s1), Track(ingress, s2), Untrack(IngressKey(ingress))];
            Tracks(Run(ops), ServiceKey(s1), IngressKey(ingress)) && Wanted(ops) == {}
  {
    var k := IngressKey(ingress);
    var o1, o2, o3 := Track(ingress, s1), Track(ingress, s2), Untrack(k);
    var x1 := Added(EMPTY_INDEX, ingress, s1, false);
    var x2 := Added(x1, ingress, s2, false);
    Snoc([], o1);
    Snoc([o1], o2);
    Snoc([o1, o2], o3);
    assert [] + [o1] == [o1] && [o1] + [o2] == [o1, o2] && [o1, o2] + [o3] == [o1, o2, o3];
    AddedTracks(EMPTY_INDEX, ingress, s1, false, ServiceKey(s1), k);
    AddedTracks(EMPTY_INDEX, ingress, s1, false, ServiceKey(s2), k);
    AddedTracks(x1, ingress, s2, false, ServiceKey(s1), k);
    DeletedTracks(x2, k, ServiceKey(s1), k);
  }

  lemma Snoc(ops: seq<Op>, op: Op)
    ensures Run(ops + [op]) == Apply(Run(ops), op, false)
    ensures op.Track? ==> Wanted(ops + [op]) == Wanted(ops) + {(ServiceKey(op.service), IngressKey(op.ingress))}
    ensures op.Untrack? ==> Wanted(ops + [op]) == set p | p in Wanted(ops) && p.1 != op.key
  {
    assert (ops + [op])[..|ops|] == ops;
  }
}
