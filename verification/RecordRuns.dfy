/** The DNS records over runs of the controller with the API: its leaf passes make the record runs of `LeafPass`. */
module RecordRuns {
  import opened Wrappers
  import opened Model
  import opened ApiServer
  import opened LeafPass
  import opened System
  import opened LeafReconciler
  import opened Operation
  import opened JointRuns

  /** The records are the controller's alone, and there were none at first. */
  ghost predicate OwnRecords(ms: seq<Moment>, ts: seq<Turn>)
    requires |ms| == |ts| + 1
  {
    && ms[0].outside.records == map[]
    && forall i :: 0 <= i < |ts| && !IsWork(ts[i].step) ==> KeepsRecords(ms, i)
  }

  ghost predicate KeepsRecords(ms: seq<Moment>, i: nat)
    requires i + 1 < |ms|
  {
    ms[i + 1].outside.records == ms[i].outside.records
  }

  /** The leaf pass found its root. */
  predicate DecidesAbout(m: Moment, t: Turn, leaf: Ingress) {
    && t.step.WorkLeaf? && t.step.key in m.world.live && m.world.live[t.step.key] == leaf
    && t.trail.OfLeaf? && t.trail.leaf.root.Some?
  }

  /** The leaf that a turn reports as removed, with its object or without. */
  function RemovedBy(m: Moment, t: Turn): Option<Key> {
    match t.step
    case Gone(ingress) => Some(KeyOf(ingress))
    case Tombstone(key) => if key in m.world.live then Some(KeyOf(m.world.live[key])) else None
    case _ => None
  }

  /** What a turn is to the records. A pass that got past the DNS stage was carried out. */
  ghost predicate IsEventOf(m: Moment, t: Turn, e: RecordEvent) {
    match e
    case Observed(leaf, rootHost, resolve, applied) =>
      && DecidesAbout(m, t, leaf) && rootHost == RootHost(t.trail.leaf.root.value) && resolve == t.resolve
      && (t.trail.leaf.settled ==> applied)
    case LeafRemoved(k) => RemovedBy(m, t) == Some(k)
    case Unrelated => RemovedBy(m, t).None? && forall leaf :: !DecidesAbout(m, t, leaf)
  }

  ghost predicate IsHistory(ms: seq<Moment>, ts: seq<Turn>, es: seq<RecordEvent>)
    requires |es| <= |ts| <= |ms|
  {
    forall i :: 0 <= i < |es| ==> IsEventOf(ms[i], ts[i], es[i])
  }

  lemma TurnIsAnEvent(config: Config, m: Moment, m': Moment, t: Turn) returns (e: RecordEvent)
    requires Moves(config, m, m', t) && (!IsWork(t.step) ==> m'.outside.records == m.outside.records)
    ensures IsEventOf(m, t, e)
    ensures m'.outside.records == Recorded(m.outside.records, e)
  {
    if t.step.WorkLeaf? {
      e := LeafTurnIsAnEvent(config, m, m', t);
    } else {
      var removed := RemovedBy(m, t);
      e := if removed.Some? then LeafRemoved(removed.value) else Unrelated;
    }
  }

  lemma LeafTurnIsAnEvent(config: Config, m: Moment, m': Moment, t: Turn) returns (e: RecordEvent)
    requires Moves(config, m, m', t) && t.step.WorkLeaf?
    ensures IsEventOf(m, t, e)
    ensures m'.outside.records == Recorded(m.outside.records, e)
  {
    var leaf, trail := m.world.live[t.step.key], t.trail.leaf;
    assert LeafReport(
        config, m.world.live, m.outside.store, m'.outside.store, m.outside.records, m'.outside.records, leaf,
        t.resolve, !Failing(t.step, t.step.key), m'.outside.faults < m.outside.faults, trail);
    if trail.root.None? {
      return Unrelated;
    }
    var root := trail.root.value;
    var applied := trail.settled || Settles(m.outside.records, m'.outside.records, leaf, root, t.resolve);
    e := Observed(leaf, RootHost(root), t.resolve, applied);
  }

  /** The records of a joint run are those of its history of leaf passes and removals. */
  lemma {:induction false} RecordsFollowTheHistory(config: Config, ms: seq<Moment>, ts: seq<Turn>, n: nat)
    returns (es: seq<RecordEvent>)
    requires JointRun(config, ms, ts) && OwnRecords(ms, ts) && n <= |ts|
    ensures |es| == n && IsHistory(ms, ts, es)
    ensures ms[n].outside.records == Records(es)
  {
    if n == 0 {
      es := [];
    } else {
      var before := RecordsFollowTheHistory(config, ms, ts, n - 1);
      assert MovesAt(config, ms, ts, n - 1) && (!IsWork(ts[n - 1].step) ==> KeepsRecords(ms, n - 1));
      var e := TurnIsAnEvent(config, ms[n - 1], ms[n], ts[n - 1]);
      es := before + [e];
      assert es[..n - 1] == before;
    }
  }

  /**
   The record of a leaf that was removed at turn `n`, and that no leaf pass sees again, is still there at the end of the
   run exactly when the last pass whose decision was carried out before the removal saw it staying, with a host and an
   entry.
   */
  lemma RemovedLeafKeepsItsRecordIff(config: Config, ms: seq<Moment>, ts: seq<Turn>, n: nat, k: Key)
    returns (es: seq<RecordEvent>)
    requires JointRun(config, ms, ts) && OwnRecords(ms, ts)
    requires n < |ts| && RemovedBy(ms[n], ts[n]) == Some(k)
    requires forall j, leaf :: n < j < |ts| && DecidesAbout(ms[j], ts[j], leaf) ==> KeyOf(leaf) != k
    ensures |es| == |ts| && IsHistory(ms, ts, es)
    ensures k in ms[|ts|].outside.records
       <==> exists i :: WasExposed(es[..n], i, k)
  {
    es := RecordsFollowTheHistory(config, ms, ts, |ts|);
    assert IsEventOf(ms[n], ts[n], es[n]);
    forall j | n < j < |es|
      ensures !Observes(es[j], k)
    {
      assert IsEventOf(ms[j], ts[j], es[j]);
    }
    RecordIsOrphanedIff(es, n, k);
  }
}
