/**
 What root passes do to the stored ingresses: the ordered writes of a pass, passes cut short at any write,
 passes working from stale listings, and what a completed pass leaves behind whatever came before it.
 */
module RootPass {
  import opened Model
  import opened ApiServer
  import opened Planning

  /** `Put` is the create call, and on an existing object the get and update calls. */
  datatype Write = Remove(key: Key) | Put(leaf: Ingress)

  function Do(s: Store, w: Write): Store {
    match w
    case Remove(k) => Removed(s, k)
    case Put(leaf) => if KeyOf(leaf) in s.ingresses then Updated(s, leaf) else Created(s, leaf)
  }

  function DoAll(s: Store, ws: seq<Write>): Store {
    if ws == [] then s else Do(DoAll(s, ws[..|ws| - 1]), ws[|ws| - 1])
  }

  function Removes(leftovers: seq<Ingress>): seq<Write> {
    seq(|leftovers|, i requires 0 <= i < |leftovers| => Remove(KeyOf(leftovers[i])))
  }

  function Puts(desired: seq<Ingress>): seq<Write> {
    seq(|desired|, i requires 0 <= i < |desired| => Put(desired[i]))
  }

  /** The writes of a pass, in order: the leftovers of the listing go, then every desired leaf is put. */
  function Writes(listing: seq<Ingress>, desired: seq<Ingress>): seq<Write> {
    Removes(NonDesired(listing, desired)) + Puts(desired)
  }

  function CutPass(s: Store, listing: seq<Ingress>, desired: seq<Ingress>, cut: nat): Store
    requires cut <= |Writes(listing, desired)|
  {
    DoAll(s, Writes(listing, desired)[..cut])
  }

  function FullPass(s: Store, listing: seq<Ingress>, desired: seq<Ingress>): Store {
    DoAll(s, Writes(listing, desired))
  }

  /** The listing names exactly the stored leaves of the root, each once. Order and contents are free. */
  ghost predicate Fresh(listing: seq<Ingress>, s: Store, rootName: string) {
    && (forall k :: HasKey(listing, k) <==> k in s.ingresses && Owned(s.ingresses[k], rootName))
    && DistinctKeys(listing)
  }

  /****** Prefixes of a pass ******/

  /** What a prefix of a pass does to the entry at `k`. */
  ghost predicate Entry(before: Store, after: Store, listing: seq<Ingress>, desired: seq<Ingress>, k: Key) {
    if HasKey(desired, k) then
      // a desired leaf is never deleted; what is written over it leaves its identity and its status alone
      && (k in before.ingresses ==>
            && k in after.ingresses
            && SameIdentity(after.ingresses[k], before.ingresses[k])
            && (Content(after.ingresses[k]) == Content(before.ingresses[k])
                || IsContentOf(after.ingresses[k], desired)))
      && (k !in before.ingresses && k in after.ingresses ==>
            IsContentOf(after.ingresses[k], desired) && after.ingresses[k].status == [])
    else if HasKey(listing, k) && !HasName(desired, k.name) then
      // a leftover of the listing is left alone or deleted
      k in after.ingresses ==> k in before.ingresses && after.ingresses[k] == before.ingresses[k]
    else
      (k in after.ingresses <==> k in before.ingresses)
      && (k in before.ingresses ==> after.ingresses[k] == before.ingresses[k])
  }

  predicate SameIdentity(a: Ingress, b: Ingress) {
    a.uid == b.uid && a.status == b.status && a.deleting == b.deleting
  }

  predicate IsContentOf(i: Ingress, desired: seq<Ingress>) {
    exists j :: 0 <= j < |desired| && KeyOf(desired[j]) == KeyOf(i) && Content(i) == Content(desired[j])
  }

  lemma WritesAt(listing: seq<Ingress>, desired: seq<Ingress>, n: nat)
    requires n < |Writes(listing, desired)|
    ensures var w, m := Writes(listing, desired)[n], |NonDesired(listing, desired)|;
            if n < m then w.Remove? && HasKey(listing, w.key) && !HasName(desired, w.key.name)
            else w.Put? && n - m < |desired| && w.leaf == desired[n - m]
  {
    var leftovers := NonDesired(listing, desired);
    if n < |leftovers| {
      NonDesiredMeaning(listing, desired);
      var c := leftovers[n];
      assert c in leftovers;
      var i :| 0 <= i < |listing| && listing[i] == c;
    }
  }

  /** However stale the listing and wherever the pass is cut, every entry changes only as `Entry` says. */
  lemma {:induction false} CutPassEntries(s: Store, listing: seq<Ingress>, desired: seq<Ingress>, cut: nat, k: Key)
    requires Filed(s) && cut <= |Writes(listing, desired)|
    ensures Filed(CutPass(s, listing, desired, cut))
    ensures Entry(s, CutPass(s, listing, desired, cut), listing, desired, k)
  {
    if cut == 0 {
    } else {
      var ws := Writes(listing, desired);
      assert ws[..cut][..cut - 1] == ws[..cut - 1];
      CutPassEntries(s, listing, desired, cut - 1, k);
      WritesAt(listing, desired, cut - 1);
      StepEntry(s, CutPass(s, listing, desired, cut - 1), listing, desired, ws[cut - 1], k);
    }
  }

  lemma KeyHasName(list: seq<Ingress>, k: Key)
    ensures HasKey(list, k) ==> HasName(list, k.name)
  {
  }

  lemma StepEntry(s: Store, t: Store, listing: seq<Ingress>, desired: seq<Ingress>, w: Write, k: Key)
    requires Filed(s) && Filed(t) && Entry(s, t, listing, desired, k)
    requires w.Remove? ==> HasKey(listing, w.key) && !HasName(desired, w.key.name)
    requires w.Put? ==> w.leaf in desired
    ensures Filed(Do(t, w)) && Entry(s, Do(t, w), listing, desired, k)
  {
    match w {
      case Remove(r) =>
        KeyHasName(desired, r);
      case Put(leaf) =>
        var i :| 0 <= i < |desired| && desired[i] == leaf;
        assert HasKey(desired, KeyOf(leaf));
        if k == KeyOf(leaf) {
          var u := Do(t, w);
          assert Content(u.ingresses[k]) == Content(desired[i]) && KeyOf(u.ingresses[k]) == KeyOf(desired[i]);
        }
    }
  }

  /****** Completed passes ******/

  lemma {:induction false} DoAllAppend(s: Store, a: seq<Write>, b: seq<Write>)
    ensures DoAll(s, a + b) == DoAll(DoAll(s, a), b)
  {
    if b == [] {
      assert a + b == a;
    } else {
      DoAllAppend(s, a, b[..|b| - 1]);
      assert (a + b)[..|a + b| - 1] == a + b[..|b| - 1];
    }
  }

  lemma {:induction false} RemovedIsGone(s: Store, leftovers: seq<Ingress>, k: Key)
    requires HasKey(leftovers, k)
    ensures k !in DoAll(s, Removes(leftovers)).ingresses
  {
    var n := |leftovers| - 1;
    assert Removes(leftovers)[..n] == Removes(leftovers[..n]);
    if KeyOf(leftovers[n]) != k {
      HasKeyBefore(leftovers, n + 1, k);
      RemovedIsGone(s, leftovers[..n], k);
    }
  }

  lemma {:induction false} PutsAddOnlyDesired(t: Store, desired: seq<Ingress>, k: Key)
    ensures k in DoAll(t, Puts(desired)).ingresses ==> k in t.ingresses || HasKey(desired, k)
  {
    if desired != [] {
      var n := |desired| - 1;
      assert Puts(desired)[..n] == Puts(desired[..n]);
      PutsAddOnlyDesired(t, desired[..n], k);
      assert desired == desired[..n] + [desired[n]];
    }
  }

  ghost predicate StoredAsDesired(t: Store, desired: seq<Ingress>, k: Key) {
    k in t.ingresses && IsContentOf(t.ingresses[k], desired) && KeyOf(t.ingresses[k]) == k
  }

  lemma {:induction false} LastPutWins(t: Store, desired: seq<Ingress>, n: nat, k: Key)
    requires n <= |desired| && HasKey(desired[..n], k)
    ensures StoredAsDesired(DoAll(t, Puts(desired)[..n]), desired, k)
  {
    var before := DoAll(t, Puts(desired)[..n - 1]);
    assert Puts(desired)[..n][..n - 1] == Puts(desired)[..n - 1];
    if KeyOf(desired[n - 1]) == k {
      PutStores(before, desired, n - 1);
    } else {
      HasKeyBefore(desired, n, k);
      LastPutWins(t, desired, n - 1, k);
      OtherPutKeeps(before, desired, n - 1, k);
    }
  }

  lemma HasKeyBefore(desired: seq<Ingress>, n: nat, k: Key)
    requires 0 < n <= |desired| && HasKey(desired[..n], k) && KeyOf(desired[n - 1]) != k
    ensures n > 1 && HasKey(desired[..n - 1], k)
  {
    var i :| 0 <= i < n && KeyOf(desired[..n][i]) == k;
    assert desired[..n - 1][i] == desired[..n][i];
  }

  lemma OtherPutKeeps(t: Store, desired: seq<Ingress>, j: nat, k: Key)
    requires j < |desired| && KeyOf(desired[j]) != k && StoredAsDesired(t, desired, k)
    ensures StoredAsDesired(Do(t, Put(desired[j])), desired, k)
  {
  }

  lemma PutStores(t: Store, desired: seq<Ingress>, j: nat)
    requires j < |desired|
    ensures StoredAsDesired(Do(t, Put(desired[j])), desired, KeyOf(desired[j]))
  {
    var k, u := KeyOf(desired[j]), Do(t, Put(desired[j]));
    assert Content(u.ingresses[k]) == Content(desired[j]) && KeyOf(u.ingresses[k]) == KeyOf(desired[j]);
  }

  /**
   A completed pass, from any store and any listing however stale: every desired leaf is stored with the desired
   content, and every listed leftover is gone.
   */
  lemma CompletedPass(s: Store, listing: seq<Ingress>, desired: seq<Ingress>)
    requires Filed(s) && Consistent(desired)
    ensures var t := FullPass(s, listing, desired);
            && (forall k :: HasKey(desired, k) ==> k in t.ingresses && IsContentOf(t.ingresses[k], desired))
            && (forall k :: HasKey(listing, k) && !HasName(desired, k.name) ==> k !in t.ingresses)
  {
    forall k | HasKey(desired, k)
      ensures k in FullPass(s, listing, desired).ingresses
      ensures IsContentOf(FullPass(s, listing, desired).ingresses[k], desired)
    {
      DesiredIsStored(s, listing, desired, k);
    }
    forall k | HasKey(listing, k) && !HasName(desired, k.name)
      ensures k !in FullPass(s, listing, desired).ingresses
    {
      LeftoverIsGone(s, listing, desired, k);
    }
  }

  lemma DesiredIsStored(s: Store, listing: seq<Ingress>, desired: seq<Ingress>, k: Key)
    requires Consistent(desired) && HasKey(desired, k)
    ensures var t := FullPass(s, listing, desired);
            k in t.ingresses && IsContentOf(t.ingresses[k], desired)
  {
    assert desired[..|desired|] == desired && Puts(desired)[..|desired|] == Puts(desired);
    DoAllAppend(s, Removes(NonDesired(listing, desired)), Puts(desired));
    LastPutWins(DoAll(s, Removes(NonDesired(listing, desired))), desired, |desired|, k);
  }

  lemma LeftoverIsGone(s: Store, listing: seq<Ingress>, desired: seq<Ingress>, k: Key)
    requires HasKey(listing, k) && !HasName(desired, k.name)
    ensures k !in FullPass(s, listing, desired).ingresses
  {
    var leftovers := NonDesired(listing, desired);
    var j := LeftoverOf(listing, desired, k);
    assert HasKey(leftovers, KeyOf(leftovers[j]));
    RemovedIsGone(s, leftovers, k);
    DoAllAppend(s, Removes(leftovers), Puts(desired));
    PutsAddOnlyDesired(DoAll(s, Removes(leftovers)), desired, k);
    KeyHasName(desired, k);
  }

  lemma LeftoverOf(listing: seq<Ingress>, desired: seq<Ingress>, k: Key) returns (j: nat)
    requires HasKey(listing, k) && !HasName(desired, k.name)
    ensures j < |NonDesired(listing, desired)| && KeyOf(NonDesired(listing, desired)[j]) == k
  {
    NonDesiredMeaning(listing, desired);
    var i :| 0 <= i < |listing| && KeyOf(listing[i]) == k;
    assert listing[i] in listing && listing[i] in NonDesired(listing, desired);
    j :| 0 <= j < |NonDesired(listing, desired)| && NonDesired(listing, desired)[j] == listing[i];
  }

  /** Deletes come first: as long as some leftover of the listing stands, no desired leaf has been touched. */
  lemma DeletesComeFirst(s: Store, listing: seq<Ingress>, desired: seq<Ingress>, cut: nat, k: Key, l: Key)
    requires cut <= |Writes(listing, desired)|
    requires HasKey(listing, k) && !HasName(desired, k.name) && k in CutPass(s, listing, desired, cut).ingresses
    requires HasKey(desired, l)
    ensures var t := CutPass(s, listing, desired, cut);
            (l in t.ingresses <==> l in s.ingresses) && (l in s.ingresses ==> t.ingresses[l] == s.ingresses[l])
  {
    var removes := Removes(NonDesired(listing, desired));
    if cut <= |removes| {
      assert Writes(listing, desired)[..cut] == removes[..cut];
      RemovesTouchNoDesired(s, listing, desired, cut, l);
    } else {
      CutAfterRemoves(s, listing, desired, cut, k);
    }
  }

  lemma {:induction false} RemovesTouchNoDesired(
    s: Store, listing: seq<Ingress>, desired: seq<Ingress>, n: nat, l: Key)
    requires n <= |NonDesired(listing, desired)| && HasKey(desired, l)
    ensures var t := DoAll(s, Removes(NonDesired(listing, desired))[..n]);
            (l in t.ingresses <==> l in s.ingresses) && (l in s.ingresses ==> t.ingresses[l] == s.ingresses[l])
  {
    if n > 0 {
      var removes := Removes(NonDesired(listing, desired));
      assert removes[..n][..n - 1] == removes[..n - 1];
      RemovesTouchNoDesired(s, listing, desired, n - 1, l);
      NonDesiredMeaning(listing, desired);
      assert NonDesired(listing, desired)[n - 1] in NonDesired(listing, desired);
      KeyHasName(desired, l);
    }
  }

  lemma CutAfterRemoves(s: Store, listing: seq<Ingress>, desired: seq<Ingress>, cut: nat, k: Key)
    requires |NonDesired(listing, desired)| <= cut <= |Writes(listing, desired)|
    requires HasKey(listing, k) && !HasName(desired, k.name)
    ensures k !in CutPass(s, listing, desired, cut).ingresses
  {
    var leftovers := NonDesired(listing, desired);
    var n := cut - |leftovers|;
    var j := LeftoverOf(listing, desired, k);
    assert HasKey(leftovers, KeyOf(leftovers[j]));
    RemovedIsGone(s, leftovers, k);
    assert Writes(listing, desired)[..cut] == Removes(leftovers) + Puts(desired[..n]);
    DoAllAppend(s, Removes(leftovers), Puts(desired[..n]));
    PutsAddOnlyDesired(DoAll(s, Removes(leftovers)), desired[..n], k);
    NoNameNoKey(desired, n, k);
  }

  lemma NoNameNoKey(desired: seq<Ingress>, n: nat, k: Key)
    requires n <= |desired| && !HasName(desired, k.name)
    ensures !HasKey(desired[..n], k)
  {
    forall i | 0 <= i < n
      ensures KeyOf(desired[..n][i]) != k
    {
      assert desired[i].name != k.name;
    }
  }

  /** The leaves of a root as the store has them, reduced to what the controller writes. */
  ghost function LeavesOf(s: Store, rootName: string): map<Key, Ingress> {
    map k | k in s.ingresses && Owned(s.ingresses[k], rootName) :: Content(s.ingresses[k])
  }

  ghost predicate LeavesOfRoot(desired: seq<Ingress>, namespace: string, rootName: string) {
    && Consistent(desired)
    && forall d :: d in desired ==> d.namespace == namespace && Owned(d, rootName)
  }

  /**
   Self-stabilisation: a completed pass with a fresh listing, from any store at all, leaves in the root's namespace
   exactly the desired leaves with exactly the desired content. In other namespaces the leaves of a root of the same
   name survive exactly when a desired leaf has their name.
   */
  lemma FreshPassConverges(
    s: Store, listing: seq<Ingress>, desired: seq<Ingress>, namespace: string, rootName: string, k: Key)
    requires Filed(s) && LeavesOfRoot(desired, namespace, rootName) && Fresh(listing, s, rootName)
    ensures var leaves := LeavesOf(FullPass(s, listing, desired), rootName);
            if HasKey(desired, k) then k in leaves && IsContentOf(leaves[k], desired)
            else (k in leaves <==> k in LeavesOf(s, rootName) && HasName(desired, k.name))
                 && (k in leaves ==> k.namespace != namespace && leaves[k] == LeavesOf(s, rootName)[k])
  {
    var ws, t := Writes(listing, desired), FullPass(s, listing, desired);
    assert ws[..|ws|] == ws;
    CompletedPass(s, listing, desired);
    CutPassEntries(s, listing, desired, |ws|, k);
    if HasKey(desired, k) {
      var j :| 0 <= j < |desired| && KeyOf(desired[j]) == KeyOf(t.ingresses[k])
                && Content(t.ingresses[k]) == Content(desired[j]);
      assert desired[j] in desired && Content(desired[j]).labels == desired[j].labels;
      assert Content(t.ingresses[k]).labels == t.ingresses[k].labels;
    } else if HasName(desired, k.name) {
      var j :| 0 <= j < |desired| && desired[j].name == k.name;
      assert desired[j] in desired && KeyOf(desired[j]) != k;
    }
  }
}
