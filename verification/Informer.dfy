/** The informer's view of the ingresses: possibly stale, shared by reference, listed in any order. */
module Informer {
  import opened Model
  import opened ApiServer
  import opened EnvoyCache
  import opened Planning
  import opened RootPass

  function Wanted(live: map<string, Ingress>, rootName: string): set<string> {
    set k | k in live && Owned(live[k], rootName)
  }

  ghost predicate SelectedBy(order: seq<string>, list: seq<Ingress>, live: map<string, Ingress>, rootName: string) {
    && Enumerates(order, Wanted(live, rootName)) && |list| == |order|
    && forall i :: 0 <= i < |order| ==> order[i] in live && list[i] == live[order[i]]
  }

  /** `list` is the selection of a root's leaves from the indexer, in some order. */
  ghost predicate Selected(list: seq<Ingress>, live: map<string, Ingress>, rootName: string) {
    exists order :: SelectedBy(order, list, live, rootName)
  }

  class Indexer {
    var items: map<string, IngressRef>
    ghost var live: map<string, Ingress>
    ghost var refs: set<IngressRef>

    constructor ()
      ensures Valid() && live == map[]
    {
      items, live, refs := map[], map[], {};
    }

    /** `live` is what the objects hold, each filed under the text the tracker and the Envoy cache use for it. */
    ghost predicate Valid()
      reads this, refs
    {
      && live.Keys == items.Keys && Keyed(live)
      && forall k :: k in items ==> items[k] in refs && items[k].obj == live[k]
    }

    method Put(ref: IngressRef)
      requires Valid()
      modifies this
      ensures Valid() && live == old(live)[IngressKey(ref.obj) := ref.obj]
    {
      items := items[IngressKey(ref.obj) := ref];
      live := live[IngressKey(ref.obj) := ref.obj];
      refs := refs + {ref};
    }

    method Delete(key: string)
      requires Valid()
      modifies this
      ensures Valid() && live == old(live) - {key}
    {
      items := items - {key};
      live := live - {key};
    }

    method List(rootName: string) returns (list: seq<Ingress>)
      requires Valid()
      ensures Selected(list, live, rootName)
    {
      list := [];
      ghost var order := [];
      ghost var wanted := Wanted(live, rootName);
      var todo := items.Keys;
      while todo != {}
        invariant todo <= items.Keys
        invariant Enumerates(order, wanted - todo)
        invariant |list| == |order| && forall i :: 0 <= i < |order| ==> order[i] in live && list[i] == live[order[i]]
      {
        var k :| k in todo;
        if Owned(items[k].obj, rootName) {
          list := list + [items[k].obj];
          order := order + [k];
        }
        todo := todo - {k};
      }
      assert wanted - todo == wanted && SelectedBy(order, list, live, rootName);
    }
  }

  /** The indexer has caught up with the store. */
  ghost predicate Mirrors(live: map<string, Ingress>, s: Store) {
    && (forall k :: k in s.ingresses ==>
          IngressKey(s.ingresses[k]) in live && live[IngressKey(s.ingresses[k])] == s.ingresses[k])
    && (forall t :: t in live ==>
          IngressKey(live[t]) == t && KeyOf(live[t]) in s.ingresses && s.ingresses[KeyOf(live[t])] == live[t])
  }

  /** A listing from an indexer that has caught up is fresh, in whatever order it comes. */
  lemma ListingOfAMirrorIsFresh(list: seq<Ingress>, live: map<string, Ingress>, s: Store, rootName: string)
    requires Filed(s) && Mirrors(live, s) && Selected(list, live, rootName)
    ensures Fresh(list, s, rootName)
  {
    var order :| SelectedBy(order, list, live, rootName);
    forall k
      ensures HasKey(list, k) <==> k in s.ingresses && Owned(s.ingresses[k], rootName)
    {
      if HasKey(list, k) {
        ListedIsStored(order, list, live, s, rootName, k);
      }
      if k in s.ingresses && Owned(s.ingresses[k], rootName) {
        StoredIsListed(order, list, live, s, rootName, k);
      }
    }
    ListedOnce(order, list, live, s, rootName);
  }

  lemma ListedIsStored(
    order: seq<string>, list: seq<Ingress>, live: map<string, Ingress>, s: Store, rootName: string, k: Key)
    requires Mirrors(live, s) && SelectedBy(order, list, live, rootName) && HasKey(list, k)
    ensures k in s.ingresses && Owned(s.ingresses[k], rootName)
  {
    var i :| 0 <= i < |list| && KeyOf(list[i]) == k;
    assert order[i] in Wanted(live, rootName);
  }

  lemma StoredIsListed(
    order: seq<string>, list: seq<Ingress>, live: map<string, Ingress>, s: Store, rootName: string, k: Key)
    requires Filed(s) && Mirrors(live, s) && SelectedBy(order, list, live, rootName)
    requires k in s.ingresses && Owned(s.ingresses[k], rootName)
    ensures HasKey(list, k)
  {
    var t := IngressKey(s.ingresses[k]);
    assert t in Wanted(live, rootName) && t in order;
    var i :| 0 <= i < |order| && order[i] == t;
    assert KeyOf(list[i]) == k;
  }

  lemma ListedOnce(order: seq<string>, list: seq<Ingress>, live: map<string, Ingress>, s: Store, rootName: string)
    requires Mirrors(live, s) && SelectedBy(order, list, live, rootName)
    ensures DistinctKeys(list)
  {
    forall i, j | 0 <= i < j < |list|
      ensures KeyOf(list[i]) != KeyOf(list[j])
    {
      assert order[i] in Wanted(live, rootName) && order[j] in Wanted(live, rootName) && order[i] != order[j];
    }
  }
}
