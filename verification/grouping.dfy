/** The fold both listing handlers use to turn flat join rows into nested
    JSON: walk the rows in order, keep a `Map` from key to group, create the
    group on the key's first row (taking that row's header fields) and append
    the row's item, if it has one, to its group. A JavaScript `Map` iterates
    in insertion order, so the result is a sequence of groups.

    Each handler first projects a row to an `Entry`: the grouping key, the
    header fields a new group takes, and the item the row contributes (`None`
    when the handler skips the row's item). */
module Grouping {
  import opened Js

  datatype Entry<K, H, I> = Entry(key: K, header: H, item: Option<I>)

  datatype Group<K, H, I> = Group(key: K, header: H, items: seq<I>)

  /** The items one entry contributes: zero or one. */
  function ItemsOf<K, H, I>(e: Entry<K, H, I>): seq<I>
  {
    if e.item.Some? then [e.item.value] else []
  }

  function Keys<K, H, I>(gs: seq<Group<K, H, I>>): seq<K>
  {
    seq(|gs|, i requires 0 <= i < |gs| => gs[i].key)
  }

  /** The keys that occur in the entries. */
  function KeySet<K, H, I>(es: seq<Entry<K, H, I>>): set<K>
  {
    set i | 0 <= i < |es| :: es[i].key
  }

  predicate Distinct<T(==)>(s: seq<T>)
  {
    forall i, j :: 0 <= i < j < |s| ==> s[i] != s[j]
  }

  /** `i` is the position of the first entry with key `es[i].key`. */
  predicate IsFirst<K(==), H, I>(es: seq<Entry<K, H, I>>, i: int)
  {
    0 <= i < |es| && forall j :: 0 <= j < i ==> es[j].key != es[i].key
  }

  // ---------------------------------------------------------------------
  // The fold, as the handlers run it
  // ---------------------------------------------------------------------

  /** `resultMap.get(key)`: the position of the group with key `k`. */
  function Find<K(==), H, I>(gs: seq<Group<K, H, I>>, k: K): (r: Option<nat>)
    ensures r.Some? ==> r.value < |gs| && gs[r.value].key == k
    ensures r.None? ==> forall i :: 0 <= i < |gs| ==> gs[i].key != k
  {
    if |gs| == 0 then None
    else if gs[0].key == k then Some(0)
    else match Find(gs[1..], k)
      case None => None
      case Some(j) => Some(j + 1)
  }

  /** The body of the `forEach` callback: create the group if the key is new
      (the map holds objects, which are always truthy, so `!get(key)` means
      "absent"), then append the entry's item to the key's group. */
  function Add<K(==), H, I>(gs: seq<Group<K, H, I>>, e: Entry<K, H, I>): seq<Group<K, H, I>>
  {
    match Find(gs, e.key)
    case None => gs + [Group(e.key, e.header, ItemsOf(e))]
    case Some(j) => gs[j := gs[j].(items := gs[j].items + ItemsOf(e))]
  }

  /** The whole `forEach` over the rows, followed by `Array.from(map.values())`. */
  function GroupRows<K(==), H, I>(es: seq<Entry<K, H, I>>): seq<Group<K, H, I>>
  {
    if |es| == 0 then []
    else Add(GroupRows(es[..|es| - 1]), es[|es| - 1])
  }

  /** The same fold as a loop over the rows. */
  method GroupRowsLoop<K(==), H, I>(es: seq<Entry<K, H, I>>) returns (gs: seq<Group<K, H, I>>)
    ensures gs == GroupRows(es)
    ensures Represents(gs, es)
  {
    gs := [];
    var n := 0;
    while n < |es|
      invariant 0 <= n <= |es|
      invariant gs == GroupRows(es[..n])
      invariant Represents(gs, es[..n])
    {
      AddPreserves(gs, es[..n], es[n]);
      assert es[..n + 1] == es[..n] + [es[n]];
      assert es[..n + 1][..n] == es[..n];
      gs := Add(gs, es[n]);
      n := n + 1;
    }
    assert es[..n] == es;
  }

  // ---------------------------------------------------------------------
  // What the result should be, defined over the entries alone
  // ---------------------------------------------------------------------

  /** The distinct keys, in order of first appearance. */
  function FirstKeys<K(==), H, I>(es: seq<Entry<K, H, I>>): seq<K>
  {
    if |es| == 0 then []
    else
      var ks := FirstKeys(es[..|es| - 1]);
      var k := es[|es| - 1].key;
      if k in ks then ks else ks + [k]
  }

  /** The header of the first entry with key `k`, if there is one. */
  function FirstHeader<K(==), H, I>(es: seq<Entry<K, H, I>>, k: K): Option<H>
  {
    if |es| == 0 then None
    else
      var h := FirstHeader(es[..|es| - 1], k);
      if h.Some? then h
      else if es[|es| - 1].key == k then Some(es[|es| - 1].header)
      else None
  }

  /** The items of the entries with key `k`, in entry order. */
  function ItemsFor<K(==), H, I>(es: seq<Entry<K, H, I>>, k: K): seq<I>
  {
    if |es| == 0 then []
    else ItemsFor(es[..|es| - 1], k) + (if es[|es| - 1].key == k then ItemsOf(es[|es| - 1]) else [])
  }

  /** The number of entries that carry an item. */
  function CountItems<K, H, I>(es: seq<Entry<K, H, I>>): nat
  {
    if |es| == 0 then 0
    else CountItems(es[..|es| - 1]) + |ItemsOf(es[|es| - 1])|
  }

  /** The number of items across all groups. */
  function TotalItems<K, H, I>(gs: seq<Group<K, H, I>>): nat
  {
    if |gs| == 0 then 0
    else TotalItems(gs[..|gs| - 1]) + |gs[|gs| - 1].items|
  }

  /** `gs` is the grouping of `es`: one group per distinct key in order of
      first appearance, each with the first entry's header and all the
      entries' items for that key. */
  ghost predicate Represents<K, H, I>(gs: seq<Group<K, H, I>>, es: seq<Entry<K, H, I>>)
  {
    && Keys(gs) == FirstKeys(es)
    && forall i :: 0 <= i < |gs| ==>
         && FirstHeader(es, gs[i].key) == Some(gs[i].header)
         && gs[i].items == ItemsFor(es, gs[i].key)
  }

  // ---------------------------------------------------------------------
  // Facts about the reference definitions
  // ---------------------------------------------------------------------

  /** A key is listed exactly when some entry has it. */
  lemma {:induction false} FirstKeysContents<K, H, I>(es: seq<Entry<K, H, I>>, k: K)
    ensures k in FirstKeys(es) <==> k in KeySet(es)
  {
    if |es| > 0 {
      var init := es[..|es| - 1];
      FirstKeysContents(init, k);
      assert KeySet(es) == KeySet(init) + {es[|es| - 1].key} by {
        forall x | x in KeySet(es) ensures x in KeySet(init) + {es[|es| - 1].key} {
          var i :| 0 <= i < |es| && es[i].key == x;
          if i < |es| - 1 {
            assert init[i].key == x;
          }
        }
        forall x | x in KeySet(init) ensures x in KeySet(es) {
          var i :| 0 <= i < |init| && init[i].key == x;
          assert es[i].key == x;
        }
      }
    }
  }

  /** No key is listed twice. */
  lemma {:induction false} FirstKeysDistinct<K, H, I>(es: seq<Entry<K, H, I>>)
    ensures Distinct(FirstKeys(es))
  {
    if |es| > 0 {
      FirstKeysDistinct(es[..|es| - 1]);
    }
  }

  /** A key that no entry has has no header and no items. */
  lemma {:induction false} AbsentKey<K, H, I>(es: seq<Entry<K, H, I>>, k: K)
    requires k !in FirstKeys(es)
    ensures FirstHeader(es, k) == None
    ensures ItemsFor(es, k) == []
  {
    if |es| > 0 {
      var ks := FirstKeys(es[..|es| - 1]);
      assert k !in ks;
      AbsentKey(es[..|es| - 1], k);
    }
  }

  /** The header recorded for a key is the header of the key's first entry:
      later entries with the same key never replace it. */
  lemma {:induction false} FirstHeaderIsFirstEntry<K, H, I>(es: seq<Entry<K, H, I>>, i: int)
    requires IsFirst(es, i)
    ensures FirstHeader(es, es[i].key) == Some(es[i].header)
    decreases |es|
  {
    var k := es[i].key;
    var init := es[..|es| - 1];
    if i == |es| - 1 {
      forall j | 0 <= j < |init| ensures init[j].key != k {
        assert init[j] == es[j];
      }
      FirstKeysContents(init, k);
      AbsentKey(init, k);
    } else {
      assert IsFirst(init, i);
      FirstHeaderIsFirstEntry(init, i);
    }
  }

  /** The keys of a prefix of the entries are a prefix of the keys. */
  lemma {:induction false} FirstKeysOfPrefix<K, H, I>(es: seq<Entry<K, H, I>>, n: nat)
    requires n <= |es|
    ensures FirstKeys(es[..n]) <= FirstKeys(es)
    decreases |es|
  {
    if n < |es| {
      var init := es[..|es| - 1];
      assert init[..n] == es[..n];
      FirstKeysOfPrefix(init, n);
    } else {
      assert es[..n] == es;
    }
  }

  /** Groups come out in order of their keys' first appearance: if key `a` is
      listed before key `b`, the first entry with `a` precedes the first
      entry with `b`. */
  lemma FirstAppearanceOrder<K, H, I>(es: seq<Entry<K, H, I>>, a: nat, b: nat, i: int, j: int)
    requires a < b < |FirstKeys(es)|
    requires IsFirst(es, i) && es[i].key == FirstKeys(es)[a]
    requires IsFirst(es, j) && es[j].key == FirstKeys(es)[b]
    ensures i < j
  {
    var ks := FirstKeys(es);
    var pre := FirstKeys(es[..j + 1]);
    FirstKeysOfPrefix(es, j + 1);
    FirstKeysDistinct(es);
    assert es[..j + 1][j].key == es[j].key;
    FirstKeysContents(es[..j + 1], es[j].key);
    var p :| 0 <= p < |pre| && pre[p] == es[j].key;
    assert ks[p] == ks[b];
    assert p == b;
    assert pre[a] == ks[a];
    FirstKeysContents(es[..j + 1], ks[a]);
    var q :| 0 <= q < j + 1 && es[..j + 1][q].key == ks[a];
    assert es[q].key == es[i].key;
    assert i <= q;
    assert ks[a] != ks[b];
  }

  /** Each listed key is distinct and the list holds exactly the keys present,
      so its length is the number of distinct keys. */
  lemma {:induction false} FirstKeysCount<K, H, I>(es: seq<Entry<K, H, I>>)
    ensures |FirstKeys(es)| == |KeySet(es)|
  {
    if |es| > 0 {
      var init := es[..|es| - 1];
      var k := es[|es| - 1].key;
      FirstKeysCount(init);
      FirstKeysContents(init, k);
      assert KeySet(es) == KeySet(init) + {k} by {
        forall x | x in KeySet(es) ensures x in KeySet(init) + {k} {
          var i :| 0 <= i < |es| && es[i].key == x;
          if i < |es| - 1 {
            assert init[i].key == x;
          }
        }
        forall x | x in KeySet(init) ensures x in KeySet(es) {
          var i :| 0 <= i < |init| && init[i].key == x;
          assert es[i].key == x;
        }
      }
    }
  }

  // ---------------------------------------------------------------------
  // The fold computes the reference grouping
  // ---------------------------------------------------------------------

  /** One `forEach` step keeps the result a grouping of the rows seen so far. */
  lemma AddPreserves<K, H, I>(gs: seq<Group<K, H, I>>, es: seq<Entry<K, H, I>>, e: Entry<K, H, I>)
    requires Represents(gs, es)
    ensures Represents(Add(gs, e), es + [e])
  {
    var es' := es + [e];
    assert es'[..|es'| - 1] == es;
    var k := e.key;
    var ks := FirstKeys(es);
    FirstKeysDistinct(es);
    assert Keys(gs) == ks;
    match Find(gs, k)
    case None =>
      forall p | 0 <= p < |ks| ensures ks[p] != k {
        assert ks[p] == gs[p].key;
      }
      AbsentKey(es, k);
      var gs' := gs + [Group(k, e.header, ItemsOf(e))];
      assert Keys(gs') == ks + [k];
      forall i | 0 <= i < |gs'|
        ensures FirstHeader(es', gs'[i].key) == Some(gs'[i].header)
        ensures gs'[i].items == ItemsFor(es', gs'[i].key)
      {
        if i < |gs| {
          assert gs'[i] == gs[i];
          assert gs[i].key == ks[i];
        }
      }
    case Some(j) =>
      var gs' := gs[j := gs[j].(items := gs[j].items + ItemsOf(e))];
      assert k == ks[j];
      assert Keys(gs') == Keys(gs);
      forall i | 0 <= i < |gs'|
        ensures FirstHeader(es', gs'[i].key) == Some(gs'[i].header)
        ensures gs'[i].items == ItemsFor(es', gs'[i].key)
      {
        if i != j {
          assert gs[i].key == ks[i];
          assert ks[i] != ks[j];
        }
      }
  }

  /** The fold yields exactly the reference grouping. */
  lemma {:induction false} GroupRowsRepresents<K, H, I>(es: seq<Entry<K, H, I>>)
    ensures Represents(GroupRows(es), es)
  {
    if |es| > 0 {
      var init := es[..|es| - 1];
      GroupRowsRepresents(init);
      AddPreserves(GroupRows(init), init, es[|es| - 1]);
      assert init + [es[|es| - 1]] == es;
    }
  }

  lemma {:induction false} TotalItemsUpdate<K, H, I>(gs: seq<Group<K, H, I>>, j: nat, g: Group<K, H, I>)
    requires j < |gs|
    ensures TotalItems(gs[j := g]) + |gs[j].items| == TotalItems(gs) + |g.items|
  {
    var gs' := gs[j := g];
    if j < |gs| - 1 {
      assert gs'[..|gs'| - 1] == gs[..|gs| - 1][j := g];
      TotalItemsUpdate(gs[..|gs| - 1], j, g);
    } else {
      assert gs'[..|gs'| - 1] == gs[..|gs| - 1];
    }
  }

  /** Every item lands in exactly one group: the groups hold as many items
      as there are entries carrying one. */
  lemma {:induction false} GroupRowsTotal<K, H, I>(es: seq<Entry<K, H, I>>)
    ensures TotalItems(GroupRows(es)) == CountItems(es)
  {
    if |es| > 0 {
      var init := es[..|es| - 1];
      var e := es[|es| - 1];
      var gs := GroupRows(init);
      GroupRowsTotal(init);
      match Find(gs, e.key)
      case None =>
        var gs' := gs + [Group(e.key, e.header, ItemsOf(e))];
        assert gs'[..|gs'| - 1] == gs;
      case Some(j) =>
        TotalItemsUpdate(gs, j, gs[j].(items := gs[j].items + ItemsOf(e)));
    }
  }

  /** The first group belongs to the first entry's key and carries that
      entry's header. */
  lemma FirstGroupOfFirstEntry<K, H, I>(es: seq<Entry<K, H, I>>)
    requires |es| > 0
    ensures |GroupRows(es)| > 0
    ensures GroupRows(es)[0] == Group(es[0].key, es[0].header, ItemsFor(es, es[0].key))
  {
    var gs := GroupRows(es);
    GroupRowsRepresents(es);
    FirstKeysOfPrefix(es, 1);
    assert es[..1][..0] == [];
    assert FirstKeys(es[..1]) == [es[0].key];
    assert Keys(gs)[0] == gs[0].key;
    FirstHeaderIsFirstEntry(es, 0);
  }
}
