/** Grouping a list by a key, as the forecast adapter groups forecast entries
    by calendar day: a reduce into a record keyed by the day, then
    `Object.entries`, which lists keys in insertion order (day strings are
    never integer-like, so no numeric key is reordered ahead of them). */
module DayGroups {

  datatype Group<K, T> = Group(key: K, items: seq<T>)

  function Keys<K, T>(gs: seq<Group<K, T>>): (ks: seq<K>)
    ensures |ks| == |gs| && forall i :: 0 <= i < |gs| ==> ks[i] == gs[i].key
  {
    seq(|gs|, i requires 0 <= i < |gs| => gs[i].key)
  }

  function KeysOf<K, T>(items: seq<T>, keyOf: T -> K): (ks: seq<K>)
    ensures |ks| == |items| && forall i :: 0 <= i < |items| ==> ks[i] == keyOf(items[i])
  {
    seq(|items|, i requires 0 <= i < |items| => keyOf(items[i]))
  }

  predicate Distinct<K(==,!new)>(ks: seq<K>) {
    forall i, j :: 0 <= i < j < |ks| ==> ks[i] != ks[j]
  }

  /** The distinct keys in order of first appearance. */
  function FirstAppearance<K(==,!new)>(ks: seq<K>): (d: seq<K>)
    ensures Distinct(d)
    ensures forall k :: k in d <==> k in ks
  {
    if |ks| == 0 then []
    else
      var p := ks[..|ks| - 1];
      var d := FirstAppearance(p);
      assert forall k :: k in ks <==> k in p || k == ks[|ks| - 1] by {
        assert ks == p + [ks[|ks| - 1]];
      }
      if ks[|ks| - 1] in d then d else d + [ks[|ks| - 1]]
  }

  /** The items whose key is k, in list order. */
  function ItemsWithKey<K(==,!new), T>(items: seq<T>, keyOf: T -> K, k: K): (r: seq<T>)
    ensures forall x :: x in r ==> x in items && keyOf(x) == k
  {
    if |items| == 0 then []
    else
      var n := |items| - 1;
      ItemsWithKey(items[..n], keyOf, k) + (if keyOf(items[n]) == k then [items[n]] else [])
  }

  lemma {:induction false} ItemsWithAbsentKey<K(!new), T>(items: seq<T>, keyOf: T -> K, k: K)
    requires k !in KeysOf(items, keyOf)
    ensures ItemsWithKey(items, keyOf, k) == []
  {
    if |items| > 0 {
      var n := |items| - 1;
      assert KeysOf(items[..n], keyOf) == KeysOf(items, keyOf)[..n];
      ItemsWithAbsentKey(items[..n], keyOf, k);
      assert keyOf(items[n]) == KeysOf(items, keyOf)[n];
    }
  }

  lemma {:induction false} ItemsWithPresentKey<K(!new), T>(items: seq<T>, keyOf: T -> K, j: nat)
    requires j < |items|
    ensures items[j] in ItemsWithKey(items, keyOf, keyOf(items[j]))
  {
    var n := |items| - 1;
    if j < n {
      ItemsWithPresentKey(items[..n], keyOf, j);
    }
  }

  /** Push x onto the group keyed k, opening a new last group when there is
      none: `if (!acc[date]) acc[date] = []; acc[date].push(item)`. */
  function AddToGroup<K(==,!new), T>(gs: seq<Group<K, T>>, k: K, x: T): (r: seq<Group<K, T>>)
    decreases |gs|
  {
    if |gs| == 0 then [Group(k, [x])]
    else if gs[0].key == k then [Group(k, gs[0].items + [x])] + gs[1..]
    else [gs[0]] + AddToGroup(gs[1..], k, x)
  }

  /** `Object.entries(list.reduce(...))`. */
  function GroupByKey<K(==,!new), T>(items: seq<T>, keyOf: T -> K): seq<Group<K, T>> {
    if |items| == 0 then []
    else
      var n := |items| - 1;
      AddToGroup(GroupByKey(items[..n], keyOf), keyOf(items[n]), items[n])
  }

  /** gs is the grouping of items: its keys are the items' keys in order of
      first appearance, and each group holds exactly the items with its key,
      in list order. */
  ghost predicate GroupsOf<K(!new), T>(items: seq<T>, keyOf: T -> K, gs: seq<Group<K, T>>) {
    && Keys(gs) == FirstAppearance(KeysOf(items, keyOf))
    && (forall i :: 0 <= i < |gs| ==> gs[i].items == ItemsWithKey(items, keyOf, gs[i].key))
    && (forall i :: 0 <= i < |gs| ==> |gs[i].items| > 0)
  }

  /** Adding to a grouping with distinct keys extends the matching group, or
      appends a new one; every other group is unchanged. */
  lemma {:induction false} AddToGroupShape<K(!new), T>(gs: seq<Group<K, T>>, k: K, x: T)
    requires Distinct(Keys(gs))
    ensures AddedTo(gs, k, x, AddToGroup(gs, k, x))
    decreases |gs|
  {
    if |gs| > 0 && gs[0].key != k {
      var t := gs[1..];
      assert Distinct(Keys(t)) by {
        assert forall i :: 0 <= i < |t| ==> Keys(t)[i] == Keys(gs)[i + 1];
      }
      AddToGroupShape(t, k, x);
      assert k in Keys(gs) <==> k in Keys(t) by {
        if k in Keys(t) {
          var i :| 0 <= i < |t| && Keys(t)[i] == k;
          assert Keys(gs)[i + 1] == k;
        }
        if k in Keys(gs) {
          var i :| 0 <= i < |gs| && Keys(gs)[i] == k;
          assert Keys(t)[i - 1] == k;
        }
      }
      AddedToCons(gs, k, x);
    } else if |gs| > 0 {
      AddToMatchingHead(gs, k, x);
    }
  }

  /** r is gs with x added under k. */
  ghost predicate AddedTo<K(!new), T>(gs: seq<Group<K, T>>, k: K, x: T, r: seq<Group<K, T>>) {
    && (k in Keys(gs) ==> |r| == |gs|)
    && (k !in Keys(gs) ==> |r| == |gs| + 1 && r[|gs|] == Group(k, [x]))
    && (forall i :: 0 <= i < |gs| ==> r[i].key == gs[i].key)
    && (forall i :: 0 <= i < |gs| ==> r[i].items == gs[i].items + (if gs[i].key == k then [x] else []))
  }

  lemma AddedToCons<K(!new), T>(gs: seq<Group<K, T>>, k: K, x: T)
    requires |gs| > 0 && gs[0].key != k
    requires k in Keys(gs) <==> k in Keys(gs[1..])
    requires AddedTo(gs[1..], k, x, AddToGroup(gs[1..], k, x))
    ensures AddedTo(gs, k, x, AddToGroup(gs, k, x))
  {
    var t, r := gs[1..], AddToGroup(gs, k, x);
    var rt := AddToGroup(t, k, x);
    assert r == [gs[0]] + rt;
    forall i | 0 <= i < |gs|
      ensures r[i].key == gs[i].key
      ensures r[i].items == gs[i].items + (if gs[i].key == k then [x] else [])
    {
      if i > 0 {
        assert r[i] == rt[i - 1] && t[i - 1] == gs[i];
      }
    }
    if k !in Keys(gs) {
      assert r[|gs|] == rt[|t|];
    }
  }

  lemma AddToMatchingHead<K(!new), T>(gs: seq<Group<K, T>>, k: K, x: T)
    requires |gs| > 0 && gs[0].key == k && Distinct(Keys(gs))
    ensures AddedTo(gs, k, x, AddToGroup(gs, k, x))
  {
    var r := AddToGroup(gs, k, x);
    assert k in Keys(gs) by { assert Keys(gs)[0] == k; }
    forall i | 0 <= i < |gs|
      ensures r[i].key == gs[i].key
      ensures r[i].items == gs[i].items + (if gs[i].key == k then [x] else [])
    {
      if i > 0 {
        assert Keys(gs)[i] != Keys(gs)[0];
        assert r[i] == gs[i];
      }
    }
  }

  /** The reduce builds exactly the grouping. */
  lemma {:induction false} GroupByKeyCorrect<K(!new), T>(items: seq<T>, keyOf: T -> K)
    ensures GroupsOf(items, keyOf, GroupByKey(items, keyOf))
  {
    if |items| > 0 {
      GroupByKeyCorrect(items[..|items| - 1], keyOf);
      KeysStep(items, keyOf);
      ItemsStep(items, keyOf);
    }
  }

  /** One more item keeps the keys in order of first appearance. */
  lemma KeysStep<K(!new), T>(items: seq<T>, keyOf: T -> K)
    requires |items| > 0
    requires Keys(GroupByKey(items[..|items| - 1], keyOf)) == FirstAppearance(KeysOf(items[..|items| - 1], keyOf))
    ensures Keys(GroupByKey(items, keyOf)) == FirstAppearance(KeysOf(items, keyOf))
  {
    var n := |items| - 1;
    KeysOfPrefix(items, keyOf);
    KeysAfterAdd(GroupByKey(items[..n], keyOf), keyOf(items[n]), items[n]);
  }

  lemma KeysOfPrefix<K, T>(items: seq<T>, keyOf: T -> K)
    requires |items| > 0
    ensures var ks := KeysOf(items, keyOf);
            ks[..|ks| - 1] == KeysOf(items[..|items| - 1], keyOf) && ks[|ks| - 1] == keyOf(items[|items| - 1])
  {
  }

  /** Adding to a grouping with distinct keys keeps its keys, or appends the
      new one. */
  lemma KeysAfterAdd<K(!new), T>(gs: seq<Group<K, T>>, k: K, x: T)
    requires Distinct(Keys(gs))
    ensures Keys(AddToGroup(gs, k, x)) == if k in Keys(gs) then Keys(gs) else Keys(gs) + [k]
  {
    AddToGroupShape(gs, k, x);
    var r := AddToGroup(gs, k, x);
    var e := if k in Keys(gs) then Keys(gs) else Keys(gs) + [k];
    assert |Keys(r)| == |e|;
    forall i | 0 <= i < |e| ensures Keys(r)[i] == e[i] {
      if i < |gs| {
        assert e[i] == Keys(gs)[i];
      }
    }
  }

  /** One more item keeps every group exactly the items with its key. */
  lemma ItemsStep<K(!new), T>(items: seq<T>, keyOf: T -> K)
    requires |items| > 0
    requires GroupsOf(items[..|items| - 1], keyOf, GroupByKey(items[..|items| - 1], keyOf))
    ensures var r := GroupByKey(items, keyOf);
            forall i :: 0 <= i < |r| ==> r[i].items == ItemsWithKey(items, keyOf, r[i].key) && |r[i].items| > 0
  {
    var n := |items| - 1;
    var p := items[..n];
    var k := keyOf(items[n]);
    var gs := GroupByKey(p, keyOf);
    var r := AddToGroup(gs, k, items[n]);
    AddToGroupShape(gs, k, items[n]);
    forall i | 0 <= i < |r|
      ensures r[i].items == ItemsWithKey(items, keyOf, r[i].key) && |r[i].items| > 0
    {
      if i == |gs| {
        assert k !in KeysOf(p, keyOf);
        ItemsWithAbsentKey(p, keyOf, k);
      }
    }
  }

  /** Every item lands in exactly one group: the group keyed by its own key,
      which exists and is unique; and every group's items carry its key. */
  lemma EachItemInOneGroup<K(!new), T>(items: seq<T>, keyOf: T -> K, j: nat)
    requires j < |items|
    ensures var gs := GroupByKey(items, keyOf);
            && (exists i :: 0 <= i < |gs| && gs[i].key == keyOf(items[j]) && items[j] in gs[i].items)
            && (forall i1, i2 :: 0 <= i1 < i2 < |gs| ==> gs[i1].key != gs[i2].key)
            && (forall i, x :: 0 <= i < |gs| && x in gs[i].items ==> keyOf(x) == gs[i].key)
  {
    var gs := GroupByKey(items, keyOf);
    GroupByKeyCorrect(items, keyOf);
    var k := keyOf(items[j]);
    assert k in KeysOf(items, keyOf);
    assert k in Keys(gs);
    var i :| 0 <= i < |gs| && Keys(gs)[i] == k;
    assert gs[i].key == k;
    ItemsWithPresentKey(items, keyOf, j);
    assert items[j] in gs[i].items;
    assert 0 <= i < |GroupByKey(items, keyOf)| && GroupByKey(items, keyOf)[i].key == keyOf(items[j])
           && items[j] in GroupByKey(items, keyOf)[i].items;
    assert forall i1, i2 :: 0 <= i1 < i2 < |gs| ==> Keys(gs)[i1] != Keys(gs)[i2];
  }

  function TotalItems<K, T>(gs: seq<Group<K, T>>): nat {
    if |gs| == 0 then 0 else |gs[0].items| + TotalItems(gs[1..])
  }

  lemma {:induction false} AddToGroupTotal<K(!new), T>(gs: seq<Group<K, T>>, k: K, x: T)
    ensures TotalItems(AddToGroup(gs, k, x)) == TotalItems(gs) + 1
    decreases |gs|
  {
    if |gs| > 0 {
      if gs[0].key == k {
        assert AddToGroup(gs, k, x)[1..] == gs[1..];
      } else {
        AddToGroupTotal(gs[1..], k, x);
        assert AddToGroup(gs, k, x)[1..] == AddToGroup(gs[1..], k, x);
      }
    }
  }

  /** No item is lost or duplicated: the group sizes add up to the list length. */
  lemma {:induction false} GroupSizesSum<K(!new), T>(items: seq<T>, keyOf: T -> K)
    ensures TotalItems(GroupByKey(items, keyOf)) == |items|
  {
    if |items| > 0 {
      var n := |items| - 1;
      GroupSizesSum(items[..n], keyOf);
      AddToGroupTotal(GroupByKey(items[..n], keyOf), keyOf(items[n]), items[n]);
    }
  }
}
