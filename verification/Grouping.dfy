/** The streaming group-by used where the query's rows come sorted: a row joins the last group if its
    key matches that group's, and otherwise opens a new one. */
module Grouping {
  datatype Group<K, V> = Group(key: K, items: seq<V>)

  function Add<K(==), V>(groups: seq<Group<K, V>>, key: K, item: V): seq<Group<K, V>> {
    var last := |groups| - 1;
    if groups == [] || groups[last].key != key then groups + [Group(key, [item])]
    else groups[..last] + [Group(key, groups[last].items + [item])]
  }

  function Grouped<K(==), V>(rows: seq<(K, V)>): seq<Group<K, V>> {
    if rows == [] then []
    else
      var (k, v) := rows[|rows| - 1];
      Add(Grouped(rows[..|rows| - 1]), k, v)
  }

  method GroupRows<K(==), V>(rows: seq<(K, V)>) returns (groups: seq<Group<K, V>>)
    ensures groups == Grouped(rows)
  {
    groups := [];
    for i := 0 to |rows|
      invariant groups == Grouped(rows[..i])
    {
      assert rows[..i + 1][..i] == rows[..i];
      var (key, item) := rows[i];
      ghost var before := groups;
      if |groups| == 0 || groups[|groups| - 1].key != key {
        groups := groups + [Group(key, [])];
        assert groups[..|before|] == before && [] + [item] == [item];
      }
      var last := groups[|groups| - 1];
      groups := groups[..|groups| - 1] + [last.(items := last.items + [item])];
    }
    assert rows[..|rows|] == rows;
  }

  function Rows<K, V>(g: Group<K, V>): (r: seq<(K, V)>)
    ensures |r| == |g.items|
  {
    seq(|g.items|, i requires 0 <= i < |g.items| => (g.key, g.items[i]))
  }

  function Flatten<K, V>(groups: seq<Group<K, V>>): seq<(K, V)> {
    if groups == [] then [] else Flatten(groups[..|groups| - 1]) + Rows(groups[|groups| - 1])
  }

  ghost predicate WellGrouped<K, V>(groups: seq<Group<K, V>>) {
    && (forall i :: 0 <= i < |groups| ==> groups[i].items != [])
    && (forall i :: 0 < i < |groups| ==> groups[i - 1].key != groups[i].key)
  }

  lemma FlattenAdd<K, V>(groups: seq<Group<K, V>>, row: (K, V))
    requires WellGrouped(groups)
    ensures Flatten(Add(groups, row.0, row.1)) == Flatten(groups) + [row]
    ensures WellGrouped(Add(groups, row.0, row.1))
  {
    var last := |groups| - 1;
    var after := Add(groups, row.0, row.1);
    if groups == [] || groups[last].key != row.0 {
      assert after[..|after| - 1] == groups;
      assert Rows(Group(row.0, [row.1])) == [row];
    } else {
      assert after[..last] == groups[..last];
      assert Rows(after[last]) == Rows(groups[last]) + [row];
    }
  }

  lemma Snoc<A>(s: seq<A>)
    requires s != []
    ensures s == s[..|s| - 1] + [s[|s| - 1]]
  {
  }

  /** No row is lost, repeated or moved, and neighbouring groups differ. */
  lemma {:induction false} FlattenGrouped<K, V>(rows: seq<(K, V)>)
    ensures Flatten(Grouped(rows)) == rows
    ensures WellGrouped(Grouped(rows))
  {
    if rows != [] {
      var init, row := rows[..|rows| - 1], rows[|rows| - 1];
      FlattenGrouped(init);
      FlattenAdd(Grouped(init), row);
      Snoc(rows);
    }
  }

  /** The last group without its last item, and that item. */
  lemma Unadd<K, V>(groups: seq<Group<K, V>>) returns (less: seq<Group<K, V>>, k: K, v: V)
    requires WellGrouped(groups) && groups != []
    ensures WellGrouped(less) && Add(less, k, v) == groups
  {
    var last := |groups| - 1;
    var g, before := groups[last], groups[..last];
    var m := |g.items| - 1;
    k, v := g.key, g.items[m];
    less := if m == 0 then before else before + [Group(k, g.items[..m])];
    assert g.items == g.items[..m] + [v];
    assert groups == before + [g];
    if m > 0 {
      assert less[..last] == before;
    }
  }

  /** And the grouping is the only one like that. */
  lemma {:induction false} GroupedFlatten<K, V>(groups: seq<Group<K, V>>)
    requires WellGrouped(groups)
    ensures Grouped(Flatten(groups)) == groups
    decreases |Flatten(groups)|
  {
    if groups != [] {
      var less, k, v := Unadd(groups);
      FlattenAdd(less, (k, v));
      GroupedFlatten(less);
      assert (Flatten(less) + [(k, v)])[..|Flatten(less)|] == Flatten(less);
    }
  }

  // ------------------------------------------------------ when keys repeat

  ghost predicate KeysOnce<K, V>(groups: seq<Group<K, V>>) {
    forall i, j :: 0 <= i < j < |groups| ==> groups[i].key != groups[j].key
  }

  /** Rows with the same key stand together. */
  ghost predicate Together<K, V>(rows: seq<(K, V)>) {
    forall i, j, k :: 0 <= i < j < k < |rows| && rows[i].0 == rows[k].0 ==> rows[j].0 == rows[i].0
  }

  ghost predicate HeadsGroup<K, V>(groups: seq<Group<K, V>>, key: K) {
    exists i :: 0 <= i < |groups| && groups[i].key == key
  }

  ghost predicate KeysRow<K, V>(rows: seq<(K, V)>, key: K) {
    exists j :: 0 <= j < |rows| && rows[j].0 == key
  }

  lemma AddKeys<K, V>(groups: seq<Group<K, V>>, k: K, v: V, key: K)
    ensures HeadsGroup(Add(groups, k, v), key) <==> HeadsGroup(groups, key) || key == k
    ensures Add(groups, k, v) != [] && Add(groups, k, v)[|Add(groups, k, v)| - 1].key == k
  {
    var after := Add(groups, k, v);
    assert after[|after| - 1].key == k;
    assert forall i :: 0 <= i < |groups| ==> groups[i].key == after[i].key;
    if i :| 0 <= i < |groups| && groups[i].key == key {
      assert after[i].key == key;
    }
  }

  lemma {:induction false} KeysAreRowKeys<K, V>(rows: seq<(K, V)>, key: K)
    ensures HeadsGroup(Grouped(rows), key) <==> KeysRow(rows, key)
    ensures rows != [] ==> Grouped(rows) != [] && Grouped(rows)[|Grouped(rows)| - 1].key == rows[|rows| - 1].0
  {
    if rows != [] {
      var n := |rows| - 1;
      KeysAreRowKeys(rows[..n], key);
      AddKeys(Grouped(rows[..n]), rows[n].0, rows[n].1, key);
      assert KeysRow(rows, key) <==> KeysRow(rows[..n], key) || rows[n].0 == key by {
        assert forall j :: 0 <= j < n ==> rows[..n][j] == rows[j];
      }
    }
  }

  /** A key heads one group only exactly when the rows with that key stand together. */
  lemma {:induction false} KeysOnceIffTogether<K, V>(rows: seq<(K, V)>)
    ensures KeysOnce(Grouped(rows)) <==> Together(rows)
  {
    if rows != [] {
      var n := |rows| - 1;
      var k := rows[n].0;
      var before := Grouped(rows[..n]);
      KeysOnceIffTogether(rows[..n]);
      KeysAreRowKeys(rows[..n], k);
      if n == 0 || rows[n - 1].0 != k {
        NewKey(rows);
      } else {
        SameKey(rows);
      }
    }
  }

  lemma NewKey<K, V>(rows: seq<(K, V)>)
    requires rows != []
    requires |rows| > 1 ==> rows[|rows| - 2].0 != rows[|rows| - 1].0
    requires KeysOnce(Grouped(rows[..|rows| - 1])) <==> Together(rows[..|rows| - 1])
    ensures KeysOnce(Grouped(rows)) <==> Together(rows)
  {
  }

  lemma SameKey<K, V>(rows: seq<(K, V)>)
    requires |rows| > 1 && rows[|rows| - 2].0 == rows[|rows| - 1].0
    requires KeysOnce(Grouped(rows[..|rows| - 1])) <==> Together(rows[..|rows| - 1])
    ensures KeysOnce(Grouped(rows)) <==> Together(rows)
  {
  }

  /** Rows sorted by the grouping key itself, as the list of categories is, in whatever order the database
      compares them by: one in which different keys never count as equal. */
  lemma SortedByKey<K, V>(rows: seq<(K, V)>, le: (K, K) -> bool)
    requires forall a, b :: le(a, b) && le(b, a) ==> a == b
    requires forall i, j :: 0 <= i < j < |rows| ==> le(rows[i].0, rows[j].0)
    ensures KeysOnce(Grouped(rows))
  {
    forall i, j, k | 0 <= i < j < k < |rows| && rows[i].0 == rows[k].0 ensures rows[j].0 == rows[i].0 {
      assert le(rows[i].0, rows[j].0) && le(rows[j].0, rows[k].0);
    }
    KeysOnceIffTogether(rows);
  }

  /** Rows sorted by a number that the key determines and is determined by: sorting by
      team id and grouping by team name is safe because names are unique. */
  lemma SortedStandTogether<K, V>(rows: seq<(K, V)>, ids: seq<int>)
    requires |ids| == |rows|
    requires forall i, j :: 0 <= i < j < |ids| ==> ids[i] <= ids[j]
    requires forall i, j :: 0 <= i < |ids| && 0 <= j < |ids| ==> (ids[i] == ids[j] <==> rows[i].0 == rows[j].0)
    ensures KeysOnce(Grouped(rows))
  {
    forall i, j, k | 0 <= i < j < k < |rows| && rows[i].0 == rows[k].0 ensures rows[j].0 == rows[i].0 {
      assert ids[i] <= ids[j] <= ids[k];
    }
    KeysOnceIffTogether(rows);
  }
}
