/** `dumpTable` of js/hooks.js: group entries by a key function, sum a value
    function per key and in total, and list the groups largest first after a
    leading `<total>` row. The key and value functions are parameters. */
module Aggregation {

  /** A row of the table: the leading `<total>` row, or one group. */
  datatype Row<K> = TotalRow(value: int) | GroupRow(key: K, value: int)

  /** Sum of `getValue` over all entries. */
  function Sum<E>(entries: seq<E>, getValue: E -> int): int
  {
    if entries == [] then 0
    else Sum(entries[..|entries| - 1], getValue) + getValue(entries[|entries| - 1])
  }

  /** The set of keys the entries have. */
  ghost function KeySet<E, K>(entries: seq<E>, getKey: E -> K): set<K>
  {
    set e | e in entries :: getKey(e)
  }

  lemma KeySetSnoc<E, K>(entries: seq<E>, getKey: E -> K, x: E)
    ensures KeySet(entries + [x], getKey) == KeySet(entries, getKey) + {getKey(x)}
  {
    var l, r := KeySet(entries + [x], getKey), KeySet(entries, getKey) + {getKey(x)};
    forall k | k in r ensures k in l {
      if k != getKey(x) {
        var e :| e in entries && getKey(e) == k;
        assert e in entries + [x];
      } else {
        assert x in entries + [x];
      }
    }
  }

  /** Sum of `getValue` over the entries whose key is `key`. */
  function KeySum<E, K(==)>(entries: seq<E>, getKey: E -> K, getValue: E -> int, key: K): (r: int)
    ensures key !in KeySet(entries, getKey) ==> r == 0
  {
    if entries == [] then 0
    else
      var init, last := entries[..|entries| - 1], entries[|entries| - 1];
      assert entries == init + [last];
      KeySetSnoc(init, getKey, last);
      KeySum(init, getKey, getValue, key) + (if getKey(last) == key then getValue(last) else 0)
  }

  /** The distinct keys in the order they first occur: the iteration order of
      the `byKey` Map, which keeps each key where it was first inserted. */
  function Keys<E, K(==)>(entries: seq<E>, getKey: E -> K): (r: seq<K>)
    ensures Distinct(r)
    ensures forall k :: k in r ==> k in KeySet(entries, getKey)
    ensures forall k :: k in KeySet(entries, getKey) ==> k in r
  {
    if entries == [] then []
    else
      var init, last := entries[..|entries| - 1], entries[|entries| - 1];
      assert entries == init + [last];
      KeySetSnoc(init, getKey, last);
      var ks := Keys(init, getKey);
      if getKey(last) in ks then ks else ks + [getKey(last)]
  }

  /** A (key, aggregate) pair for each of `keys`, in that order. */
  function GroupsFor<E, K(==)>(entries: seq<E>, getKey: E -> K, getValue: E -> int, keys: seq<K>): (r: seq<(K, int)>)
    ensures |r| == |keys|
    ensures forall i :: 0 <= i < |r| ==> r[i] == (keys[i], KeySum(entries, getKey, getValue, keys[i]))
  {
    if keys == [] then []
    else [(keys[0], KeySum(entries, getKey, getValue, keys[0]))] + GroupsFor(entries, getKey, getValue, keys[1..])
  }

  /** Sum of the aggregates of a list of groups. */
  function SumValues<K>(groups: seq<(K, int)>): int
  {
    if groups == [] then 0 else groups[0].1 + SumValues(groups[1..])
  }

  predicate NonIncreasing<K>(groups: seq<(K, int)>)
  {
    forall i, j :: 0 <= i < j < |groups| ==> groups[i].1 >= groups[j].1
  }

  /** All elements of `s` are different. */
  predicate Distinct<T(==)>(s: seq<T>)
  {
    forall i, j :: 0 <= i < j < |s| ==> s[i] != s[j]
  }

  predicate DistinctKeys<K(==)>(groups: seq<(K, int)>)
  {
    forall i, j :: 0 <= i < j < |groups| ==> groups[i].0 != groups[j].0
  }

  /** Inserts `g` into a list sorted largest first, ahead of the first group
      that is not larger, so that equal groups keep their relative order. */
  function InsertDesc<K>(g: (K, int), sorted: seq<(K, int)>): (r: seq<(K, int)>)
    ensures |r| == |sorted| + 1
  {
    if sorted == [] || g.1 >= sorted[0].1 then [g] + sorted
    else [sorted[0]] + InsertDesc(g, sorted[1..])
  }

  /** The stable sort of `[...byKey]` by `(a, b) => b[1] - a[1]`: largest
      aggregate first, ties in insertion order. */
  function SortDesc<K>(groups: seq<(K, int)>): (r: seq<(K, int)>)
    ensures |r| == |groups|
  {
    if groups == [] then [] else InsertDesc(groups[0], SortDesc(groups[1..]))
  }

  /** The groups whose aggregate is `v`, in order. */
  function WithValue<K>(groups: seq<(K, int)>, v: int): seq<(K, int)>
  {
    if groups == [] then []
    else (if groups[0].1 == v then [groups[0]] else []) + WithValue(groups[1..], v)
  }

  lemma {:induction false} InsertDescStable<K>(g: (K, int), sorted: seq<(K, int)>, v: int)
    ensures WithValue(InsertDesc(g, sorted), v) == (if g.1 == v then [g] else []) + WithValue(sorted, v)
  {
    if sorted == [] || g.1 >= sorted[0].1 {
      assert ([g] + sorted)[1..] == sorted;
    } else {
      var rest := InsertDesc(g, sorted[1..]);
      var first := if sorted[0].1 == v then [sorted[0]] else [];
      var mine := if g.1 == v then [g] else [];
      calc {
        WithValue(InsertDesc(g, sorted), v);
        WithValue([sorted[0]] + rest, v);
        { assert ([sorted[0]] + rest)[1..] == rest; }
        first + WithValue(rest, v);
        { InsertDescStable(g, sorted[1..], v); }
        first + (mine + WithValue(sorted[1..], v));
        // `sorted[0]` is larger than `g`, so at most one of them carries `v`
        { assert first == [] || mine == []; }
        mine + (first + WithValue(sorted[1..], v));
        mine + WithValue(sorted, v);
      }
    }
  }

  /** The sort is stable: groups with equal aggregates keep their relative order. */
  lemma {:induction false} SortDescStable<K>(groups: seq<(K, int)>, v: int)
    ensures WithValue(SortDesc(groups), v) == WithValue(groups, v)
  {
    if groups != [] {
      SortDescStable(groups[1..], v);
      InsertDescStable(groups[0], SortDesc(groups[1..]), v);
    }
  }

  lemma {:induction false} InsertDescPermutes<K>(g: (K, int), sorted: seq<(K, int)>)
    ensures multiset(InsertDesc(g, sorted)) == multiset(sorted) + multiset{g}
  {
    if sorted != [] && g.1 < sorted[0].1 {
      InsertDescPermutes(g, sorted[1..]);
      assert sorted == [sorted[0]] + sorted[1..];
    }
  }

  lemma {:induction false} InsertDescSorted<K>(g: (K, int), sorted: seq<(K, int)>)
    requires NonIncreasing(sorted)
    ensures NonIncreasing(InsertDesc(g, sorted))
  {
    if sorted != [] && g.1 < sorted[0].1 {
      var rest := InsertDesc(g, sorted[1..]);
      InsertDescSorted(g, sorted[1..]);
      InsertDescPermutes(g, sorted[1..]);
      forall h | h in rest ensures h.1 <= sorted[0].1 {
        assert h in multiset(rest);
        if h != g {
          var j :| 0 <= j < |sorted[1..]| && sorted[1..][j] == h;
          assert sorted[j + 1] == h;
        }
      }
    }
  }

  lemma {:induction false} InsertDescSum<K>(g: (K, int), sorted: seq<(K, int)>)
    ensures SumValues(InsertDesc(g, sorted)) == g.1 + SumValues(sorted)
  {
    if sorted != [] && g.1 < sorted[0].1 {
      InsertDescSum(g, sorted[1..]);
    }
  }

  lemma {:induction false} InsertDescDistinct<K>(g: (K, int), sorted: seq<(K, int)>)
    requires DistinctKeys(sorted)
    requires forall h :: h in sorted ==> h.0 != g.0
    ensures DistinctKeys(InsertDesc(g, sorted))
  {
    if sorted != [] && g.1 < sorted[0].1 {
      var rest := InsertDesc(g, sorted[1..]);
      assert DistinctKeys(sorted[1..]) by {
        forall i, j | 0 <= i < j < |sorted[1..]| ensures sorted[1..][i].0 != sorted[1..][j].0 {
          assert sorted[1..][i] == sorted[i + 1] && sorted[1..][j] == sorted[j + 1];
        }
      }
      InsertDescDistinct(g, sorted[1..]);
      InsertDescPermutes(g, sorted[1..]);
      forall h | h in rest ensures h.0 != sorted[0].0 {
        assert h in multiset(rest);
        if h != g {
          var j :| 0 <= j < |sorted[1..]| && sorted[1..][j] == h;
          assert sorted[j + 1] == h;
        }
      }
    }
  }

  /** The sort permutes the groups, leaves them largest first and keeps their sum. */
  lemma {:induction false} SortDescSpec<K>(groups: seq<(K, int)>)
    ensures multiset(SortDesc(groups)) == multiset(groups)
    ensures NonIncreasing(SortDesc(groups))
    ensures SumValues(SortDesc(groups)) == SumValues(groups)
  {
    if groups != [] {
      var rest := SortDesc(groups[1..]);
      SortDescSpec(groups[1..]);
      InsertDescPermutes(groups[0], rest);
      InsertDescSorted(groups[0], rest);
      InsertDescSum(groups[0], rest);
      assert multiset(groups) == multiset{groups[0]} + multiset(groups[1..]) by {
        assert groups == [groups[0]] + groups[1..];
      }
    }
  }

  /** Sorting keeps the keys of the groups distinct. */
  lemma {:induction false} SortDescDistinct<K>(groups: seq<(K, int)>)
    requires DistinctKeys(groups)
    ensures DistinctKeys(SortDesc(groups))
  {
    if groups != [] {
      var rest := SortDesc(groups[1..]);
      assert DistinctKeys(groups[1..]) by {
        forall i, j | 0 <= i < j < |groups[1..]| ensures groups[1..][i].0 != groups[1..][j].0 {
          assert groups[1..][i] == groups[i + 1] && groups[1..][j] == groups[j + 1];
        }
      }
      SortDescDistinct(groups[1..]);
      SortDescSpec(groups[1..]);
      forall h | h in rest ensures h.0 != groups[0].0 {
        assert h in multiset(groups[1..]);
        var j :| 0 <= j < |groups[1..]| && groups[1..][j] == h;
        assert groups[j + 1] == h;
      }
      InsertDescDistinct(groups[0], rest);
    }
  }

  /** The groups of the table in the order it lists them. */
  function SortedGroups<E, K(==)>(entries: seq<E>, getKey: E -> K, getValue: E -> int): seq<(K, int)>
  {
    SortDesc(GroupsFor(entries, getKey, getValue, Keys(entries, getKey)))
  }

  function GroupRows<K>(groups: seq<(K, int)>): (r: seq<Row<K>>)
  {
    seq(|groups|, i requires 0 <= i < |groups| => GroupRow(groups[i].0, groups[i].1))
  }

  /** The rows `dumpTable` hands to `console.table`. */
  function Table<E, K(==)>(entries: seq<E>, getKey: E -> K, getValue: E -> int): (r: seq<Row<K>>)
    ensures |r| >= 1 && r[0] == TotalRow(Sum(entries, getValue))
    ensures forall i :: 1 <= i < |r| ==> r[i].GroupRow?
  {
    [TotalRow(Sum(entries, getValue))] + GroupRows(SortedGroups(entries, getKey, getValue))
  }

  /** How one more entry changes the total, the per-key sums and the key order. */
  lemma EntrySnoc<E, K>(entries: seq<E>, getKey: E -> K, getValue: E -> int, x: E)
    ensures Sum(entries + [x], getValue) == Sum(entries, getValue) + getValue(x)
    ensures forall k :: KeySum(entries + [x], getKey, getValue, k)
                     == KeySum(entries, getKey, getValue, k) + (if getKey(x) == k then getValue(x) else 0)
    ensures Keys(entries + [x], getKey)
         == if getKey(x) in Keys(entries, getKey) then Keys(entries, getKey) else Keys(entries, getKey) + [getKey(x)]
  {
    assert (entries + [x])[..|entries|] == entries;
  }

  /** The per-key aggregates add up to the grand total. */
  lemma {:induction false} KeySumsAddUp<E, K>(entries: seq<E>, getKey: E -> K, getValue: E -> int)
    ensures SumValues(GroupsFor(entries, getKey, getValue, Keys(entries, getKey))) == Sum(entries, getValue)
  {
    if entries != [] {
      var init, last := entries[..|entries| - 1], entries[|entries| - 1];
      assert entries == init + [last];
      EntrySnoc(init, getKey, getValue, last);
      var ks := Keys(init, getKey);
      KeySumsAddUp(init, getKey, getValue);
      SumGroupsSnoc(init, getKey, getValue, last, ks);
      if getKey(last) !in ks {
        SumGroupsAppend(entries, getKey, getValue, ks, [getKey(last)]);
        assert getKey(last) !in KeySet(init, getKey);
      }
    }
  }

  /** One more entry raises the sum over distinct keys by its value exactly
      when its key is among them. */
  lemma {:induction false} SumGroupsSnoc<E, K>(entries: seq<E>, getKey: E -> K, getValue: E -> int, x: E, keys: seq<K>)
    requires Distinct(keys)
    ensures SumValues(GroupsFor(entries + [x], getKey, getValue, keys))
         == SumValues(GroupsFor(entries, getKey, getValue, keys)) + (if getKey(x) in keys then getValue(x) else 0)
  {
    if keys != [] {
      assert Distinct(keys[1..]) by {
        forall i, j | 0 <= i < j < |keys[1..]| ensures keys[1..][i] != keys[1..][j] {
          assert keys[1..][i] == keys[i + 1] && keys[1..][j] == keys[j + 1];
        }
      }
      SumGroupsSnoc(entries, getKey, getValue, x, keys[1..]);
      EntrySnoc(entries, getKey, getValue, x);
      assert keys == [keys[0]] + keys[1..];
      assert keys[0] !in keys[1..];
    }
  }

  lemma {:induction false} SumGroupsAppend<E, K>(entries: seq<E>, getKey: E -> K, getValue: E -> int, a: seq<K>, b: seq<K>)
    ensures SumValues(GroupsFor(entries, getKey, getValue, a + b))
         == SumValues(GroupsFor(entries, getKey, getValue, a)) + SumValues(GroupsFor(entries, getKey, getValue, b))
  {
    if a != [] {
      assert (a + b)[0] == a[0];
      assert (a + b)[1..] == a[1..] + b;
      SumGroupsAppend(entries, getKey, getValue, a[1..], b);
    } else {
      assert a + b == b;
    }
  }

  /** The groups listed add up to the `<total>` row. */
  lemma GroupsAddUpToTotal<E, K>(entries: seq<E>, getKey: E -> K, getValue: E -> int)
    ensures SumValues(SortedGroups(entries, getKey, getValue)) == Sum(entries, getValue)
  {
    KeySumsAddUp(entries, getKey, getValue);
    SortDescSpec(GroupsFor(entries, getKey, getValue, Keys(entries, getKey)));
  }

  /** One group per distinct key, each carrying the sum over that key's entries,
      listed largest first. */
  lemma OneGroupPerKey<E, K>(entries: seq<E>, getKey: E -> K, getValue: E -> int)
    ensures var g := SortedGroups(entries, getKey, getValue);
      && DistinctKeys(g)
      && (set h | h in g :: h.0) == KeySet(entries, getKey)
      && (forall h :: h in g ==> h.1 == KeySum(entries, getKey, getValue, h.0))
      && NonIncreasing(g)
  {
    var ks := Keys(entries, getKey);
    var groups := GroupsFor(entries, getKey, getValue, ks);
    var g := SortedGroups(entries, getKey, getValue);
    SortDescSpec(groups);
    SortDescDistinct(groups);
    forall h | h in g ensures h in groups {
      assert h in multiset(g);
    }
    forall h | h in groups ensures h in g {
      assert h in multiset(groups);
    }
    forall k | k in KeySet(entries, getKey) ensures k in set h | h in g :: h.0 {
      var i :| 0 <= i < |ks| && ks[i] == k;
      assert groups[i] in g;
    }
  }

  /** What `dumpTable`'s loop has built after reading `done`: the running
      total, the keys in the order `byKey` received them, and each key's sum. */
  ghost predicate Accumulated<E, K>(done: seq<E>, getKey: E -> K, getValue: E -> int, total: int, inserted: seq<K>, byKey: map<K, int>)
  {
    && total == Sum(done, getValue)
    && inserted == Keys(done, getKey)
    && (forall k :: k in inserted ==> k in byKey)
    && (forall k :: k in byKey ==> k in inserted && byKey[k] == KeySum(done, getKey, getValue, k))
  }

  /** One iteration of `dumpTable`'s loop keeps what it has built accurate. */
  lemma AccumulatedSnoc<E, K>(done: seq<E>, getKey: E -> K, getValue: E -> int, total: int, inserted: seq<K>, byKey: map<K, int>, x: E)
    requires Accumulated(done, getKey, getValue, total, inserted, byKey)
    ensures var key := getKey(x);
      Accumulated(done + [x], getKey, getValue, total + getValue(x),
                  if key in byKey then inserted else inserted + [key],
                  byKey[key := (if key in byKey then byKey[key] else 0) + getValue(x)])
  {
    EntrySnoc(done, getKey, getValue, x);
  }

  /** `dumpTable`'s loop over the entries, then the sort of the groups and the
      `<total>` row put in front. */
  method DumpTable<E, K(==)>(entries: seq<E>, getKey: E -> K, getValue: E -> int) returns (table: seq<Row<K>>)
    ensures table == Table(entries, getKey, getValue)
    ensures |table| == 1 + |KeySet(entries, getKey)|
    ensures table[0] == TotalRow(Sum(entries, getValue))
  {
    var byKey: map<K, int> := map[];
    // the order in which `byKey` received its keys
    var inserted: seq<K> := [];
    var total := 0;
    var i := 0;
    // the entries read so far
    ghost var done: seq<E> := [];
    while i < |entries|
      invariant 0 <= i <= |entries| && done == entries[..i]
      invariant Accumulated(done, getKey, getValue, total, inserted, byKey)
    {
      assert entries[..i + 1] == entries[..i] + [entries[i]];
      var key := getKey(entries[i]);
      var keyValue := if key in byKey then byKey[key] else 0;
      var entryValue := getValue(entries[i]);
      AccumulatedSnoc(done, getKey, getValue, total, inserted, byKey, entries[i]);
      total := total + entryValue;
      if key !in byKey {
        inserted := inserted + [key];
      }
      byKey := byKey[key := keyValue + entryValue];
      done := done + [entries[i]];
      i := i + 1;
    }
    assert done == entries;
    var pairs := seq(|inserted|, j requires 0 <= j < |inserted| && inserted[j] in byKey => (inserted[j], byKey[inserted[j]]));
    assert pairs == GroupsFor(entries, getKey, getValue, inserted);
    table := [TotalRow(total)] + GroupRows(SortDesc(pairs));
    TableSize(entries, getKey, getValue);
  }

  /** The table has the `<total>` row and one row per distinct key. */
  lemma TableSize<E, K>(entries: seq<E>, getKey: E -> K, getValue: E -> int)
    ensures |Table(entries, getKey, getValue)| == 1 + |KeySet(entries, getKey)|
  {
    var ks := Keys(entries, getKey);
    var groups := GroupsFor(entries, getKey, getValue, ks);
    SortDescSpec(groups);
    assert |SortDesc(groups)| == |multiset(SortDesc(groups))| == |ks|;
    DistinctCard(ks);
    assert (set k | k in ks) == KeySet(entries, getKey);
  }

  /** A list of distinct elements has as many elements as its set. */
  lemma {:induction false} DistinctCard<T>(s: seq<T>)
    requires Distinct(s)
    ensures |set x | x in s| == |s|
  {
    if s != [] {
      var init := s[..|s| - 1];
      assert Distinct(init) by {
        forall i, j | 0 <= i < j < |init| ensures init[i] != init[j] {
          assert init[i] == s[i] && init[j] == s[j];
        }
      }
      DistinctCard(init);
      assert s == init + [s[|s| - 1]];
      assert (set x | x in s) == (set x | x in init) + {s[|s| - 1]};
      assert s[|s| - 1] !in init;
    }
  }

  /** A table of no entries is the `<total>` row alone, at zero. */
  lemma TableOfNone<E, K>(getKey: E -> K, getValue: E -> int)
    ensures Table([], getKey, getValue) == [TotalRow(0)]
  {
  }

  /** A table of one entry is its total and the entry's own group. */
  lemma TableOfOne<E, K>(e: E, getKey: E -> K, getValue: E -> int)
    ensures Table([e], getKey, getValue) == [TotalRow(getValue(e)), GroupRow(getKey(e), getValue(e))]
  {
    EntrySnoc([], getKey, getValue, e);
    assert [] + [e] == [e];
    var g := (getKey(e), getValue(e));
    assert GroupsFor([e], getKey, getValue, [getKey(e)]) == [g];
    assert SortDesc([g]) == [g] by {
      assert [g][1..] == [];
    }
  }
}
