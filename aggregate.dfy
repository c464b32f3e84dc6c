/**
 * SQL aggregation as the zoning statistics use it: `GROUP BY` a key with
 * `count(...)`, then `ORDER BY ... DESC`.  Groups come out in the order their
 * keys first appear, and the sort is a stable insertion sort; a database may
 * order ties differently, and every property below holds for any tie order.
 */
module Aggregate {
  import Sql

  datatype Group<K> = Group(key: K, count: nat)

  /** Each of the keys once, in order of first appearance. */
  function Distinct<K(==,!new)>(keys: seq<K>): (d: seq<K>)
    ensures forall k :: k in d <==> k in keys
    ensures forall i, j :: 0 <= i < j < |d| ==> d[i] != d[j]
  {
    if keys == [] then []
    else
      var rest := Distinct(keys[..|keys| - 1]);
      var k := keys[|keys| - 1];
      assert forall x :: x in keys <==> x in keys[..|keys| - 1] || x == k;
      if k in rest then rest else rest + [k]
  }

  /** `GROUP BY key` with `count(*)`: one group per distinct key, with its number of rows. */
  function GroupBy<K(==,!new)>(keys: seq<K>): (gs: seq<Group<K>>)
    ensures |gs| == |Distinct(keys)|
    ensures forall i :: 0 <= i < |gs| ==> gs[i].key == Distinct(keys)[i] && gs[i].count == multiset(keys)[gs[i].key]
  {
    var d := Distinct(keys);
    seq(|d|, i requires 0 <= i < |d| => Group(d[i], multiset(keys)[d[i]]))
  }

  predicate KeysDistinct<K(==)>(gs: seq<Group<K>>) {
    forall i, j :: 0 <= i < j < |gs| ==> gs[i].key != gs[j].key
  }

  /** Every group counts exactly the rows with its key, and counts at least one. */
  predicate CountsExact<K(==)>(gs: seq<Group<K>>, keys: seq<K>) {
    forall i :: 0 <= i < |gs| ==> gs[i].count == multiset(keys)[gs[i].key] > 0
  }

  /** Every key occurring in the rows has a group. */
  predicate Covers<K(==)>(gs: seq<Group<K>>, keys: seq<K>) {
    forall k :: k in keys ==> exists i :: 0 <= i < |gs| && gs[i].key == k
  }

  lemma GroupByCounts<K(!new)>(keys: seq<K>)
    ensures KeysDistinct(GroupBy(keys)) && CountsExact(GroupBy(keys), keys) && Covers(GroupBy(keys), keys)
  {
    var gs := GroupBy(keys);
    var d := Distinct(keys);
    forall k | k in keys ensures exists i :: 0 <= i < |gs| && gs[i].key == k {
      var i :| 0 <= i < |d| && d[i] == k;
      assert gs[i].key == k;
    }
    forall i | 0 <= i < |gs| ensures gs[i].count > 0 {
      assert d[i] in keys;
    }
  }

  predicate SortedDesc<T>(s: seq<T>, rank: T -> int) {
    forall i, j :: 0 <= i < j < |s| ==> rank(s[i]) >= rank(s[j])
  }

  /** Inserts `x` before the first element that does not rank above it. */
  function Insert<T>(x: T, s: seq<T>, rank: T -> int): (r: seq<T>)
    ensures |r| == |s| + 1
  {
    if s == [] || rank(s[0]) <= rank(x) then [x] + s
    else [s[0]] + Insert(x, s[1..], rank)
  }

  lemma {:induction false} InsertPermutes<T>(x: T, s: seq<T>, rank: T -> int)
    ensures multiset(Insert(x, s, rank)) == multiset(s) + multiset{x}
  {
    if s != [] && rank(s[0]) > rank(x) {
      InsertPermutes(x, s[1..], rank);
      assert s == [s[0]] + s[1..];
    }
  }

  /** Inserting adds x and nothing else. */
  lemma {:induction false} InsertMembers<T>(x: T, s: seq<T>, rank: T -> int)
    ensures forall y :: y in Insert(x, s, rank) ==> y == x || y in s
  {
    if s != [] && rank(s[0]) > rank(x) {
      InsertMembers(x, s[1..], rank);
      assert s == [s[0]] + s[1..];
    }
  }

  lemma {:induction false} InsertSorted<T>(x: T, s: seq<T>, rank: T -> int)
    requires SortedDesc(s, rank)
    ensures SortedDesc(Insert(x, s, rank), rank)
  {
    if s != [] && rank(s[0]) > rank(x) {
      InsertSorted(x, s[1..], rank);
      var tail := Insert(x, s[1..], rank);
      InsertMembers(x, s[1..], rank);
      forall j | 0 <= j < |tail| ensures rank(s[0]) >= rank(tail[j]) {
        assert tail[j] in tail;
        assert tail[j] == x || tail[j] in s[1..];
        if tail[j] != x {
          assert tail[j] in s[1..];
          var k :| 0 <= k < |s[1..]| && s[1..][k] == tail[j];
          assert s[k + 1] == tail[j];
        }
      }
      assert Insert(x, s, rank) == [s[0]] + tail;
    }
  }

  /** `ORDER BY rank DESC`. */
  function SortDesc<T>(s: seq<T>, rank: T -> int): (r: seq<T>)
    ensures |r| == |s|
  {
    if s == [] then [] else Insert(s[0], SortDesc(s[1..], rank), rank)
  }

  /** Sorting reorders the elements. */
  lemma {:induction false} SortDescPermutes<T>(s: seq<T>, rank: T -> int)
    ensures multiset(SortDesc(s, rank)) == multiset(s)
  {
    if s != [] {
      SortDescPermutes(s[1..], rank);
      InsertPermutes(s[0], SortDesc(s[1..], rank), rank);
      assert s == [s[0]] + s[1..];
    }
  }

  /** Sorting leaves the elements in non-increasing rank. */
  lemma {:induction false} SortDescSorted<T>(s: seq<T>, rank: T -> int)
    ensures SortedDesc(SortDesc(s, rank), rank)
  {
    if s != [] {
      SortDescSorted(s[1..], rank);
      InsertSorted(s[0], SortDesc(s[1..], rank), rank);
    }
  }

  /** `LIMIT n`. */
  function Take<T>(s: seq<T>, n: nat): (r: seq<T>)
    ensures |r| == if n <= |s| then n else |s|
    ensures r == s[..|r|]
  {
    if n <= |s| then s[..n] else s
  }

  /** A sequence without repetitions holds each element at most once. */
  lemma DistinctCount<T>(s: seq<T>, x: T)
    requires forall i, j :: 0 <= i < j < |s| ==> s[i] != s[j]
    ensures multiset(s)[x] <= 1
  {
    if s != [] {
      var init := s[..|s| - 1];
      assert s == init + [s[|s| - 1]];
      DistinctCount(init, x);
      if x == s[|s| - 1] {
        assert x !in init;
      }
    }
  }

  /** An element found at two positions is counted at least twice. */
  lemma TwiceCounted<T>(s: seq<T>, i: nat, j: nat)
    requires i < j < |s| && s[i] == s[j]
    ensures multiset(s)[s[i]] >= 2
  {
    var x := s[i];
    assert s == s[..i] + [x] + s[i + 1..j] + [x] + s[j + 1..];
  }

  /** A reordering of groups with distinct keys still has distinct keys. */
  lemma PermutationKeepsKeysDistinct<K(!new)>(a: seq<Group<K>>, b: seq<Group<K>>)
    requires KeysDistinct(a) && multiset(a) == multiset(b)
    ensures KeysDistinct(b)
  {
    forall i, j | 0 <= i < j < |b| ensures b[i].key != b[j].key {
      if b[i].key == b[j].key {
        assert b[i] in multiset(a) && b[j] in multiset(a);
        var p :| 0 <= p < |a| && a[p] == b[i];
        var q :| 0 <= q < |a| && a[q] == b[j];
        assert p == q;
        forall m, n | 0 <= m < n < |a| ensures a[m] != a[n] {
        }
        TwiceCounted(b, i, j);
        DistinctCount(a, b[i]);
      }
    }
  }

  /** Sorting keeps every group, so the key and count facts carry over. */
  lemma SortKeepsGroups<K(!new)>(gs: seq<Group<K>>, keys: seq<K>, rank: Group<K> -> int)
    requires KeysDistinct(gs) && CountsExact(gs, keys)
    ensures var s := SortDesc(gs, rank);
            && SortedDesc(s, rank) && KeysDistinct(s) && CountsExact(s, keys)
            && (forall g :: g in s <==> g in gs)
  {
    var s := SortDesc(gs, rank);
    SortDescPermutes(gs, rank);
    SortDescSorted(gs, rank);
    PermutationKeepsKeysDistinct(gs, s);
    forall g ensures g in s <==> g in gs {
      assert g in s <==> g in multiset(s);
      assert g in gs <==> g in multiset(gs);
    }
    forall i | 0 <= i < |s| ensures s[i].count == multiset(keys)[s[i].key] > 0 {
      assert s[i] in gs;
    }
  }

  function ByCount<K>(g: Group<K>): int { g.count }

  /** The `n` groups with the most rows: sorted by count, with distinct keys, each counted exactly. */
  lemma TopByCount<K(!new)>(keys: seq<K>, n: nat)
    ensures var top := Take(SortDesc(GroupBy(keys), ByCount), n);
            && |top| == Sql.Min(n, |Distinct(keys)|)
            && SortedDesc(top, ByCount) && KeysDistinct(top) && CountsExact(top, keys)
  {
    var s := SortDesc(GroupBy(keys), ByCount);
    GroupByCounts(keys);
    SortKeepsGroups(GroupBy(keys), keys, ByCount);
    var top := Take(s, n);
    assert forall i :: 0 <= i < |top| ==> top[i] == s[i];
  }

  /** No key left out of the top `n` has more rows than a key kept. */
  lemma TopByCountMaximal<K(!new)>(keys: seq<K>, n: nat)
    ensures var top := Take(SortDesc(GroupBy(keys), ByCount), n);
            forall k, i :: k in keys && 0 <= i < |top| && (forall j :: 0 <= j < |top| ==> top[j].key != k)
                 ==> multiset(keys)[k] <= top[i].count
  {
    var gs := GroupBy(keys);
    var s := SortDesc(gs, ByCount);
    var top := Take(s, n);
    GroupByCounts(keys);
    SortKeepsGroups(gs, keys, ByCount);
    forall k, i | k in keys && 0 <= i < |top| && (forall j :: 0 <= j < |top| ==> top[j].key != k)
      ensures multiset(keys)[k] <= top[i].count
    {
      var p :| 0 <= p < |gs| && gs[p].key == k;
      assert gs[p] in s;
      var q :| 0 <= q < |s| && s[q] == gs[p];
      assert forall j :: 0 <= j < |top| ==> top[j] == s[j];
      assert q >= |top|;
      assert ByCount(s[i]) >= ByCount(s[q]);
    }
  }

  /** Keeping some of the groups keeps their keys distinct. */
  lemma {:induction false} FilterKeepsKeysDistinct<K(!new)>(gs: seq<Group<K>>, p: Group<K> -> bool)
    requires KeysDistinct(gs)
    ensures KeysDistinct(Sql.Filter(gs, p))
  {
    if gs != [] {
      FilterKeepsKeysDistinct(gs[1..], p);
      var rest := Sql.Filter(gs[1..], p);
      if p(gs[0]) {
        forall j | 0 <= j < |rest| ensures gs[0].key != rest[j].key {
          assert rest[j] in rest;
          var k :| 0 <= k < |gs[1..]| && gs[1..][k] == rest[j];
          assert gs[k + 1] == rest[j];
        }
        assert Sql.Filter(gs, p) == [gs[0]] + rest;
      }
    }
  }
}
