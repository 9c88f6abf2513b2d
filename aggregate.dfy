/** Group-by sums and descending rankings over a table whose rows have type `R`:
    the `groupby(...).sum()` and `sort_values(ascending=False)` of the reports. */
module Aggregate {
  import opened Order

  /** One row of a grouped result: a group key and its aggregated value. */
  datatype Entry<K> = Entry(key: K, value: real)

  /** `f` summed over all rows. */
  function SumBy<R>(rows: seq<R>, f: R -> real): real {
    if rows == [] then 0.0
    else SumBy(rows[..|rows| - 1], f) + f(rows[|rows| - 1])
  }

  /** `f` summed over the rows whose key is `k`: one group's `sum()`. */
  function SumFor<R, K(==)>(rows: seq<R>, key: R -> K, k: K, f: R -> real): real {
    if rows == [] then 0.0
    else
      var last := rows[|rows| - 1];
      SumFor(rows[..|rows| - 1], key, k, f) + (if key(last) == k then f(last) else 0.0)
  }

  /** The number of rows whose key is `k`: one group's `value_counts()`. */
  function CountFor<R, K(==)>(rows: seq<R>, key: R -> K, k: K): nat {
    if rows == [] then 0
    else CountFor(rows[..|rows| - 1], key, k) + (if key(rows[|rows| - 1]) == k then 1 else 0)
  }

  /** The column of keys, one per row. */
  function Column<R, K>(rows: seq<R>, key: R -> K): (c: seq<K>)
    ensures |c| == |rows|
  {
    seq(|rows|, i requires 0 <= i < |rows| => key(rows[i]))
  }

  function Keys<K>(es: seq<Entry<K>>): (ks: seq<K>)
    ensures |ks| == |es|
  {
    seq(|es|, i requires 0 <= i < |es| => es[i].key)
  }

  /** No key occurs twice. */
  predicate DistinctKeys<K(==)>(es: seq<Entry<K>>) {
    NoDup(Keys(es))
  }

  lemma DistinctKeysByIndex<K>(es: seq<Entry<K>>)
    ensures DistinctKeys(es) <==> forall i, j :: 0 <= i < j < |es| ==> es[i].key != es[j].key
  {
    assert forall i :: 0 <= i < |es| ==> Keys(es)[i] == es[i].key;
  }

  /** Sum of the values of a grouped result. */
  function Total<K>(es: seq<Entry<K>>): real {
    if es == [] then 0.0 else es[0].value + Total(es[1..])
  }

  /** One entry per key, in the order of `keys`, holding that group's sum. */
  function GroupBy<R, K(==)>(keys: seq<K>, rows: seq<R>, key: R -> K, f: R -> real): (g: seq<Entry<K>>)
    ensures Keys(g) == keys
    ensures forall i :: 0 <= i < |g| ==> g[i].value == SumFor(rows, key, g[i].key, f)
  {
    if keys == [] then []
    else [Entry(keys[0], SumFor(rows, key, keys[0], f))] + GroupBy(keys[1..], rows, key, f)
  }

  lemma {:induction false} TotalOfGroupsSnoc<R, K>(keys: seq<K>, rows: seq<R>, x: R, key: R -> K, f: R -> real)
    requires NoDup(keys)
    ensures Total(GroupBy(keys, rows + [x], key, f))
         == Total(GroupBy(keys, rows, key, f)) + (if key(x) in keys then f(x) else 0.0)
  {
    if keys != [] {
      assert (rows + [x])[..|rows|] == rows;
      TotalOfGroupsSnoc(keys[1..], rows, x, key, f);
      assert key(x) in keys <==> key(x) == keys[0] || key(x) in keys[1..] by {
        assert keys == [keys[0]] + keys[1..];
      }
    }
  }

  /** Grouping over keys that cover every row without repetition keeps the
      grand total: no row is lost and none is counted twice. */
  lemma {:induction false} TotalOfGroups<R, K>(keys: seq<K>, rows: seq<R>, key: R -> K, f: R -> real)
    requires NoDup(keys)
    requires forall i :: 0 <= i < |rows| ==> key(rows[i]) in keys
    ensures Total(GroupBy(keys, rows, key, f)) == SumBy(rows, f)
  {
    if rows == [] {
      TotalOfNoRows(keys, key, f);
    } else {
      var n := |rows| - 1;
      assert rows == rows[..n] + [rows[n]];
      TotalOfGroups(keys, rows[..n], key, f);
      TotalOfGroupsSnoc(keys, rows[..n], rows[n], key, f);
    }
  }

  lemma {:induction false} TotalOfNoRows<R, K>(keys: seq<K>, key: R -> K, f: R -> real)
    ensures Total(GroupBy(keys, [], key, f)) == 0.0
  {
    if keys != [] {
      TotalOfNoRows(keys[1..], key, f);
    }
  }

  /** A key that occurs in the column has at least one row in its group. */
  lemma {:induction false} CountForPositive<R, K>(rows: seq<R>, key: R -> K, k: K)
    requires k in Column(rows, key)
    ensures CountFor(rows, key, k) > 0
  {
    var n := |rows| - 1;
    if key(rows[n]) != k {
      assert k in Column(rows[..n], key) by {
        var i :| 0 <= i < |rows| && key(rows[i]) == k;
        assert Column(rows[..n], key)[i] == k;
      }
      CountForPositive(rows[..n], key, k);
    }
  }

  /** Summing the constant 1 counts the rows of the group. */
  lemma {:induction false} SumForOneIsCount<R, K>(rows: seq<R>, key: R -> K, k: K, one: R -> real)
    requires forall r :: one(r) == 1.0
    ensures SumFor(rows, key, k, one) == CountFor(rows, key, k) as real
  {
    if rows != [] {
      SumForOneIsCount(rows[..|rows| - 1], key, k, one);
    }
  }

  lemma {:induction false} SumByOneIsLength<R>(rows: seq<R>, one: R -> real)
    requires forall r :: one(r) == 1.0
    ensures SumBy(rows, one) == |rows| as real
  {
    if rows != [] {
      SumByOneIsLength(rows[..|rows| - 1], one);
    }
  }

  /** Sums of pointwise-equal measures agree. */
  lemma {:induction false} SumForCongruent<R, K>(rows: seq<R>, key: R -> K, k: K, f: R -> real, g: R -> real)
    requires forall i :: 0 <= i < |rows| ==> f(rows[i]) == g(rows[i])
    ensures SumFor(rows, key, k, f) == SumFor(rows, key, k, g)
  {
    if rows != [] {
      SumForCongruent(rows[..|rows| - 1], key, k, f, g);
    }
  }

  /** A group sum of a pointwise difference is the difference of group sums. */
  lemma {:induction false} SumForDifference<R, K>(rows: seq<R>, key: R -> K, k: K, f: R -> real, g: R -> real, h: R -> real)
    requires forall i :: 0 <= i < |rows| ==> f(rows[i]) == g(rows[i]) - h(rows[i])
    ensures SumFor(rows, key, k, f) == SumFor(rows, key, k, g) - SumFor(rows, key, k, h)
  {
    if rows != [] {
      SumForDifference(rows[..|rows| - 1], key, k, f, g, h);
    }
  }

  predicate NonIncreasing<K>(es: seq<Entry<K>>) {
    forall i, j :: 0 <= i < j < |es| ==> es[i].value >= es[j].value
  }

  lemma {:induction false} TotalOfConcat<K>(a: seq<Entry<K>>, b: seq<Entry<K>>)
    ensures Total(a + b) == Total(a) + Total(b)
  {
    if a != [] {
      assert (a + b)[1..] == a[1..] + b;
      TotalOfConcat(a[1..], b);
    } else {
      assert a + b == b;
    }
  }

  /** Where `e` goes in a non-increasing sequence: before the first entry whose
      value it reaches. */
  function InsertPos<K>(e: Entry<K>, s: seq<Entry<K>>): (p: nat)
    requires NonIncreasing(s)
    ensures p <= |s|
    ensures forall i :: 0 <= i < p ==> s[i].value > e.value
    ensures forall i :: p <= i < |s| ==> s[i].value <= e.value
  {
    if s == [] || e.value >= s[0].value then 0 else 1 + InsertPos(e, s[1..])
  }

  function InsertByValue<K(==)>(e: Entry<K>, s: seq<Entry<K>>): (r: seq<Entry<K>>)
    requires NonIncreasing(s)
    ensures NonIncreasing(r)
    ensures multiset(r) == multiset(s) + multiset{e}
    ensures Total(r) == e.value + Total(s)
  {
    var p := InsertPos(e, s);
    InsertAtKeepsOrder(e, s, p);
    InsertAtKeepsEntries(e, s, p);
    InsertAtTotal(e, s, p);
    s[..p] + [e] + s[p..]
  }

  lemma InsertAtKeepsOrder<K>(e: Entry<K>, s: seq<Entry<K>>, p: nat)
    requires NonIncreasing(s) && p <= |s|
    requires forall i :: 0 <= i < p ==> s[i].value > e.value
    requires forall i :: p <= i < |s| ==> s[i].value <= e.value
    ensures NonIncreasing(s[..p] + [e] + s[p..])
  {
    var r := s[..p] + [e] + s[p..];
    assert forall i :: 0 <= i < |r| ==> r[i] == if i < p then s[i] else if i == p then e else s[i - 1];
  }

  lemma InsertAtKeepsEntries<K>(e: Entry<K>, s: seq<Entry<K>>, p: nat)
    requires p <= |s|
    ensures multiset(s[..p] + [e] + s[p..]) == multiset(s) + multiset{e}
  {
    assert s == s[..p] + s[p..];
  }

  lemma InsertAtTotal<K>(e: Entry<K>, s: seq<Entry<K>>, p: nat)
    requires p <= |s|
    ensures Total(s[..p] + [e] + s[p..]) == e.value + Total(s)
  {
    assert s == s[..p] + s[p..];
    TotalOfConcat(s[..p], s[p..]);
    TotalOfConcat(s[..p] + [e], s[p..]);
    TotalOfConcat(s[..p], [e]);
  }

  lemma InsertByValueKeepsKeysDistinct<K>(e: Entry<K>, s: seq<Entry<K>>)
    requires NonIncreasing(s) && DistinctKeys(s)
    requires forall i :: 0 <= i < |s| ==> s[i].key != e.key
    ensures DistinctKeys(InsertByValue(e, s))
  {
    InsertAtKeepsKeysDistinct(e, s, InsertPos(e, s));
  }

  lemma InsertAtKeepsKeysDistinct<K>(e: Entry<K>, s: seq<Entry<K>>, p: nat)
    requires p <= |s| && DistinctKeys(s)
    requires forall i :: 0 <= i < |s| ==> s[i].key != e.key
    ensures DistinctKeys(s[..p] + [e] + s[p..])
  {
    var r := s[..p] + [e] + s[p..];
    DistinctKeysByIndex(s);
    DistinctKeysByIndex(r);
    assert forall i :: 0 <= i < |r| ==> r[i] == if i < p then s[i] else if i == p then e else s[i - 1];
  }

  /** `sort_values(ascending=False)`: the same entries, largest value first.
      pandas does not fix the order of equal values; this one keeps them stable. */
  function Rank<K(==)>(es: seq<Entry<K>>): (r: seq<Entry<K>>)
    ensures NonIncreasing(r)
    ensures multiset(r) == multiset(es)
    ensures Total(r) == Total(es)
  {
    if es == [] then []
    else
      assert es == [es[0]] + es[1..];
      InsertByValue(es[0], Rank(es[1..]))
  }

  lemma {:induction false} RankKeepsKeysDistinct<K>(es: seq<Entry<K>>)
    requires DistinctKeys(es)
    ensures DistinctKeys(Rank(es))
  {
    if es != [] {
      DistinctKeysByIndex(es);
      DistinctKeysByIndex(es[1..]);
      RankKeepsKeysDistinct(es[1..]);
      var t := Rank(es[1..]);
      forall i | 0 <= i < |t| ensures t[i].key != es[0].key {
        assert t[i] in multiset(es[1..]);
      }
      InsertByValueKeepsKeysDistinct(es[0], t);
    }
  }

  /** Entries that are a permutation of each other hold the same keys and the
      same (key, value) pairs. */
  lemma SameEntries<K>(r: seq<Entry<K>>, es: seq<Entry<K>>)
    requires multiset(r) == multiset(es)
    ensures forall e :: e in r <==> e in es
    ensures forall k :: k in Keys(r) <==> k in Keys(es)
  {
    forall e ensures e in r <==> e in es {
      assert e in r <==> e in multiset(r);
      assert e in es <==> e in multiset(es);
    }
    forall k ensures k in Keys(r) <==> k in Keys(es) {
      if k in Keys(r) {
        var i :| 0 <= i < |r| && r[i].key == k;
        assert r[i] in es;
        var j :| 0 <= j < |es| && es[j] == r[i];
        assert Keys(es)[j] == k;
      }
      if k in Keys(es) {
        var i :| 0 <= i < |es| && es[i].key == k;
        assert es[i] in r;
        var j :| 0 <= j < |r| && r[j] == es[i];
        assert Keys(r)[j] == k;
      }
    }
  }

  function EntryValue<K>(e: Entry<K>): real {
    e.value
  }

  lemma {:induction false} SumByCons<R>(x: R, s: seq<R>, f: R -> real)
    ensures SumBy([x] + s, f) == f(x) + SumBy(s, f)
  {
    if s != [] {
      var n := |s| - 1;
      assert ([x] + s)[..n + 1] == [x] + s[..n];
      SumByCons(x, s[..n], f);
    } else {
      assert [x] + s == [x];
      assert [x][..0] == [];
    }
  }

  lemma SumBySnoc<R>(s: seq<R>, x: R, f: R -> real)
    ensures SumBy(s + [x], f) == SumBy(s, f) + f(x)
  {
    assert (s + [x])[..|s|] == s;
  }

  /** The two ways of adding up a grouped result agree. */
  lemma {:induction false} TotalIsSumBy<K>(es: seq<Entry<K>>)
    ensures Total(es) == SumBy(es, EntryValue)
  {
    if es != [] {
      TotalIsSumBy(es[1..]);
      assert es == [es[0]] + es[1..];
      SumByCons(es[0], es[1..], EntryValue);
    }
  }

  /** Sums over two sequences that agree position by position are equal. */
  lemma {:induction false} SumByPointwise<A, B>(a: seq<A>, b: seq<B>, f: A -> real, g: B -> real)
    requires |a| == |b|
    requires forall i :: 0 <= i < |a| ==> f(a[i]) == g(b[i])
    ensures SumBy(a, f) == SumBy(b, g)
  {
    if a != [] {
      SumByPointwise(a[..|a| - 1], b[..|b| - 1], f, g);
    }
  }
}
