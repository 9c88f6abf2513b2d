/** Distinct values and sorted keys: what `drop_duplicates` keeps and the key
    order of a pandas `groupby`. */
module Order {

  ghost predicate IsStrictTotalOrder<K(!new)>(less: (K, K) -> bool) {
    && (forall a :: !less(a, a))
    && (forall a, b, c :: less(a, b) && less(b, c) ==> less(a, c))
    && (forall a, b :: a != b ==> less(a, b) || less(b, a))
  }

  predicate NoDup<K(==)>(s: seq<K>) {
    forall i, j :: 0 <= i < j < |s| ==> s[i] != s[j]
  }

  predicate StrictlySorted<K>(s: seq<K>, less: (K, K) -> bool) {
    forall i, j :: 0 <= i < j < |s| ==> less(s[i], s[j])
  }

  /** Position of the first occurrence of `x` in `s`. */
  function FirstIndex<K(==)>(s: seq<K>, x: K): (k: nat)
    requires x in s
    ensures k < |s| && s[k] == x && x !in s[..k]
  {
    if s[0] == x then 0 else 1 + FirstIndex(s[1..], x)
  }

  lemma {:induction false} FirstIndexInPrefix<K>(s: seq<K>, x: K, n: nat)
    requires n <= |s| && x in s[..n]
    ensures FirstIndex(s, x) == FirstIndex(s[..n], x)
  {
    if s[0] != x {
      assert s[1..][..n - 1] == s[..n][1..];
      FirstIndexInPrefix(s[1..], x, n - 1);
    }
  }

  /** `drop_duplicates`: each value once, in the order of its first occurrence. */
  function Distinct<K(==, !new)>(s: seq<K>): (r: seq<K>)
    ensures NoDup(r) && |r| <= |s|
    ensures forall x :: x in r <==> x in s
    ensures forall i, j :: 0 <= i < j < |r| ==> FirstIndex(s, r[i]) < FirstIndex(s, r[j])
  {
    if s == [] then []
    else
      var n := |s| - 1;
      var d := Distinct(s[..n]);
      assert forall x :: x in s <==> x in s[..n] || x == s[n] by {
        assert s == s[..n] + [s[n]];
      }
      forall x | x in s[..n] ensures FirstIndex(s, x) == FirstIndex(s[..n], x) {
        FirstIndexInPrefix(s, x, n);
      }
      if s[n] in d then d
      else
        assert FirstIndex(s, s[n]) == n;
        d + [s[n]]
  }

  function InsertKey<K(==, !new)>(x: K, s: seq<K>, less: (K, K) -> bool): (r: seq<K>)
    requires IsStrictTotalOrder(less) && StrictlySorted(s, less) && x !in s
    ensures StrictlySorted(r, less)
    ensures |r| == |s| + 1
    ensures forall y :: y in r <==> y == x || y in s
  {
    if s == [] || less(x, s[0]) then
      assert forall j :: 0 < j < |s| ==> less(s[0], s[j]);
      [x] + s
    else
      assert less(s[0], x);
      var t := InsertKey(x, s[1..], less);
      assert forall y :: y in s[1..] ==> less(s[0], y);
      [s[0]] + t
  }

  /** The keys of `s` in ascending `less` order, as `groupby` lists its groups. */
  function SortKeys<K(==, !new)>(s: seq<K>, less: (K, K) -> bool): (r: seq<K>)
    requires IsStrictTotalOrder(less) && NoDup(s)
    ensures StrictlySorted(r, less) && NoDup(r)
    ensures |r| == |s|
    ensures forall y :: y in r <==> y in s
  {
    if s == [] then []
    else
      assert s == [s[0]] + s[1..];
      InsertKey(s[0], SortKeys(s[1..], less), less)
  }

  predicate IntLess(a: int, b: int) {
    a < b
  }

  lemma IntLessIsStrictTotalOrder()
    ensures IsStrictTotalOrder(IntLess)
  {
  }
}
