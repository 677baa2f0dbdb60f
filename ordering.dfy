/** Python's `list.sort(key=..., reverse=True)` as a stable insertion sort,
    parameterised by the "key at least as large" relation `geq`. */
module Ordering {

  /** `geq` relates every pair one way or the other. */
  ghost predicate Total<T(!new)>(geq: (T, T) -> bool) {
    forall a, b :: geq(a, b) || geq(b, a)
  }

  ghost predicate Transitive<T(!new)>(geq: (T, T) -> bool) {
    forall a, b, c :: geq(a, b) && geq(b, c) ==> geq(a, c)
  }

  /** Each element's key is at least its successor's. */
  ghost predicate NonIncreasing<T>(s: seq<T>, geq: (T, T) -> bool) {
    forall i :: 0 < i < |s| ==> geq(s[i - 1], s[i])
  }

  /** Every earlier element's key is at least every later one's. */
  ghost predicate SortedDesc<T>(s: seq<T>, geq: (T, T) -> bool) {
    forall i, j :: 0 <= i < j < |s| ==> geq(s[i], s[j])
  }

  /** Puts `x` in front of the first element whose key is not larger than its
      own, so `x` precedes every later element with an equal key. */
  function Insert<T(!new)>(x: T, s: seq<T>, geq: (T, T) -> bool): (r: seq<T>)
    requires Total(geq)
    requires NonIncreasing(s, geq)
    ensures multiset(r) == multiset(s) + multiset{x}
    ensures NonIncreasing(r, geq)
    ensures r[0] == x || (|s| > 0 && r[0] == s[0])
  {
    if s == [] then [x]
    else if geq(x, s[0]) then [x] + s
    else
      assert s == [s[0]] + s[1..];
      [s[0]] + Insert(x, s[1..], geq)
  }

  /** The stable descending sort: the result is ordered by `geq` and holds the
      same elements as `s`. */
  function SortDesc<T(!new)>(s: seq<T>, geq: (T, T) -> bool): (r: seq<T>)
    requires Total(geq)
    ensures multiset(r) == multiset(s)
    ensures |r| == |s|
    ensures NonIncreasing(r, geq)
  {
    if s == [] then []
    else
      assert s == [s[0]] + s[1..];
      Insert(s[0], SortDesc(s[1..], geq), geq)
  }

  /** For a transitive `geq`, neighbour order gives the order of every pair. */
  lemma {:induction false} NonIncreasingIsSorted<T(!new)>(s: seq<T>, geq: (T, T) -> bool)
    requires Transitive(geq)
    requires NonIncreasing(s, geq)
    ensures SortedDesc(s, geq)
  {
    forall i, j | 0 <= i < j < |s|
      ensures geq(s[i], s[j])
    {
      var k := i + 1;
      while k < j
        invariant i < k <= j
        invariant geq(s[i], s[k])
      {
        k := k + 1;
      }
    }
  }
}
