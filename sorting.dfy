/** A sort by an integer key, the shape of both JavaScript's
    `Array.prototype.sort` with a numeric comparator and Java's
    `Stream.sorted` with a comparator. Its contract is order and
    permutation only: the order among equal keys is left open. A
    descending sort is the ascending sort by the negated key. */
module Sorting {

  ghost predicate SortedBy<T>(s: seq<T>, key: T -> int) {
    forall i, j :: 0 <= i < j < |s| ==> key(s[i]) <= key(s[j])
  }

  /** Places `x` after every element whose key does not exceed its own. */
  function Insert<T>(s: seq<T>, x: T, key: T -> int): (r: seq<T>)
    requires SortedBy(s, key)
    ensures SortedBy(r, key)
    ensures multiset(r) == multiset(s) + multiset{x}
    ensures |r| == |s| + 1
    ensures r[0] == x || (s != [] && r[0] == s[0])
  {
    if s == [] then [x]
    else if key(x) < key(s[0]) then
      SortedCons(x, s, key);
      [x] + s
    else
      var rest := Insert(s[1..], x, key);
      assert s == [s[0]] + s[1..];
      SortedCons(s[0], rest, key);
      [s[0]] + rest
  }

  /** An element no greater than the head of a sorted list extends it. */
  lemma SortedCons<T>(y: T, t: seq<T>, key: T -> int)
    requires SortedBy(t, key)
    requires t != [] ==> key(y) <= key(t[0])
    ensures SortedBy([y] + t, key)
  {
    var r := [y] + t;
    forall i, j | 0 <= i < j < |r| ensures key(r[i]) <= key(r[j]) {
      if i > 0 {
        assert r[i] == t[i - 1] && r[j] == t[j - 1];
      } else {
        assert r[j] == t[j - 1];
        assert key(t[0]) <= key(t[j - 1]) || j == 1;
      }
    }
  }

  /** Insertion sort, taking the elements from left to right. */
  function SortBy<T>(s: seq<T>, key: T -> int): (r: seq<T>)
    ensures SortedBy(r, key)
    ensures multiset(r) == multiset(s)
    ensures |r| == |s|
  {
    if s == [] then []
    else
      assert s == s[..|s| - 1] + [s[|s| - 1]];
      Insert(SortBy(s[..|s| - 1], key), s[|s| - 1], key)
  }
}
