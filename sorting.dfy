/** The stable `Array.prototype.sort` used by the expense list view and the
    debt planner, for a comparator that orders by one numeric key.  Sorting
    by descending key is sorting by the negated key. */
module Sorting {

  ghost predicate SortedBy<T>(xs: seq<T>, key: T -> real) {
    forall i, j :: 0 <= i < j < |xs| ==> key(xs[i]) <= key(xs[j])
  }

  /** Puts `x` in front of the first element whose key is not smaller, so
      that `x` stays ahead of the equal keys that followed it. */
  function Insert<T>(x: T, xs: seq<T>, key: T -> real): (r: seq<T>)
    requires SortedBy(xs, key)
    ensures |r| == |xs| + 1
    ensures forall k :: 0 <= k < |r| ==> r[k] == x || r[k] in xs
    ensures SortedBy(r, key)
    ensures multiset(r) == multiset(xs) + multiset{x}
  {
    if |xs| == 0 then [x]
    else if key(x) <= key(xs[0]) then
      assert forall k :: 0 <= k < |xs| ==> key(x) <= key(xs[k]) by {
        assert forall k :: 0 < k < |xs| ==> key(xs[0]) <= key(xs[k]);
      }
      ConsSorted(x, xs, key);
      [x] + xs
    else
      var tail := xs[1..];
      assert SortedBy(tail, key);
      var rest := Insert(x, tail, key);
      assert xs == [xs[0]] + tail;
      forall k | 0 <= k < |rest| ensures key(xs[0]) <= key(rest[k]) {
        if rest[k] != x {
          var j :| 0 <= j < |tail| && tail[j] == rest[k];
          assert tail[j] == xs[j + 1];
        }
      }
      ConsSorted(xs[0], rest, key);
      [xs[0]] + rest
  }

  /** A head no larger than any element of a sorted tail keeps it sorted. */
  lemma ConsSorted<T>(h: T, xs: seq<T>, key: T -> real)
    requires SortedBy(xs, key)
    requires forall k :: 0 <= k < |xs| ==> key(h) <= key(xs[k])
    ensures SortedBy([h] + xs, key)
  {
    var r := [h] + xs;
    forall i, j | 0 <= i < j < |r| ensures key(r[i]) <= key(r[j]) {
      assert r[j] == xs[j - 1];
      if i > 0 {
        assert r[i] == xs[i - 1];
      }
    }
  }

  function SortBy<T>(xs: seq<T>, key: T -> real): (r: seq<T>)
    ensures SortedBy(r, key)
    ensures multiset(r) == multiset(xs)
    ensures |r| == |xs|
  {
    if |xs| == 0 then []
    else
      assert xs == [xs[0]] + xs[1..];
      Insert(xs[0], SortBy(xs[1..], key), key)
  }

  /** A list already in order comes back unchanged (the sort is stable). */
  lemma {:induction false} SortBySorted<T>(xs: seq<T>, key: T -> real)
    requires SortedBy(xs, key)
    ensures SortBy(xs, key) == xs
  {
    if |xs| > 0 {
      assert SortedBy(xs[1..], key);
      SortBySorted(xs[1..], key);
      assert xs == [xs[0]] + xs[1..];
    }
  }
}
