/** Python's `sorted(xs, key=…)` as a function: ascending by key, equal keys in their old order.
    `reverse=True` keeps that order too, so it is sorting by the negated key. */
module StableSort {

  /** A sort key; `Infinite` stands for `float("inf")`. */
  datatype Key = Finite(value: real) | Infinite

  predicate AtMost(a: Key, b: Key) {
    b.Infinite? || (a.Finite? && a.value <= b.value)
  }

  /** Puts `x` behind everything with a key up to its own. */
  function Insert<T>(xs: seq<T>, x: T, key: T -> Key): seq<T> {
    if xs == [] then [x]
    else if AtMost(key(xs[|xs| - 1]), key(x)) then xs + [x]
    else Insert(xs[..|xs| - 1], x, key) + [xs[|xs| - 1]]
  }

  function Sort<T>(xs: seq<T>, key: T -> Key): seq<T> {
    if xs == [] then [] else Insert(Sort(xs[..|xs| - 1], key), xs[|xs| - 1], key)
  }

  ghost predicate Ascending<T>(xs: seq<T>, key: T -> Key) {
    forall i, j :: 0 <= i < j < |xs| ==> AtMost(key(xs[i]), key(xs[j]))
  }

  /** The elements with key `k`, in order. */
  function WithKey<T>(xs: seq<T>, key: T -> Key, k: Key): seq<T> {
    if xs == [] then [] else
      WithKey(xs[..|xs| - 1], key, k) + if key(xs[|xs| - 1]) == k then [xs[|xs| - 1]] else []
  }

  lemma WithKeyOfAppended<T>(xs: seq<T>, x: T, key: T -> Key, k: Key)
    ensures WithKey(xs + [x], key, k) == WithKey(xs, key, k) + if key(x) == k then [x] else []
  {
    assert (xs + [x])[..|xs|] == xs;
  }

  lemma {:induction false} InsertContents<T>(xs: seq<T>, x: T, key: T -> Key)
    ensures multiset(Insert(xs, x, key)) == multiset(xs) + multiset{x}
    ensures |Insert(xs, x, key)| == |xs| + 1
  {
    if xs != [] && !AtMost(key(xs[|xs| - 1]), key(x)) {
      InsertContents(xs[..|xs| - 1], x, key);
      assert xs == xs[..|xs| - 1] + [xs[|xs| - 1]];
    }
  }

  lemma {:induction false} InsertAscends<T>(xs: seq<T>, x: T, key: T -> Key)
    requires Ascending(xs, key)
    ensures Ascending(Insert(xs, x, key), key)
  {
    if xs != [] && !AtMost(key(xs[|xs| - 1]), key(x)) {
      var init, last := xs[..|xs| - 1], xs[|xs| - 1];
      InsertAscends(init, x, key);
      InsertContents(init, x, key);
      var inner := Insert(init, x, key);
      forall i | 0 <= i < |inner| ensures AtMost(key(inner[i]), key(last)) {
        assert inner[i] in multiset(inner);
        assert inner[i] in init || inner[i] == x;
      }
    }
  }

  lemma {:induction false} InsertIsStable<T>(xs: seq<T>, x: T, key: T -> Key, k: Key)
    requires Ascending(xs, key)
    ensures WithKey(Insert(xs, x, key), key, k) == WithKey(xs, key, k) + if key(x) == k then [x] else []
  {
    if xs == [] {
      WithKeyOfAppended(xs, x, key, k);
    } else if AtMost(key(xs[|xs| - 1]), key(x)) {
      WithKeyOfAppended(xs, x, key, k);
    } else {
      var init, last := xs[..|xs| - 1], xs[|xs| - 1];
      InsertIsStable(init, x, key, k);
      WithKeyOfAppended(Insert(init, x, key), last, key, k);
    }
  }

  lemma {:induction false} SortIsPermutation<T>(xs: seq<T>, key: T -> Key)
    ensures multiset(Sort(xs, key)) == multiset(xs) && |Sort(xs, key)| == |xs|
  {
    if xs != [] {
      SortIsPermutation(xs[..|xs| - 1], key);
      InsertContents(Sort(xs[..|xs| - 1], key), xs[|xs| - 1], key);
      assert xs == xs[..|xs| - 1] + [xs[|xs| - 1]];
    }
  }

  lemma {:induction false} SortAscends<T>(xs: seq<T>, key: T -> Key)
    ensures Ascending(Sort(xs, key), key)
  {
    if xs != [] {
      SortAscends(xs[..|xs| - 1], key);
      InsertAscends(Sort(xs[..|xs| - 1], key), xs[|xs| - 1], key);
    }
  }

  lemma {:induction false} SortIsStable<T>(xs: seq<T>, key: T -> Key, k: Key)
    ensures WithKey(Sort(xs, key), key, k) == WithKey(xs, key, k)
  {
    if xs != [] {
      var init := xs[..|xs| - 1];
      SortIsStable(init, key, k);
      SortAscends(init, key);
      InsertIsStable(Sort(init, key), xs[|xs| - 1], key, k);
    }
  }

  lemma SortHasSameMembers<T>(xs: seq<T>, key: T -> Key, x: T)
    ensures x in Sort(xs, key) <==> x in xs
  {
    SortIsPermutation(xs, key);
    assert x in Sort(xs, key) <==> x in multiset(Sort(xs, key));
    assert x in xs <==> x in multiset(xs);
  }

  predicate Distinct<T(==)>(xs: seq<T>) {
    forall i, j :: 0 <= i < j < |xs| ==> xs[i] != xs[j]
  }

  lemma DistinctByCount<T>(xs: seq<T>)
    ensures Distinct(xs) <==> forall x :: x in xs ==> multiset(xs)[x] == 1
  {
    if Distinct(xs) {
      forall x | x in xs ensures multiset(xs)[x] == 1 { OnceIfDistinct(xs, x); }
    }
    if !Distinct(xs) {
      var i, j :| 0 <= i < j < |xs| && xs[i] == xs[j];
      assert xs == xs[..j] + [xs[j]] + xs[j + 1..];
      assert xs[i] == xs[..j][i];
      assert xs[i] in multiset(xs[..j]);
      assert multiset(xs)[xs[i]] >= 2;
    }
  }

  lemma {:induction false} OnceIfDistinct<T>(xs: seq<T>, x: T)
    requires Distinct(xs)
    ensures multiset(xs)[x] == if x in xs then 1 else 0
  {
    if xs != [] {
      var init, last := xs[..|xs| - 1], xs[|xs| - 1];
      assert xs == init + [last];
      assert forall i :: 0 <= i < |init| ==> init[i] == xs[i];
      OnceIfDistinct(init, x);
    }
  }

  lemma SortKeepsDistinct<T>(xs: seq<T>, key: T -> Key)
    ensures Distinct(Sort(xs, key)) <==> Distinct(xs)
  {
    SortIsPermutation(xs, key);
    DistinctByCount(xs);
    DistinctByCount(Sort(xs, key));
    forall x ensures x in Sort(xs, key) <==> x in xs { SortHasSameMembers(xs, key, x); }
  }

  /** Position of `x`; the length if it is not there. */
  function IndexOf<T(==)>(xs: seq<T>, x: T): (i: nat)
    ensures i <= |xs| && (i < |xs| <==> x in xs) && (i < |xs| ==> xs[i] == x)
    ensures forall k :: 0 <= k < i ==> xs[k] != x
  {
    if xs == [] then 0 else if xs[0] == x then 0 else 1 + IndexOf(xs[1..], x)
  }
}
