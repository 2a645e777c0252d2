/** Sorting a sequence by a number that each element has. */
module Sorting {

  ghost predicate Sorted<T>(s: seq<T>, key: T -> int) {
    forall i, j :: 0 <= i < j < |s| ==> key(s[i]) <= key(s[j])
  }

  method Insert<T(==)>(sorted: seq<T>, x: T, key: T -> int) returns (more: seq<T>)
    requires Sorted(sorted, key)
    ensures Sorted(more, key) && multiset(more) == multiset(sorted) + multiset{x}
  {
    var k := |sorted|;
    while k > 0 && key(sorted[k - 1]) > key(x)
      invariant 0 <= k <= |sorted| && forall i :: k <= i < |sorted| ==> key(sorted[i]) > key(x)
    {
      k := k - 1;
    }
    more := sorted[..k] + [x] + sorted[k..];
    InsertedInPlace(sorted, x, k, key);
  }

  lemma InsertedInPlace<T>(sorted: seq<T>, x: T, k: nat, key: T -> int)
    requires Sorted(sorted, key) && k <= |sorted| && (k > 0 ==> key(sorted[k - 1]) <= key(x))
    requires forall i :: k <= i < |sorted| ==> key(sorted[i]) > key(x)
    ensures var more := sorted[..k] + [x] + sorted[k..];
            Sorted(more, key) && multiset(more) == multiset(sorted) + multiset{x}
  {
    hide Sorted;
    assert sorted == sorted[..k] + sorted[k..];
    HalvesSorted(sorted, x, k, key);
    JoinSorted(sorted[..k] + [x], sorted[k..], key);
  }

  lemma HalvesSorted<T>(sorted: seq<T>, x: T, k: nat, key: T -> int)
    requires Sorted(sorted, key) && k <= |sorted| && (k > 0 ==> key(sorted[k - 1]) <= key(x))
    requires forall i :: k <= i < |sorted| ==> key(sorted[i]) > key(x)
    ensures Sorted(sorted[..k] + [x], key) && Sorted(sorted[k..], key)
    ensures forall y <- sorted[..k] + [x] :: key(y) <= key(x)
    ensures forall y <- sorted[k..] :: key(x) <= key(y)
  {
    forall i | 0 <= i < k ensures key(sorted[i]) <= key(x) {
      assert i < k - 1 ==> key(sorted[i]) <= key(sorted[k - 1]);
    }
  }

  lemma JoinSorted<T>(a: seq<T>, b: seq<T>, key: T -> int)
    requires Sorted(a, key) && Sorted(b, key) && a != [] && forall x <- a :: key(x) <= key(a[|a| - 1])
    requires forall x <- b :: key(a[|a| - 1]) <= key(x)
    ensures Sorted(a + b, key)
  {
    var s := a + b;
    forall i, j | 0 <= i < j < |s| ensures key(s[i]) <= key(s[j]) {
      if i < |a| <= j {
        assert s[i] in a && s[j] in b;
      }
    }
  }

  method SortBy<T(==)>(xs: seq<T>, key: T -> int) returns (sorted: seq<T>)
    ensures Sorted(sorted, key) && multiset(sorted) == multiset(xs)
  {
    sorted := [];
    for i := 0 to |xs|
      invariant Sorted(sorted, key) && multiset(sorted) == multiset(xs[..i])
    {
      assert xs[..i + 1] == xs[..i] + [xs[i]];
      sorted := Insert(sorted, xs[i], key);
    }
    assert xs[..|xs|] == xs;
  }

  // ----- elements listed more than once

  lemma {:induction false} FoundTwice<T>(xs: seq<T>, x: T) returns (i: int, j: int)
    requires multiset(xs)[x] >= 2
    ensures 0 <= i < j < |xs| && xs[i] == x && xs[j] == x
  {
    var k := |xs| - 1;
    assert xs == xs[..k] + [xs[k]];
    if multiset(xs[..k])[x] >= 2 {
      i, j := FoundTwice(xs[..k], x);
    } else {
      assert xs[k] == x && x in multiset(xs[..k]);
      i :| 0 <= i < k && xs[i] == x;
      j := k;
    }
  }

  lemma CountedTwice<T>(xs: seq<T>, a: int, b: int)
    requires 0 <= a < b < |xs| && xs[a] == xs[b]
    ensures multiset(xs)[xs[a]] >= 2
  {
    assert xs == xs[..b] + xs[b..];
    assert xs[a] in xs[..b] && xs[b] in xs[b..];
  }
}
