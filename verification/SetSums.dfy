/** Sums of integers over finite sets, and the regrouping laws that counter roll-ups rest on. */
module SetSums {

  ghost function Pick<T(!new)>(s: set<T>): (x: T)
    requires s != {}
    ensures x in s
  {
    var x :| x in s; x
  }

  /** Some element of a set, for loops whose order does not matter. */
  method AnyOf<T(==)>(s: set<T>) returns (x: T)
    requires s != {}
    ensures x in s
  {
    x :| x in s;
  }

  ghost function Sum<T(!new)>(s: set<T>, f: T -> int): int
  {
    if s == {} then 0 else var x := Pick(s); f(x) + Sum(s - {x}, f)
  }

  /** The elements of `s` that `g` sends to `k`. */
  ghost function Fibre<T(!new), K(!new)>(s: set<T>, g: T -> K, k: K): set<T>
  {
    set x | x in s && g(x) == k
  }

  ghost function FibreSums<T(!new), K(!new)>(s: set<T>, f: T -> int, g: T -> K): K -> int
  {
    k => Sum(Fibre(s, g, k), f)
  }

  /** The choice made inside Sum does not matter: any element can be split off. */
  lemma {:induction false} SumRemove<T(!new)>(s: set<T>, f: T -> int, x: T)
    requires x in s
    ensures Sum(s, f) == f(x) + Sum(s - {x}, f)
    decreases s
  {
    var y := Pick(s);
    if y != x {
      SumRemove(s - {y}, f, x);
      SumRemove(s - {x}, f, y);
      assert s - {y} - {x} == s - {x} - {y};
    }
  }

  lemma {:induction false} SumCongruent<T(!new)>(s: set<T>, f: T -> int, g: T -> int)
    requires forall x <- s :: f(x) == g(x)
    ensures Sum(s, f) == Sum(s, g)
    decreases s
  {
    if s != {} {
      SumCongruent(s - {Pick(s)}, f, g);
    }
  }

  /** Elements outside `sub` weigh nothing, so only `sub` matters. */
  lemma {:induction false} SumSupport<T(!new)>(s: set<T>, sub: set<T>, f: T -> int, g: T -> int)
    requires sub <= s
    requires forall x <- sub :: f(x) == g(x)
    requires forall x <- s - sub :: f(x) == 0
    ensures Sum(s, f) == Sum(sub, g)
    decreases s
  {
    if s != {} {
      var x := Pick(s);
      if x in sub {
        SumRemove(sub, g, x);
      } else {
        assert sub - {x} == sub;
      }
      SumSupport(s - {x}, sub - {x}, f, g);
    }
  }

  lemma {:induction false} SumAdd<T(!new)>(s: set<T>, f: T -> int, g: T -> int, h: T -> int)
    requires forall x <- s :: h(x) == f(x) + g(x)
    ensures Sum(s, h) == Sum(s, f) + Sum(s, g)
    decreases s
  {
    if s != {} {
      SumAdd(s - {Pick(s)}, f, g, h);
    }
  }

  /** Double counting: summing by group and then over the groups is summing once. */
  lemma {:induction false} SumByFibre<T(!new), K(!new)>(s: set<T>, f: T -> int, g: T -> K, keys: set<K>)
    requires forall x <- s :: g(x) in keys
    ensures Sum(s, f) == Sum(keys, FibreSums(s, f, g))
    decreases s
  {
    if s == {} {
      forall k ensures FibreSums(s, f, g)(k) == 0 { assert Fibre(s, g, k) == {}; }
      SumSupport(keys, {}, FibreSums(s, f, g), FibreSums(s, f, g));
    } else {
      var x := Pick(s);
      var rest := s - {x};
      SumByFibre(rest, f, g, keys);
      assert Fibre(s, g, g(x)) - {x} == Fibre(rest, g, g(x));
      SumRemove(Fibre(s, g, g(x)), f, x);
      forall k | k != g(x) ensures FibreSums(s, f, g)(k) == FibreSums(rest, f, g)(k) {
        assert Fibre(s, g, k) == Fibre(rest, g, k);
      }
      SumRemove(keys, FibreSums(s, f, g), g(x));
      SumRemove(keys, FibreSums(rest, f, g), g(x));
      SumCongruent(keys - {g(x)}, FibreSums(s, f, g), FibreSums(rest, f, g));
    }
  }

  /** Renaming the elements injectively keeps the sum. */
  lemma {:induction false} SumReindex<T(!new), U(!new)>(s: set<T>, f: T -> int, h: T -> U, image: set<U>, g: U -> int)
    requires forall x <- s :: h(x) in image && g(h(x)) == f(x)
    requires forall u <- image :: exists x :: x in s && h(x) == u
    requires forall x, y :: x in s && y in s && h(x) == h(y) ==> x == y
    ensures Sum(s, f) == Sum(image, g)
    decreases s
  {
    if s == {} {
      assert image == {};
    } else {
      var x := Pick(s);
      SumRemove(image, g, h(x));
      SumReindex(s - {x}, f, h, image - {h(x)}, g);
    }
  }

  /** Groups of `s` renamed to `image`, each weighing what its group sums to. */
  lemma SumGrouped<T(!new), K(!new), U(!new)>(s: set<T>, f: T -> int, g: T -> K, keys: set<K>, h: K -> U, image: set<U>,
                     e: U -> int)
    requires forall x <- s :: g(x) in keys
    requires forall k <- keys :: h(k) in image && e(h(k)) == Sum(Fibre(s, g, k), f)
    requires forall u <- image :: exists k :: k in keys && h(k) == u
    requires forall k, l :: k in keys && l in keys && h(k) == h(l) ==> k == l
    ensures Sum(s, f) == Sum(image, e)
  {
    SumByFibre(s, f, g, keys);
    SumReindex(keys, FibreSums(s, f, g), h, image, e);
  }
}
