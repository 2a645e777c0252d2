/** Cursor paging over an ordered key space: "the first `size` keys above the cursor, ascending". */
module Paging {
  import opened Documents

  ghost predicate StrictTotalOrder<K(!new)>(less: (K, K) -> bool) {
    && (forall a :: !less(a, a))
    && (forall a, b :: a != b ==> less(a, b) || less(b, a))
    && (forall a, b, c :: less(a, b) && less(b, c) ==> less(a, c))
  }

  /** The keys a query with this cursor can still see. */
  function Above<K>(keys: set<K>, after: Option<K>, less: (K, K) -> bool): set<K> {
    set k | k in keys && (after.None? || less(after.value, k))
  }

  ghost predicate Ascending<K>(page: seq<K>, less: (K, K) -> bool) {
    forall i, j :: 0 <= i < j < |page| ==> less(page[i], page[j])
  }

  ghost function Elements<K>(page: seq<K>): set<K> {
    set k | k in page
  }

  /** `page` holds, in ascending order, the smallest keys above the cursor, and all of them if they fit. */
  ghost predicate IsPage<K(!new)>(page: seq<K>, keys: set<K>, after: Option<K>, size: nat, less: (K, K) -> bool) {
    && Ascending(page, less)
    && Elements(page) <= Above(keys, after, less)
    && |page| <= size
    && (|page| < size ==> Elements(page) == Above(keys, after, less))
    && (forall p, k :: p in page && k in Above(keys, after, less) && k !in page ==> less(p, k))
  }

  method Smallest<K(==, !new)>(keys: set<K>, less: (K, K) -> bool) returns (m: K)
    requires StrictTotalOrder(less) && keys != {}
    ensures m in keys && forall k :: k in keys && k != m ==> less(m, k)
  {
    m :| m in keys;
    var rest := keys - {m};
    while rest != {}
      invariant m in keys && rest <= keys - {m}
      invariant forall k :: k in keys && k != m && k !in rest ==> less(m, k)
    {
      var k :| k in rest;
      rest := rest - {k};
      if less(k, m) {
        m := k;
      }
    }
  }

  /** The server side of a paged query. */
  method FetchPage<K(==, !new)>(keys: set<K>, after: Option<K>, size: nat, less: (K, K) -> bool) returns (page: seq<K>)
    requires StrictTotalOrder(less)
    ensures IsPage(page, keys, after, size, less)
  {
    var rest := Above(keys, after, less);
    page := [];
    while |page| < size && rest != {}
      invariant |page| <= size && Ascending(page, less)
      invariant Elements(page) + rest == Above(keys, after, less) && Elements(page) !! rest
      invariant forall p, k :: p in page && k in rest ==> less(p, k)
    {
      var m := Smallest(rest, less);
      assert Elements(page + [m]) == Elements(page) + {m};
      page := page + [m];
      rest := rest - {m};
    }
  }

  /** Moving the cursor to the last key of a page removes exactly that page from view. */
  lemma PageAdvances<K(!new)>(page: seq<K>, keys: set<K>, after: Option<K>, size: nat, less: (K, K) -> bool)
    requires StrictTotalOrder(less) && IsPage(page, keys, after, size, less) && page != []
    ensures Above(keys, Some(page[|page| - 1]), less) == Above(keys, after, less) - Elements(page)
    ensures Above(keys, Some(page[|page| - 1]), less) < Above(keys, after, less)
  {
    var last := page[|page| - 1];
    forall k | k in Above(keys, Some(last), less) ensures k in Above(keys, after, less) - Elements(page) {
      assert last in Elements(page) && last in Above(keys, after, less);
      assert !less(last, last) && less(last, k);
      forall i | 0 <= i < |page| ensures page[i] != k {
        assert i < |page| - 1 ==> less(page[i], last);
      }
      assert after.Some? ==> less(after.value, last) && less(after.value, k);
      assert k in Above(keys, after, less);
      assert k !in Elements(page);
    }
    assert last in Elements(page);
    forall k | k in Above(keys, after, less) - Elements(page) ensures less(last, k) {
      assert last in page && k !in page;
    }
  }

  /** With a positive page size an empty page means that nothing is left. */
  lemma EmptyPageIsEnd<K(!new)>(page: seq<K>, keys: set<K>, after: Option<K>, size: nat, less: (K, K) -> bool)
    requires IsPage(page, keys, after, size, less) && size > 0 && page == []
    ensures Above(keys, after, less) == {}
  {
    assert Elements(page) == {};
  }

  /** Pages read one after the other stay in order, so no key is visited twice. */
  lemma VisitedGrows<K(!new)>(visited: seq<K>, page: seq<K>, keys: set<K>, after: Option<K>, size: nat,
                       less: (K, K) -> bool)
    requires StrictTotalOrder(less) && IsPage(page, keys, after, size, less) && page != [] && Ascending(visited, less)
    requires forall p, k :: p in visited && k in Above(keys, after, less) ==> less(p, k)
    requires Elements(visited) + Above(keys, after, less) == keys
    ensures Ascending(visited + page, less) && Elements(visited + page) == Elements(visited) + Elements(page) <= keys
    ensures forall p, k :: p in visited + page && k in Above(keys, after, less) - Elements(page) ==> less(p, k)
  {
    assert forall k <- page :: k in Elements(page) && k in Above(keys, after, less);
    forall i, j | 0 <= i < j < |visited + page| ensures less((visited + page)[i], (visited + page)[j]) {
      assert i < |visited| <= j ==> visited[i] in visited && page[j - |visited|] in page;
    }
  }
}
