/**
 * The category counters shared by the statistics and browsers of several
 * sources: a dictionary from category name to count, shown either as the
 * few largest categories or as a full listing.
 */
module Categories {
  import opened Text
  import opened Dict
  import opened Sorting
  import opened Lists

  /** `sorted(..., key=count, reverse=True)`: larger counts first, ties in insertion order. */
  predicate CountGe(a: (string, nat), b: (string, nat)) { a.1 >= b.1 }

  predicate HasCount(c: (string, nat), count: nat) { c.1 == count }

  /** The `n` categories the statistics show. */
  function TopCategories(categories: Dict<string, nat>, n: nat): seq<(string, nat)>
  {
    Take(SortBy(categories, CountGe), n)
  }

  /**
   * At most `n` categories are shown, by decreasing count, and no category
   * left out has a larger count than a shown one. Among categories with the
   * same count, the ones shown are the first of them in insertion order, in
   * that order.
   */
  lemma TopCategoriesSpec(categories: Dict<string, nat>, n: nat)
    ensures |TopCategories(categories, n)| == if |categories| < n then |categories| else n
    ensures Sorted(TopCategories(categories, n), CountGe)
    ensures forall c :: c in TopCategories(categories, n) ==> c in categories
    ensures forall c, t :: c in categories && c !in TopCategories(categories, n) && t in TopCategories(categories, n) ==> t.1 >= c.1
    ensures forall count: nat ::
      FilterWith(TopCategories(categories, n), HasCount, count) <= FilterWith(categories, HasCount, count)
  {
    assert TotalPreorder(CountGe);
    SortBySorted(categories, CountGe);
    forall c | c in TopCategories(categories, n) ensures c in categories {
      SortByElements(categories, CountGe, c);
    }
    forall c | c in categories && c !in TopCategories(categories, n)
      ensures forall t :: t in TopCategories(categories, n) ==> t.1 >= c.1
    {
      TakeSortedTop(categories, CountGe, n, c);
    }
    forall count: nat
      ensures FilterWith(TopCategories(categories, n), HasCount, count) <= FilterWith(categories, HasCount, count)
    {
      TakeSortByStable(categories, CountGe, HasCount, count, ("", count), n);
    }
  }

  /** `key=lambda x: (-x[1], x[0])`: larger counts first, then names in order. */
  predicate CountThenName(a: (string, nat), b: (string, nat))
  {
    a.1 > b.1 || (a.1 == b.1 && StrLe(a.0, b.0))
  }

  /** The order of the full category listing. */
  function ListingOrder(categories: Dict<string, nat>): seq<(string, nat)>
  {
    SortBy(categories, CountThenName)
  }

  /** The listing holds every category once, by decreasing count and then by name. */
  lemma ListingOrderSpec(categories: Dict<string, nat>)
    ensures multiset(ListingOrder(categories)) == multiset(categories)
    ensures Sorted(ListingOrder(categories), CountThenName)
  {
    StrLeOrder();
    SortBySorted(categories, CountThenName);
  }
}
