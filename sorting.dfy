/**
 * Python's `sorted(...)` and `list.sort(...)`: a stable sort. It is modelled as
 * insertion sort parameterised by `le`, where `le(a, b)` means "a may come before b"
 * (key(a) <= key(b) for an ascending sort, key(a) >= key(b) for `reverse=True`).
 * An element inserted into the sorted rest goes before the first element it is
 * `le` to, so elements with equal keys keep their input order, as in Python.
 */
module Sorting {
  import opened Text
  import opened Lists

  /** `le` is total and transitive, as every key comparison the server uses is. */
  ghost predicate TotalPreorder<T(!new)>(le: (T, T) -> bool)
  {
    && (forall a, b :: le(a, b) || le(b, a))
    && (forall a, b, c :: le(a, b) && le(b, c) ==> le(a, c))
  }

  ghost predicate Sorted<T>(s: seq<T>, le: (T, T) -> bool)
  {
    forall i, j :: 0 <= i < j < |s| ==> le(s[i], s[j])
  }

  function Insert<T>(x: T, s: seq<T>, le: (T, T) -> bool): (r: seq<T>)
    ensures |r| == |s| + 1 && multiset(r) == multiset(s) + multiset{x}
  {
    if s == [] || le(x, s[0]) then [x] + s
    else
      assert s == [s[0]] + s[1..];
      [s[0]] + Insert(x, s[1..], le)
  }

  /** The stable sort of `s` under `le`. */
  function SortBy<T>(s: seq<T>, le: (T, T) -> bool): (r: seq<T>)
    ensures |r| == |s| && multiset(r) == multiset(s)
  {
    if s == [] then []
    else
      assert s == [s[0]] + s[1..];
      Insert(s[0], SortBy(s[1..], le), le)
  }

  lemma {:induction false} InsertSorted<T(!new)>(x: T, s: seq<T>, le: (T, T) -> bool)
    requires TotalPreorder(le) && Sorted(s, le)
    ensures Sorted(Insert(x, s, le), le)
  {
    if s != [] && !le(x, s[0]) {
      assert le(s[0], x);
      InsertSorted(x, s[1..], le);
      var r := Insert(x, s[1..], le);
      forall k | 0 <= k < |r| ensures le(s[0], r[k]) {
        assert r[k] in multiset(r);
        assert r[k] == x || r[k] in multiset(s[1..]);
        if r[k] != x {
          var j :| 0 <= j < |s[1..]| && s[1..][j] == r[k];
          assert s[j + 1] == r[k];
        }
      }
    }
  }

  /** The result of `SortBy` is ordered by `le`. */
  lemma {:induction false} SortBySorted<T(!new)>(s: seq<T>, le: (T, T) -> bool)
    requires TotalPreorder(le)
    ensures Sorted(SortBy(s, le), le)
  {
    if s != [] {
      SortBySorted(s[1..], le);
      InsertSorted(s[0], SortBy(s[1..], le), le);
    }
  }

  /**
   * The first element of the sorted sequence is the first element of the input
   * that is `le` to every element: with `reverse=True` this is the first maximum.
   */
  lemma {:induction false} SortByHead<T(!new)>(s: seq<T>, le: (T, T) -> bool) returns (k: nat)
    requires TotalPreorder(le) && |s| > 0
    ensures k < |s| && SortBy(s, le)[0] == s[k]
    ensures forall j :: 0 <= j < |s| ==> le(s[k], s[j])
    ensures forall i :: 0 <= i < k ==> !le(s[i], s[k])
  {
    if |s| == 1 {
      k := 0;
    } else {
      var t := s[1..];
      var k' := SortByHead(t, le);
      var r := SortBy(t, le);
      if le(s[0], r[0]) {
        k := 0;
        forall j | 0 <= j < |s| ensures le(s[0], s[j]) {
          if j > 0 {
            assert le(t[k'], t[j - 1]);
          }
        }
      } else {
        k := k' + 1;
        assert le(r[0], s[0]);
      }
    }
  }

  /** Every element of the sorted sequence comes from the input, and conversely. */
  lemma SortByElements<T>(s: seq<T>, le: (T, T) -> bool, x: T)
    ensures x in SortBy(s, le) <==> x in s
  {
    assert x in multiset(SortBy(s, le)) <==> x in multiset(s);
  }

  /**
   * Cutting a sorted sequence to its first `n` elements keeps the least ones:
   * anything left out comes after everything kept.
   */
  lemma TakeSortedTop<T(!new)>(s: seq<T>, le: (T, T) -> bool, n: int, x: T)
    requires TotalPreorder(le) && x in s && x !in Take(SortBy(s, le), n)
    ensures forall t :: t in Take(SortBy(s, le), n) ==> le(t, x)
  {
    var sorted := SortBy(s, le);
    var taken := Take(sorted, n);
    SortBySorted(s, le);
    SortByElements(s, le, x);
    var j :| 0 <= j < |sorted| && sorted[j] == x;
    assert forall k :: 0 <= k < |taken| ==> taken[k] == sorted[k];
    forall t | t in taken ensures le(t, x) {
      var i :| 0 <= i < |taken| && taken[i] == t;
      assert sorted[i] == t;
    }
  }

  /**
   * Inserting `x` where no element before its place is equivalent to it:
   * among the elements `p` selects, `x` goes first.
   */
  lemma {:induction false} InsertFilter<T, A>(x: T, r: seq<T>, le: (T, T) -> bool, p: (T, A) -> bool, a: A)
    requires p(x, a) ==> forall z :: z in r && p(z, a) ==> le(x, z)
    ensures FilterWith(Insert(x, r, le), p, a) == (if p(x, a) then [x] else []) + FilterWith(r, p, a)
  {
    if r == [] || le(x, r[0]) {
      FilterWithCons(x, r, p, a);
    } else {
      var rest := r[1..];
      assert r == [r[0]] + rest;
      assert p(x, a) ==> !p(r[0], a);
      assert p(x, a) ==> forall z :: z in rest && p(z, a) ==> le(x, z) by {
        assert forall z :: z in rest ==> z in r;
      }
      InsertFilter(x, rest, le, p, a);
      FilterWithCons(r[0], Insert(x, rest, le), p, a);
      FilterWithCons(r[0], rest, p, a);
    }
  }

  /**
   * The sort is stable: the elements equivalent to `y` under `le` (those `p`
   * selects) keep their input order.
   */
  lemma {:induction false} SortByStable<T(!new), A>(s: seq<T>, le: (T, T) -> bool, p: (T, A) -> bool, a: A, y: T)
    requires TotalPreorder(le)
    requires forall z :: p(z, a) <==> le(z, y) && le(y, z)
    ensures FilterWith(SortBy(s, le), p, a) == FilterWith(s, p, a)
  {
    if s != [] {
      var rest := s[1..];
      assert s == [s[0]] + rest;
      SortByStable(rest, le, p, a, y);
      var sorted := SortBy(rest, le);
      if p(s[0], a) {
        forall z | z in sorted && p(z, a) ensures le(s[0], z) {
          assert le(s[0], y) && le(y, z);
        }
      }
      InsertFilter(s[0], sorted, le, p, a);
      FilterWithCons(s[0], rest, p, a);
    }
  }

  /**
   * After sorting and cutting to `n`, the elements equivalent to `y` that are
   * kept are the first of them in the input: ties at the cut are decided by
   * input order.
   */
  lemma TakeSortByStable<T(!new), A>(s: seq<T>, le: (T, T) -> bool, p: (T, A) -> bool, a: A, y: T, n: int)
    requires TotalPreorder(le)
    requires forall z :: p(z, a) <==> le(z, y) && le(y, z)
    ensures FilterWith(Take(SortBy(s, le), n), p, a) <= FilterWith(s, p, a)
  {
    var sorted := SortBy(s, le);
    var taken := Take(sorted, n);
    SortByStable(s, le, p, a, y);
    assert sorted == taken + sorted[|taken|..];
    FilterWithAppend(taken, sorted[|taken|..], p, a);
  }
}
