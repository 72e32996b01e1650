/**
 * Python list comprehensions `[x for x in s if p(x)]` and `[x for x in s if p(x, a)]`,
 * both keeping the order of `s`.
 */
module Lists {

  function Filter<T>(s: seq<T>, p: T -> bool): (r: seq<T>)
    ensures |r| <= |s|
    ensures forall i :: 0 <= i < |r| ==> p(r[i]) && r[i] in s
    decreases |s|
  {
    if s == [] then [] else Filter(s[..|s| - 1], p) + (if p(s[|s| - 1]) then [s[|s| - 1]] else [])
  }

  lemma FilterStep<T>(s: seq<T>, p: T -> bool, i: nat)
    requires i < |s|
    ensures Filter(s[..i + 1], p) == Filter(s[..i], p) + if p(s[i]) then [s[i]] else []
  {
    assert s[..i + 1][..i] == s[..i];
  }

  /** The step of a loop that counts the elements satisfying `p`. */
  lemma FilterCountStep<T>(s: seq<T>, p: T -> bool, i: nat, n: nat)
    requires i < |s| && n == |Filter(s[..i], p)|
    ensures (if p(s[i]) then n + 1 else n) == |Filter(s[..i + 1], p)|
  {
    FilterStep(s, p, i);
  }

  /** The filter keeps exactly the elements that satisfy `p`. */
  lemma {:induction false} FilterMembers<T>(s: seq<T>, p: T -> bool, x: T)
    ensures x in Filter(s, p) <==> x in s && p(x)
    decreases |s|
  {
    if s != [] {
      var init := s[..|s| - 1];
      FilterMembers(init, p, x);
      assert s == init + [s[|s| - 1]];
    }
  }

  /** The filter starts with the first element that satisfies `p`. */
  lemma {:induction false} FilterFirst<T>(s: seq<T>, p: T -> bool, i: nat)
    requires i < |s| && p(s[i]) && forall j :: 0 <= j < i ==> !p(s[j])
    ensures Filter(s, p) != [] && Filter(s, p)[0] == s[i]
    decreases |s|
  {
    var init := s[..|s| - 1];
    if i < |s| - 1 {
      assert init[i] == s[i];
      FilterFirst(init, p, i);
    } else if Filter(init, p) != [] {
      FilterMembers(init, p, Filter(init, p)[0]);
      assert false;
    }
  }

  function FilterWith<T, A>(s: seq<T>, p: (T, A) -> bool, a: A): (r: seq<T>)
    ensures |r| <= |s|
    ensures forall i :: 0 <= i < |r| ==> p(r[i], a) && r[i] in s
    decreases |s|
  {
    if s == [] then [] else FilterWith(s[..|s| - 1], p, a) + (if p(s[|s| - 1], a) then [s[|s| - 1]] else [])
  }

  /** Filtering distributes over concatenation. */
  lemma {:induction false} FilterWithAppend<T, A>(s: seq<T>, t: seq<T>, p: (T, A) -> bool, a: A)
    ensures FilterWith(s + t, p, a) == FilterWith(s, p, a) + FilterWith(t, p, a)
    decreases |t|
  {
    if t == [] {
      assert s + t == s;
    } else {
      var init := t[..|t| - 1];
      assert (s + t)[..|s + t| - 1] == s + init;
      assert (s + t)[|s + t| - 1] == t[|t| - 1];
      FilterWithAppend(s, init, p, a);
    }
  }

  lemma {:induction false} FilterWithCons<T, A>(x: T, t: seq<T>, p: (T, A) -> bool, a: A)
    ensures FilterWith([x] + t, p, a) == (if p(x, a) then [x] else []) + FilterWith(t, p, a)
  {
    FilterWithAppend([x], t, p, a);
    var one: seq<T> := [x];
    assert one[..0] == [];
    assert FilterWith(one, p, a) == FilterWith(one[..0], p, a) + (if p(x, a) then [x] else []);
  }

  /** The filter keeps exactly the elements that satisfy `p` with `a`. */
  lemma {:induction false} FilterWithMembers<T, A>(s: seq<T>, p: (T, A) -> bool, a: A, x: T)
    ensures x in FilterWith(s, p, a) <==> x in s && p(x, a)
    decreases |s|
  {
    if s != [] {
      var init := s[..|s| - 1];
      FilterWithMembers(init, p, a, x);
      assert s == init + [s[|s| - 1]];
    }
  }

  /** The filter starts with the first element that satisfies `p` with `a`. */
  lemma {:induction false} FilterWithFirst<T, A>(s: seq<T>, p: (T, A) -> bool, a: A, i: nat)
    requires i < |s| && p(s[i], a) && forall j :: 0 <= j < i ==> !p(s[j], a)
    ensures FilterWith(s, p, a) != [] && FilterWith(s, p, a)[0] == s[i]
    decreases |s|
  {
    var init := s[..|s| - 1];
    if i < |s| - 1 {
      assert init[i] == s[i];
      FilterWithFirst(init, p, a, i);
    } else if FilterWith(init, p, a) != [] {
      FilterWithMembers(init, p, a, FilterWith(init, p, a)[0]);
      assert false;
    }
  }

  /** A slice of the middle part of a concatenation. */
  lemma SliceMiddle<T>(a: seq<T>, b: seq<T>, c: seq<T>, lo: nat, hi: nat)
    requires lo <= hi <= |b|
    ensures (a + b + c)[|a| + lo..|a| + hi] == b[lo..hi]
  {
    var s := a + b + c;
    assert s[|a|..|a| + |b|] == b;
    assert s[|a| + lo..|a| + hi] == s[|a|..|a| + |b|][lo..hi];
  }

  /** The concatenation of `f(x)` over the elements `x` of `s`, in order. */
  function FlatMap<T, U>(s: seq<T>, f: T -> seq<U>): seq<U>
    decreases |s|
  {
    if s == [] then [] else FlatMap(s[..|s| - 1], f) + f(s[|s| - 1])
  }

  lemma FlatMapStep<T, U>(s: seq<T>, f: T -> seq<U>, i: nat)
    requires i < |s|
    ensures FlatMap(s[..i + 1], f) == FlatMap(s[..i], f) + f(s[i])
  {
    assert s[..i + 1][..i] == s[..i];
  }

  lemma {:induction false} FlatMapAppend<T, U>(a: seq<T>, b: seq<T>, f: T -> seq<U>)
    ensures FlatMap(a + b, f) == FlatMap(a, f) + FlatMap(b, f)
    decreases |b|
  {
    if b == [] {
      assert a + b == a;
    } else {
      var b' := b[..|b| - 1];
      assert (a + b)[..|a + b| - 1] == a + b';
      FlatMapAppend(a, b', f);
    }
  }

  /** The part of `f(s[i])` in the concatenation lies between those of the elements before and after it. */
  lemma FlatMapSplit<T, U>(s: seq<T>, f: T -> seq<U>, i: nat)
    requires i < |s|
    ensures FlatMap(s, f) == FlatMap(s[..i], f) + f(s[i]) + FlatMap(s[i + 1..], f)
  {
    assert s == s[..i + 1] + s[i + 1..];
    FlatMapAppend(s[..i + 1], s[i + 1..], f);
    FlatMapStep(s, f, i);
  }

  lemma AppendAssoc<T>(a: seq<T>, b: seq<T>, c: seq<T>)
    ensures a + (b + c) == (a + b) + c
  {
  }
}
