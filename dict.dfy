/**
 * Python's `dict`, which remembers insertion order: a sequence of key/value
 * pairs. Assigning to a key that is present replaces its value in place;
 * assigning to a new key appends it.
 */
module Dict {
  import opened Wrappers

  type Dict<K, V> = seq<(K, V)>

  function Keys<K, V>(m: Dict<K, V>): (ks: seq<K>)
    ensures |ks| == |m| && forall i :: 0 <= i < |m| ==> ks[i] == m[i].0
  {
    seq(|m|, i requires 0 <= i < |m| => m[i].0)
  }

  /** No key occurs twice. */
  ghost predicate Valid<K, V>(m: Dict<K, V>)
  {
    Distinct(Keys(m))
  }

  ghost predicate Distinct<K>(ks: seq<K>)
  {
    forall i, j :: 0 <= i < j < |ks| ==> ks[i] != ks[j]
  }

  predicate HasKey<K(==), V>(m: Dict<K, V>, k: K)
  {
    k in Keys(m)
  }

  /** Python's `m.get(k)`. */
  function Get<K(==), V>(m: Dict<K, V>, k: K): (r: Option<V>)
    ensures r.Some? <==> HasKey(m, k)
  {
    if m == [] then None
    else if m[0].0 == k then Some(m[0].1)
    else
      assert Keys(m) == [m[0].0] + Keys(m[1..]);
      Get(m[1..], k)
  }

  /** In a valid dict, `Get` finds the value stored beside the key. */
  lemma {:induction false} GetAt<K, V>(m: Dict<K, V>, i: nat)
    requires Valid(m) && i < |m|
    ensures Get(m, m[i].0) == Some(m[i].1)
  {
    if i > 0 {
      assert Keys(m)[0] != Keys(m)[i];
      assert Keys(m[1..]) == Keys(m)[1..];
      GetAt(m[1..], i - 1);
    }
  }

  /** Looking a key up in a dict extended at its end. */
  lemma {:induction false} GetAppend<K, V>(m: Dict<K, V>, x: (K, V), k: K)
    ensures Get(m + [x], k) == if HasKey(m, k) then Get(m, k) else if x.0 == k then Some(x.1) else None
  {
    if m != [] {
      assert (m + [x])[1..] == m[1..] + [x];
      assert Keys(m) == [m[0].0] + Keys(m[1..]);
      GetAppend(m[1..], x, k);
    }
  }

  /** A prefix of a valid dict is valid, and the last key is not among the earlier ones. */
  lemma ValidPrefix<K, V>(m: Dict<K, V>)
    requires Valid(m) && |m| > 0
    ensures Valid(m[..|m| - 1]) && !HasKey(m[..|m| - 1], m[|m| - 1].0)
  {
    var ks := Keys(m[..|m| - 1]);
    forall i | 0 <= i < |ks| ensures ks[i] != m[|m| - 1].0 {
      assert Keys(m)[i] != Keys(m)[|m| - 1];
    }
  }

  /** Python's `m[k] = v`. */
  function Set<K(==,!new), V>(m: Dict<K, V>, k: K, v: V): (r: Dict<K, V>)
    ensures Get(r, k) == Some(v)
  {
    if m == [] then [(k, v)]
    else if m[0].0 == k then [(k, v)] + m[1..]
    else [m[0]] + Set(m[1..], k, v)
  }

  /** Assigning to a present key keeps the key order; a new key goes last. */
  lemma {:induction false} SetKeys<K(!new), V>(m: Dict<K, V>, k: K, v: V)
    ensures Keys(Set(m, k, v)) == if HasKey(m, k) then Keys(m) else Keys(m) + [k]
    decreases |m|
  {
    if m != [] {
      assert m == [m[0]] + m[1..];
      KeysCons(m[0], m[1..]);
      if m[0].0 == k {
        KeysCons((k, v), m[1..]);
      } else {
        SetKeys(m[1..], k, v);
        KeysCons(m[0], Set(m[1..], k, v));
      }
    }
  }

  lemma KeysCons<K, V>(x: (K, V), m: Dict<K, V>)
    ensures Keys([x] + m) == [x.0] + Keys(m)
  {
  }

  /** Assigning one key leaves every other key's value alone. */
  lemma {:induction false} SetOther<K(!new), V>(m: Dict<K, V>, k: K, v: V, k': K)
    requires k' != k
    ensures Get(Set(m, k, v), k') == Get(m, k')
  {
    if m != [] && m[0].0 != k {
      SetOther(m[1..], k, v, k');
    }
  }

  /** After an assignment the keys are the old ones and the assigned one. */
  lemma SetHasKey<K(!new), V>(m: Dict<K, V>, k: K, v: V, k': K)
    ensures HasKey(Set(m, k, v), k') <==> HasKey(m, k') || k' == k
  {
    SetKeys(m, k, v);
  }

  /** Assigning keeps keys distinct. */
  lemma SetValid<K(!new), V>(m: Dict<K, V>, k: K, v: V)
    ensures Valid(m) ==> Valid(Set(m, k, v))
  {
    SetKeys(m, k, v);
  }

  /** Python's `m.update(n)`: assigns the pairs of `n` in order. */
  function Update<K(==,!new), V>(m: Dict<K, V>, n: Dict<K, V>): Dict<K, V>
    decreases |n|
  {
    if n == [] then m else Update(Set(m, n[0].0, n[0].1), n[1..])
  }

  /** Updating keeps keys distinct. */
  lemma {:induction false} UpdateValid<K(!new), V>(m: Dict<K, V>, n: Dict<K, V>)
    requires Valid(m)
    ensures Valid(Update(m, n))
    decreases |n|
  {
    if n != [] {
      SetValid(m, n[0].0, n[0].1);
      UpdateValid(Set(m, n[0].0, n[0].1), n[1..]);
    }
  }

  /** After `m.update(n)` the keys are those of `m` and those of `n`. */
  lemma {:induction false} UpdateHasKey<K(!new), V>(m: Dict<K, V>, n: Dict<K, V>, k: K)
    ensures HasKey(Update(m, n), k) <==> HasKey(m, k) || HasKey(n, k)
    decreases |n|
  {
    if n != [] {
      UpdateHasKey(Set(m, n[0].0, n[0].1), n[1..], k);
      SetHasKey(m, n[0].0, n[0].1, k);
      assert n == [n[0]] + n[1..];
      KeysCons(n[0], n[1..]);
    }
  }

  /** After `m.update(n)` a key of `n` holds its value in `n`; any other key keeps its value. */
  lemma {:induction false} UpdateGet<K(!new), V>(m: Dict<K, V>, n: Dict<K, V>, k: K)
    requires Valid(n)
    ensures Get(Update(m, n), k) == if HasKey(n, k) then Get(n, k) else Get(m, k)
    decreases |n|
  {
    if n != [] {
      var rest := n[1..];
      assert n == [n[0]] + rest;
      KeysCons(n[0], rest);
      assert Valid(rest) by {
        assert Keys(rest) == Keys(n)[1..];
      }
      UpdateGet(Set(m, n[0].0, n[0].1), rest, k);
      if k == n[0].0 {
        assert !HasKey(rest, k) by {
          forall i | 0 <= i < |rest| ensures Keys(rest)[i] != k {
            assert Keys(n)[0] != Keys(n)[i + 1];
          }
        }
      } else {
        SetOther(m, n[0].0, n[0].1, k);
      }
    }
  }

  /** `m[k] = m.get(k, 0) + w`. */
  function Add<K(==,!new)>(m: Dict<K, nat>, k: K, w: nat): Dict<K, nat>
  {
    Set<K, nat>(m, k, Get<K, nat>(m, k).GetOr(0) + w)
  }

  lemma AddValid<K(!new)>(m: Dict<K, nat>, k: K, w: nat)
    ensures Valid(m) ==> Valid(Add(m, k, w))
  {
    SetValid<K, nat>(m, k, Get<K, nat>(m, k).GetOr(0) + w);
  }

  /** `counts[k] = counts.get(k, 0) + 1` for each key in turn. */
  function Tally<K(==,!new)>(keys: seq<K>): Dict<K, nat>
    decreases |keys|
  {
    if keys == [] then [] else Add(Tally(keys[..|keys| - 1]), keys[|keys| - 1], 1)
  }

  /** Counting one more key: the step of the loops that fill a counter dictionary. */
  lemma TallyStep<K(!new)>(counts: Dict<K, nat>, keys: seq<K>, k: K)
    requires counts == Tally(keys)
    ensures Add(counts, k, 1) == Tally(keys + [k])
  {
    assert (keys + [k])[..|keys|] == keys;
  }

  /** Each key is counted once per occurrence, and only keys that occur appear. */
  lemma {:induction false} TallyCounts<K(!new)>(keys: seq<K>, k: K)
    ensures var n := multiset(keys)[k]; Get<K, nat>(Tally(keys), k) == if n > 0 then Some(n) else None
    decreases |keys|
  {
    if keys != [] {
      var init, last := keys[..|keys| - 1], keys[|keys| - 1];
      TallyCounts(init, k);
      assert keys == init + [last];
      assert multiset(keys)[k] == multiset(init)[k] + if last == k then 1 else 0;
      assert Tally(keys) == Add(Tally(init), last, 1);
      if last == k {
        AddSame(Tally(init), k, 1);
      } else {
        AddOther(Tally(init), last, 1, k);
      }
    }
  }

  lemma {:induction false} TallyValid<K(!new)>(keys: seq<K>)
    ensures Valid(Tally(keys))
    decreases |keys|
  {
    if keys != [] {
      TallyValid(keys[..|keys| - 1]);
      AddValid(Tally(keys[..|keys| - 1]), keys[|keys| - 1], 1);
    }
  }

  /** `Add` for each pair `(k, w)` in turn, starting from `m`. */
  function Accumulate<K(==,!new)>(m: Dict<K, nat>, events: seq<(K, nat)>): Dict<K, nat>
    decreases |events|
  {
    if events == [] then m
    else
      var e := events[|events| - 1];
      Add(Accumulate(m, events[..|events| - 1]), e.0, e.1)
  }

  /** Adding one more weight: the step of the loops that fill a score dictionary. */
  lemma AccumulateStep<K(!new)>(acc: Dict<K, nat>, m: Dict<K, nat>, events: seq<(K, nat)>, e: (K, nat))
    requires acc == Accumulate(m, events)
    ensures Add(acc, e.0, e.1) == Accumulate(m, events + [e])
  {
    assert (events + [e])[..|events|] == events;
  }

  /** Accumulating two runs of events one after the other. */
  lemma {:induction false} AccumulateAppend<K(!new)>(m: Dict<K, nat>, a: seq<(K, nat)>, b: seq<(K, nat)>)
    ensures Accumulate(m, a + b) == Accumulate(Accumulate(m, a), b)
    decreases |b|
  {
    if b == [] {
      assert a + b == a;
    } else {
      var init := b[..|b| - 1];
      assert (a + b)[..|a + b| - 1] == a + init;
      assert (a + b)[|a + b| - 1] == b[|b| - 1];
      AccumulateAppend(m, a, init);
    }
  }

  /** The total weight the events give to `k`. */
  function Weight<K(==)>(events: seq<(K, nat)>, k: K): nat
    decreases |events|
  {
    if events == [] then 0
    else Weight(events[..|events| - 1], k) + if events[|events| - 1].0 == k then events[|events| - 1].1 else 0
  }

  lemma {:induction false} WeightAppend<K>(a: seq<(K, nat)>, b: seq<(K, nat)>, k: K)
    ensures Weight(a + b, k) == Weight(a, k) + Weight(b, k)
    decreases |b|
  {
    if b == [] {
      assert a + b == a;
    } else {
      var init := b[..|b| - 1];
      assert (a + b)[..|a + b| - 1] == a + init;
      assert (a + b)[|a + b| - 1] == b[|b| - 1];
      WeightAppend(a, init, k);
    }
  }

  /** Every weight is positive. */
  ghost predicate Positive<K>(events: seq<(K, nat)>)
  {
    forall i :: 0 <= i < |events| ==> events[i].1 > 0
  }

  lemma PositiveAppend<K>(a: seq<(K, nat)>, b: seq<(K, nat)>)
    requires Positive(a) && Positive(b)
    ensures Positive(a + b)
  {
    forall i | 0 <= i < |a + b| ensures (a + b)[i].1 > 0 {
      if i >= |a| {
        assert (a + b)[i] == b[i - |a|];
      }
    }
  }

  /**
   * Starting from nothing, each key is mapped to the sum of its weights, and
   * only keys with a positive total appear.
   */
  lemma {:induction false} AccumulateGet<K(!new)>(events: seq<(K, nat)>, k: K)
    requires Positive(events)
    ensures Get<K, nat>(Accumulate([], events), k) == if Weight(events, k) > 0 then Some(Weight(events, k)) else None
    decreases |events|
  {
    if events != [] {
      var init := events[..|events| - 1];
      var e := events[|events| - 1];
      assert Positive(init) by {
        forall i | 0 <= i < |init| ensures init[i].1 > 0 {
          assert init[i] == events[i];
        }
      }
      AccumulateGet(init, k);
      assert Weight(events, k) == Weight(init, k) + if e.0 == k then e.1 else 0;
      assert Accumulate([], events) == Add(Accumulate([], init), e.0, e.1);
      if e.0 == k {
        AddSame(Accumulate([], init), k, e.1);
      } else {
        AddOther(Accumulate([], init), e.0, e.1, k);
      }
    }
  }

  /** Adding a weight to a key adds it to that key's value... */
  lemma AddSame<K(!new)>(m: Dict<K, nat>, k: K, w: nat)
    ensures Get<K, nat>(Add(m, k, w), k) == Some(Get<K, nat>(m, k).GetOr(0) + w)
  {
  }

  /** ...and leaves every other key's value alone. */
  lemma AddOther<K(!new)>(m: Dict<K, nat>, k: K, w: nat, k': K)
    requires k' != k
    ensures Get<K, nat>(Add(m, k, w), k') == Get<K, nat>(m, k')
  {
    SetOther<K, nat>(m, k, Get<K, nat>(m, k).GetOr(0) + w, k');
  }

  /** Accumulating keeps keys distinct. */
  lemma {:induction false} AccumulateValid<K(!new)>(m: Dict<K, nat>, events: seq<(K, nat)>)
    requires Valid(m)
    ensures Valid(Accumulate(m, events))
    decreases |events|
  {
    if events != [] {
      AccumulateValid(m, events[..|events| - 1]);
      AddValid(Accumulate(m, events[..|events| - 1]), events[|events| - 1].0, events[|events| - 1].1);
    }
  }
}
