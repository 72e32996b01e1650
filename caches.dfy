/**
 * The NixOS channel cache of mcp_nixos/caches.py: discovery of the search
 * indices the backend currently serves, and their resolution to the channel
 * names users type ("unstable", "stable", "beta", "25.11", ...).
 *
 * The backend is reached through `probe`, the reply to a document-count query
 * on one index: `Some(count)` for an HTTP 200 reply (a body without a count
 * reads as 0), `None` for any other status or a failed request.
 */
module Caches {
  import opened Wrappers
  import opened Text
  import opened Dict
  import opened Sorting
  import opened Config

  type Reply = Option<int>
  type Probe = string -> Reply

  // ---------------------------------------------------------------------------
  // Discovery
  // ---------------------------------------------------------------------------

  const Generations: seq<nat> := [43, 44, 45, 46]
  const Versions: seq<string> := ["unstable", "25.05", "25.11", "26.05", "26.11"]

  /** The name of the index of one backend generation and one NixOS version. */
  function Pattern(gen: nat, version: string): string
  {
    "latest-" + NatToString(gen) + "-nixos-" + version
  }

  /** The indices of one generation, in version order. */
  function Row(gen: nat, versions: seq<string>): (ps: seq<string>)
    ensures |ps| == |versions|
    decreases |versions|
  {
    if versions == [] then []
    else Row(gen, versions[..|versions| - 1]) + [Pattern(gen, versions[|versions| - 1])]
  }

  /** The indices probed, generation by generation. */
  function Grid(gens: seq<nat>, versions: seq<string>): seq<string>
    decreases |gens|
  {
    if gens == [] then []
    else Grid(gens[..|gens| - 1], versions) + Row(gens[|gens| - 1], versions)
  }

  lemma GridStep(done: seq<string>, gen: nat, versions: seq<string>, i: nat)
    requires i < |versions|
    ensures done + Row(gen, versions[..i + 1]) == done + Row(gen, versions[..i]) + [Pattern(gen, versions[i])]
  {
    assert versions[..i + 1][..i] == versions[..i];
  }

  function AllPatterns(): seq<string>
  {
    Grid(Generations, Versions)
  }

  /** The text stored for an index: the count with thousands separators. */
  function Label(count: nat): string
  {
    WithThousands(count) + " documents"
  }

  /** An index is kept when it answered 200 with a positive count. */
  predicate Accepted(reply: Reply)
  {
    reply.Some? && reply.value > 0
  }

  function Record(found: Dict<string, string>, pattern: string, reply: Reply): Dict<string, string>
  {
    if Accepted(reply) then Set(found, pattern, Label(reply.value)) else found
  }

  /** The discovery result after probing `ps` in order. */
  function Discovered(probe: Probe, ps: seq<string>): Dict<string, string>
    decreases |ps|
  {
    if ps == [] then []
    else Record(Discovered(probe, ps[..|ps| - 1]), ps[|ps| - 1], probe(ps[|ps| - 1]))
  }

  /** The probed indices that were kept, in probing order. */
  function AcceptedOf(probe: Probe, ps: seq<string>): seq<string>
    decreases |ps|
  {
    if ps == [] then []
    else if Accepted(probe(ps[|ps| - 1])) then AcceptedOf(probe, ps[..|ps| - 1]) + [ps[|ps| - 1]]
    else AcceptedOf(probe, ps[..|ps| - 1])
  }

  lemma DiscoveredAppend(probe: Probe, ps: seq<string>, p: string)
    ensures Discovered(probe, ps + [p]) == Record(Discovered(probe, ps), p, probe(p))
  {
    assert (ps + [p])[..|ps|] == ps;
  }

  /**
   * Discovery keeps exactly the probed indices with a positive count, each
   * labelled with its count.
   */
  lemma {:induction false} DiscoveredGet(probe: Probe, ps: seq<string>, k: string)
    ensures Get(Discovered(probe, ps), k)
         == if k in ps && Accepted(probe(k)) then Some(Label(probe(k).value)) else None
    decreases |ps|
  {
    if ps != [] {
      var init, p := ps[..|ps| - 1], ps[|ps| - 1];
      assert ps == init + [p];
      DiscoveredGet(probe, init, k);
      if p != k && Accepted(probe(p)) {
        SetOther(Discovered(probe, init), p, Label(probe(p).value), k);
      }
    }
  }

  lemma {:induction false} DiscoveredValid(probe: Probe, ps: seq<string>)
    ensures Valid(Discovered(probe, ps))
    decreases |ps|
  {
    if ps != [] {
      var init, p := ps[..|ps| - 1], ps[|ps| - 1];
      DiscoveredValid(probe, init);
      if Accepted(probe(p)) {
        SetValid(Discovered(probe, init), p, Label(probe(p).value));
      }
    }
  }

  // ---------------------------------------------------------------------------
  // Resolution
  // ---------------------------------------------------------------------------

  /** The first name that mentions "unstable". */
  function FirstUnstable(keys: seq<string>): (r: Option<string>)
    ensures r.None? <==> forall i :: 0 <= i < |keys| ==> !Contains(keys[i], "unstable")
    ensures r.Some? ==> r.value in keys && Contains(r.value, "unstable")
  {
    if keys == [] then None
    else if Contains(keys[0], "unstable") then Some(keys[0])
    else
      assert forall i :: 1 <= i < |keys| ==> keys[i] == keys[1..][i - 1];
      FirstUnstable(keys[1..])
  }

  /** `FirstUnstable` picks the earliest name mentioning "unstable". */
  lemma {:induction false} FirstUnstableIsFirst(keys: seq<string>, i: nat)
    requires i < |keys| && Contains(keys[i], "unstable")
    requires forall j :: 0 <= j < i ==> !Contains(keys[j], "unstable")
    ensures FirstUnstable(keys) == Some(keys[i])
  {
    if i > 0 {
      FirstUnstableIsFirst(keys[1..], i - 1);
    }
  }

  lemma FirstUnstableAppend(keys: seq<string>, p: string)
    ensures FirstUnstable(keys + [p])
         == if FirstUnstable(keys).Some? then FirstUnstable(keys)
            else if Contains(p, "unstable") then Some(p) else None
  {
    if FirstUnstable(keys).Some? {
      var v := FirstUnstable(keys).value;
      var i :| 0 <= i < |keys| && keys[i] == v;
      var i0 := FirstIndexOf(keys, i);
      FirstUnstableIsFirst(keys + [p], i0);
      FirstUnstableIsFirst(keys, i0);
    } else if Contains(p, "unstable") {
      FirstUnstableIsFirst(keys + [p], |keys|);
    }
  }

  /** The first index at or before `i` whose name mentions "unstable". */
  lemma {:induction false} FirstIndexOf(keys: seq<string>, i: nat) returns (i0: nat)
    requires i < |keys| && Contains(keys[i], "unstable")
    ensures i0 <= i && Contains(keys[i0], "unstable")
    ensures forall j :: 0 <= j < i0 ==> !Contains(keys[j], "unstable")
    decreases i
  {
    if exists j :: 0 <= j < i && Contains(keys[j], "unstable") {
      var j :| 0 <= j < i && Contains(keys[j], "unstable");
      i0 := FirstIndexOf(keys, j);
    } else {
      i0 := i;
    }
  }

  /**
   * Discovery stores indices in probing order, so the first stored name that
   * mentions "unstable" is the first kept index that does.
   */
  lemma {:induction false} DiscoveredFirstUnstable(probe: Probe, ps: seq<string>)
    ensures FirstUnstable(Keys(Discovered(probe, ps))) == FirstUnstable(AcceptedOf(probe, ps))
    decreases |ps|
  {
    if ps != [] {
      var init, p := ps[..|ps| - 1], ps[|ps| - 1];
      DiscoveredFirstUnstable(probe, init);
      var d := Discovered(probe, init);
      if Accepted(probe(p)) {
        SetKeys(d, p, Label(probe(p).value));
        FirstUnstableAppend(AcceptedOf(probe, init), p);
        if HasKey(d, p) {
          DiscoveredGet(probe, init, p);
          AcceptedOfHas(probe, init, p);
        } else {
          FirstUnstableAppend(Keys(d), p);
        }
      }
    }
  }

  lemma {:induction false} AcceptedOfHas(probe: Probe, ps: seq<string>, p: string)
    requires p in ps && Accepted(probe(p))
    ensures p in AcceptedOf(probe, ps)
    decreases |ps|
  {
    if ps[|ps| - 1] != p {
      AcceptedOfHas(probe, ps[..|ps| - 1], p);
    }
  }

  /** Python's `int(count_str.replace(",", "").replace(" documents", ""))`. */
  function ParseCount(text: string): Option<int>
  {
    ToInt(ReplaceAll(ReplaceAll(text, ",", ""), " documents", ""))
  }

  /** Python's `major, minor = map(int, version.split("."))`. */
  function ParseVersion(version: string): (r: Option<(int, int)>)
    ensures r.Some? ==> '.' in version
  {
    var parts := Split(version, '.');
    if |parts| != 2 then None
    else match (ToInt(parts[0]), ToInt(parts[1]))
      case (Some(major), Some(minor)) =>
        if '.' !in version then SplitWithout(version, '.'); None
        else Some((major, minor))
      case _ => None
  }

  /** Removing the separators of `f"{n:,}"` gives back `str(n)`. */
  lemma {:induction false} WithThousandsPlain(n: nat)
    ensures ReplaceAll(WithThousands(n), ",", "") == NatToString(n)
  {
    if n < 1000 {
      NoCommaInDigits(NatToString(n));
    } else {
      var head, r := WithThousands(n / 1000), n % 1000;
      RemoveCharAppend(head + ",", Pad3(r), ',');
      RemoveCharAppend(head, ",", ',');
      NoCommaInDigits(Pad3(r));
      WithThousandsPlain(n / 1000);
      NatToStringSplit3(n);
    }
  }

  lemma NoCommaInDigits(s: string)
    requires AllDigits(s)
    ensures ReplaceAll(s, ",", "") == s
  {
    assert ',' !in s;
    RemoveCharAbsent(s, ',');
  }

  /** Removing a suffix whose first character does not occur before it. */
  lemma {:induction false} RemoveTrailing(s: string, suffix: string)
    requires |suffix| > 0 && suffix[0] !in s
    ensures ReplaceAll(s + suffix, suffix, "") == s
    decreases |s|
  {
    if |s| == 0 {
      assert s + suffix == suffix;
      assert ReplaceAll(suffix, suffix, "") == "" + ReplaceAll(suffix[|suffix|..], suffix, "");
    } else {
      assert (s + suffix)[0] != suffix[0];
      assert (s + suffix)[1..] == s[1..] + suffix;
      RemoveTrailing(s[1..], suffix);
      assert s == [s[0]] + s[1..];
    }
  }

  /** The count parsed back from a stored label is the count discovery saw. */
  lemma LabelRoundTrip(n: nat)
    ensures ParseCount(Label(n)) == Some(n)
  {
    var digits := NatToString(n);
    RemoveCharAppend(WithThousands(n), " documents", ',');
    WithThousandsPlain(n);
    RemoveCharAbsent(" documents", ',');
    assert ReplaceAll(Label(n), ",", "") == digits + " documents";
    assert ' ' !in digits;
    RemoveTrailing(digits, " documents");
    ToIntOfNatToString(n);
  }

  /** A stable-release index, as `(major, minor, version, pattern, count)`. */
  datatype Candidate = Candidate(major: int, minor: int, version: string, pattern: string, count: int)

  /** The version numbers were read from the version text. */
  predicate WellFormed(c: Candidate)
  {
    ParseVersion(c.version) == Some((c.major, c.minor)) && '.' in c.version
  }

  /** An available index read as a stable-release candidate, if it is one. */
  function Classify(pattern: string, text: string): (r: Option<Candidate>)
    ensures r.Some? ==> WellFormed(r.value) && r.value.pattern == pattern
  {
    if Contains(pattern, "unstable") then None
    else
      var parts := Split(pattern, '-');
      if |parts| < 4 then None
      else
        var version := parts[3];
        match (ParseVersion(version), ParseCount(text))
        case (Some(mm), Some(count)) => Some(Candidate(mm.0, mm.1, version, pattern, count))
        case _ => None
  }

  /**
   * The count resolution reads from a discovered index is the count its probe
   * returned: a discovered pattern becomes a stable-release candidate exactly
   * when it is a dated, non-unstable pattern, and that candidate carries the
   * probe's count.
   */
  lemma DiscoveredCandidateCount(probe: Probe, ps: seq<string>, p: string, text: string)
    requires Get(Discovered(probe, ps), p) == Some(text)
    ensures Accepted(probe(p)) && ParseCount(text) == Some(probe(p).value)
    ensures Classify(p, text).Some? <==>
      !Contains(p, "unstable") && |Split(p, '-')| >= 4 && ParseVersion(Split(p, '-')[3]).Some?
    ensures Classify(p, text).Some? ==> Classify(p, text).value.count == probe(p).value
  {
    DiscoveredGet(probe, ps, p);
    LabelRoundTrip(probe(p).value);
  }

  predicate AllWellFormed(cs: seq<Candidate>)
  {
    forall i :: 0 <= i < |cs| ==> WellFormed(cs[i])
  }

  /** The candidates of the available indices, in their order. */
  function Candidates(avail: Dict<string, string>): (cs: seq<Candidate>)
    ensures AllWellFormed(cs)
    decreases |avail|
  {
    if avail == [] then []
    else
      var rest := Candidates(avail[..|avail| - 1]);
      match Classify(avail[|avail| - 1].0, avail[|avail| - 1].1)
      case Some(c) => rest + [c]
      case None => rest
  }

  /** Every candidate comes from an available index that classifies... */
  lemma {:induction false} CandidateSource(avail: Dict<string, string>, c: Candidate) returns (i: nat)
    requires c in Candidates(avail)
    ensures i < |avail| && Classify(avail[i].0, avail[i].1) == Some(c)
    decreases |avail|
  {
    var init := avail[..|avail| - 1];
    if c in Candidates(init) {
      i := CandidateSource(init, c);
    } else {
      i := |avail| - 1;
    }
  }

  /** ... and every available index that classifies gives a candidate. */
  lemma {:induction false} CandidateOfEntry(avail: Dict<string, string>, i: nat)
    requires i < |avail| && Classify(avail[i].0, avail[i].1).Some?
    ensures Classify(avail[i].0, avail[i].1).value in Candidates(avail)
    decreases |avail|
  {
    if i < |avail| - 1 {
      var init := avail[..|avail| - 1];
      assert init[i] == avail[i];
      CandidateOfEntry(init, i);
    }
  }

  /** Ordering key `(major, minor, count)`, descending. */
  predicate CandidateGe(a: Candidate, b: Candidate)
  {
    a.major > b.major
    || (a.major == b.major && (a.minor > b.minor || (a.minor == b.minor && a.count >= b.count)))
  }

  lemma CandidateGeTotalPreorder()
    ensures TotalPreorder(CandidateGe)
  {
  }

  /** For each version, the pattern and count of its first highest-count candidate. */
  function BestPerVersion(sorted: seq<Candidate>): Dict<string, (string, int)>
    decreases |sorted|
  {
    if sorted == [] then []
    else
      var vp := BestPerVersion(sorted[..|sorted| - 1]);
      var c := sorted[|sorted| - 1];
      var cur := Get(vp, c.version);
      if cur.None? || c.count > cur.value.1 then Set(vp, c.version, (c.pattern, c.count)) else vp
  }

  /** Assigns each version its pattern, in the order of `vp`. */
  function AssignVersions(r: Dict<string, string>, vp: Dict<string, (string, int)>): Dict<string, string>
    decreases |vp|
  {
    if vp == [] then r
    else Set(AssignVersions(r, vp[..|vp| - 1]), vp[|vp| - 1].0, vp[|vp| - 1].1.0)
  }

  /** The "unstable" step. */
  function UnstableStep(avail: Dict<string, string>): Dict<string, string>
  {
    match FirstUnstable(Keys(avail))
    case Some(p) => Set([], "unstable", p)
    case None => []
  }

  /** The "stable" and per-version step. */
  function StableStep(r0: Dict<string, string>, cands: seq<Candidate>): Dict<string, string>
  {
    if cands == [] then r0
    else
      var sorted := SortBy(cands, CandidateGe);
      var top := sorted[0];
      AssignVersions(Set(Set(r0, "stable", top.pattern), top.version, top.pattern), BestPerVersion(sorted))
  }

  /** The "beta" step. */
  function BetaStep(r1: Dict<string, string>): Dict<string, string>
  {
    match Get(r1, "stable")
    case Some(s) => Set(r1, "beta", s)
    case None => r1
  }

  function ResolveDiscovered(avail: Dict<string, string>): Dict<string, string>
  {
    BetaStep(StableStep(UnstableStep(avail), Candidates(avail)))
  }

  /** The resolved map, and whether it is the fallback table. */
  function Resolve(avail: Dict<string, string>): (Dict<string, string>, bool)
  {
    if avail == [] then (FallbackChannels, true)
    else
      var r := ResolveDiscovered(avail);
      if r == [] then (FallbackChannels, true) else (r, false)
  }

  /** The first available index whose name mentions "unstable". */
  method FindUnstable(avail: Dict<string, string>) returns (p: Option<string>)
    ensures p == FirstUnstable(Keys(avail))
  {
    p := None;
    var i := 0;
    while i < |avail|
      invariant 0 <= i <= |avail|
      invariant FirstUnstable(Keys(avail)) == FirstUnstable(Keys(avail)[i..])
    {
      if Contains(avail[i].0, "unstable") {
        return Some(avail[i].0);
      }
      assert Keys(avail)[i..][1..] == Keys(avail)[i + 1..];
      i := i + 1;
    }
  }

  /** The stable-release candidates, in the order of the available map. */
  method CollectCandidates(avail: Dict<string, string>) returns (cands: seq<Candidate>)
    ensures cands == Candidates(avail)
  {
    cands := [];
    var i := 0;
    while i < |avail|
      invariant 0 <= i <= |avail|
      invariant cands == Candidates(avail[..i])
    {
      var c := Classify(avail[i].0, avail[i].1);
      if c.Some? {
        cands := cands + [c.value];
      }
      assert avail[..i + 1][..i] == avail[..i];
      i := i + 1;
    }
    assert avail[..i] == avail;
  }

  /** The `version_patterns` loop over the sorted candidates. */
  method PickVersionPatterns(sorted: seq<Candidate>) returns (vp: Dict<string, (string, int)>)
    ensures vp == BestPerVersion(sorted)
  {
    vp := [];
    var i := 0;
    while i < |sorted|
      invariant 0 <= i <= |sorted|
      invariant vp == BestPerVersion(sorted[..i])
    {
      var c := sorted[i];
      var cur := Get(vp, c.version);
      if cur.None? || c.count > cur.value.1 {
        vp := Set(vp, c.version, (c.pattern, c.count));
      }
      assert sorted[..i + 1][..i] == sorted[..i];
      i := i + 1;
    }
    assert sorted[..i] == sorted;
  }

  /** Stores each version's pattern in the resolved map. */
  method ApplyVersionPatterns(r0: Dict<string, string>, vp: Dict<string, (string, int)>) returns (r: Dict<string, string>)
    ensures r == AssignVersions(r0, vp)
  {
    r := r0;
    var i := 0;
    while i < |vp|
      invariant 0 <= i <= |vp|
      invariant r == AssignVersions(r0, vp[..i])
    {
      r := Set(r, vp[i].0, vp[i].1.0);
      assert vp[..i + 1][..i] == vp[..i];
      i := i + 1;
    }
    assert vp[..i] == vp;
  }

  /** The resolution step: the resolved map, and whether it is the fallback table. */
  method ResolveAvailable(avail: Dict<string, string>) returns (r: Dict<string, string>, fallback: bool)
    ensures (r, fallback) == Resolve(avail)
  {
    if |avail| == 0 {
      return FallbackChannels, true;
    }
    r := [];
    var unstable := FindUnstable(avail);
    if unstable.Some? {
      r := Set(r, "unstable", unstable.value);
    }
    assert r == UnstableStep(avail);

    var cands := CollectCandidates(avail);
    if |cands| > 0 {
      var sorted := SortBy(cands, CandidateGe);
      var top := sorted[0];
      r := Set(r, "stable", top.pattern);
      r := Set(r, top.version, top.pattern);
      var vp := PickVersionPatterns(sorted);
      r := ApplyVersionPatterns(r, vp);
    }
    assert r == StableStep(UnstableStep(avail), cands);

    var stable := Get(r, "stable");
    if stable.Some? {
      r := Set(r, "beta", stable.value);
    }
    assert r == ResolveDiscovered(avail);

    if |r| == 0 {
      return FallbackChannels, true;
    }
    fallback := false;
  }

  // ---------------------------------------------------------------------------
  // Properties of resolution
  // ---------------------------------------------------------------------------

  lemma {:induction false} BestPerVersionValid(s: seq<Candidate>)
    ensures Valid(BestPerVersion(s))
    decreases |s|
  {
    if s != [] {
      var c := s[|s| - 1];
      BestPerVersionValid(s[..|s| - 1]);
      SetValid(BestPerVersion(s[..|s| - 1]), c.version, (c.pattern, c.count));
    }
  }

  /** Every candidate's version gets an entry. */
  lemma {:induction false} BestPerVersionHas(s: seq<Candidate>, j: nat)
    requires j < |s|
    ensures HasKey(BestPerVersion(s), s[j].version)
    decreases |s|
  {
    var t, c := s[..|s| - 1], s[|s| - 1];
    if j < |t| {
      assert t[j] == s[j];
      BestPerVersionHas(t, j);
      SetKeys(BestPerVersion(t), c.version, (c.pattern, c.count));
    }
  }

  /**
   * A version's entry is the pattern and count of its first candidate with the
   * highest count.
   */
  /** `s[i]` is the first candidate of version `v` with the highest count. */
  ghost predicate FirstBest(s: seq<Candidate>, v: string, i: nat)
  {
    && i < |s| && s[i].version == v
    && (forall j :: 0 <= j < |s| && s[j].version == v ==> s[j].count <= s[i].count)
    && (forall j :: 0 <= j < i && s[j].version == v ==> s[j].count < s[i].count)
  }

  lemma FirstBestExtend(t: seq<Candidate>, c: Candidate, v: string, i: nat)
    requires FirstBest(t, v, i) && (c.version != v || c.count <= t[i].count)
    ensures FirstBest(t + [c], v, i)
  {
    var s := t + [c];
    forall j | 0 <= j < |s| && s[j].version == v ensures s[j].count <= s[i].count {
      if j < |t| { assert s[j] == t[j]; }
    }
    forall j | 0 <= j < i && s[j].version == v ensures s[j].count < s[i].count {
      assert s[j] == t[j];
    }
  }

  lemma FirstBestReplace(t: seq<Candidate>, c: Candidate)
    requires forall j :: 0 <= j < |t| && t[j].version == c.version ==> t[j].count < c.count
    ensures FirstBest(t + [c], c.version, |t|)
  {
    var s := t + [c];
    forall j | 0 <= j < |s| && s[j].version == c.version ensures s[j].count <= c.count {
      if j < |t| { assert s[j] == t[j]; }
    }
  }

  lemma {:induction false} BestFor(s: seq<Candidate>, v: string) returns (i: nat)
    requires HasKey(BestPerVersion(s), v)
    ensures FirstBest(s, v, i)
    ensures Get(BestPerVersion(s), v) == Some((s[i].pattern, s[i].count))
    decreases |s|
  {
    var t, c := s[..|s| - 1], s[|s| - 1];
    assert s == t + [c];
    var vp := BestPerVersion(t);
    var cur := Get(vp, c.version);
    var replaced := cur.None? || c.count > cur.value.1;
    assert BestPerVersion(s) == if replaced then Set(vp, c.version, (c.pattern, c.count)) else vp;
    if c.version != v {
      if replaced {
        SetOther(vp, c.version, (c.pattern, c.count), v);
      }
      i := BestFor(t, v);
      FirstBestExtend(t, c, v, i);
    } else if cur.None? {
      i := |t|;
      forall j | 0 <= j < |t| ensures t[j].version != v {
        BestPerVersionHas(t, j);
      }
      FirstBestReplace(t, c);
    } else {
      var i' := BestFor(t, v);
      if replaced {
        i := |t|;
        FirstBestReplace(t, c);
      } else {
        i := i';
        FirstBestExtend(t, c, v, i);
      }
    }
  }

  /** Assigning the version entries sets exactly their keys. */
  lemma {:induction false} AssignVersionsGet(r: Dict<string, string>, vp: Dict<string, (string, int)>, k: string)
    requires Valid(vp)
    ensures Get(AssignVersions(r, vp), k) == if HasKey(vp, k) then Some(Get(vp, k).value.0) else Get(r, k)
    decreases |vp|
  {
    if vp != [] {
      var w, x := vp[..|vp| - 1], vp[|vp| - 1];
      assert vp == w + [x];
      ValidPrefix(vp);
      GetAppend(w, x, k);
      assert Keys(vp) == Keys(w) + [x.0];
      AssignVersionsGet(r, w, k);
      if x.0 != k {
        SetOther(AssignVersions(r, w), x.0, x.1.0, k);
      }
    }
  }

  lemma SortedWellFormed(cands: seq<Candidate>)
    requires AllWellFormed(cands)
    ensures AllWellFormed(SortBy(cands, CandidateGe))
  {
    var sorted := SortBy(cands, CandidateGe);
    forall i | 0 <= i < |sorted| ensures WellFormed(sorted[i]) {
      SortByElements(cands, CandidateGe, sorted[i]);
    }
  }

  /** The channel aliases cannot be taken for version numbers. */
  lemma AliasesHaveNoDot()
    ensures '.' !in "unstable" && '.' !in "stable" && '.' !in "beta"
  {
  }

  /** A name without a dot is no candidate's version. */
  lemma NotAVersion(sorted: seq<Candidate>, k: string)
    requires AllWellFormed(sorted) && '.' !in k
    ensures !HasKey(BestPerVersion(sorted), k)
  {
    if HasKey(BestPerVersion(sorted), k) {
      var i := BestFor(sorted, k);
      assert false;
    }
  }

  /** The stable step leaves names that are neither "stable" nor a version alone. */
  lemma StableStepOther(r0: Dict<string, string>, cands: seq<Candidate>, k: string)
    requires AllWellFormed(cands) && '.' !in k && k != "stable"
    ensures Get(StableStep(r0, cands), k) == Get(r0, k)
  {
    if cands != [] {
      var sorted := SortBy(cands, CandidateGe);
      var top := sorted[0];
      SortedWellFormed(cands);
      BestPerVersionValid(sorted);
      NotAVersion(sorted, k);
      var r1 := Set(Set(r0, "stable", top.pattern), top.version, top.pattern);
      AssignVersionsGet(r1, BestPerVersion(sorted), k);
      SetOther(Set(r0, "stable", top.pattern), top.version, top.pattern, k);
      SetOther(r0, "stable", top.pattern, k);
    }
  }

  /** After the stable step, "stable" names the first sorted candidate. */
  lemma StableStepStable(r0: Dict<string, string>, cands: seq<Candidate>)
    requires AllWellFormed(cands) && cands != []
    ensures Get(StableStep(r0, cands), "stable") == Some(SortBy(cands, CandidateGe)[0].pattern)
  {
    AliasesHaveNoDot();
    var sorted := SortBy(cands, CandidateGe);
    var top := sorted[0];
    SortedWellFormed(cands);
    BestPerVersionValid(sorted);
    NotAVersion(sorted, "stable");
    var r1 := Set(Set(r0, "stable", top.pattern), top.version, top.pattern);
    AssignVersionsGet(r1, BestPerVersion(sorted), "stable");
    SetOther(Set(r0, "stable", top.pattern), top.version, top.pattern, "stable");
  }

  /** After the stable step, each candidate version names its entry's pattern. */
  lemma StableStepVersion(r0: Dict<string, string>, cands: seq<Candidate>, v: string)
    requires cands != [] && HasKey(BestPerVersion(SortBy(cands, CandidateGe)), v)
    ensures Get(StableStep(r0, cands), v) == Some(Get(BestPerVersion(SortBy(cands, CandidateGe)), v).value.0)
  {
    var sorted := SortBy(cands, CandidateGe);
    var top := sorted[0];
    BestPerVersionValid(sorted);
    var r1 := Set(Set(r0, "stable", top.pattern), top.version, top.pattern);
    AssignVersionsGet(r1, BestPerVersion(sorted), v);
  }

  /**
   * "unstable" resolves to the first available index mentioning "unstable", and
   * such an index alone keeps the fallback table away.
   */
  lemma ResolveUnstable(avail: Dict<string, string>)
    ensures !Resolve(avail).1 ==> Get(Resolve(avail).0, "unstable") == FirstUnstable(Keys(avail))
    ensures FirstUnstable(Keys(avail)).Some? ==> !Resolve(avail).1
  {
    AliasesHaveNoDot();
    if avail != [] {
      var r0 := UnstableStep(avail);
      var cands := Candidates(avail);
      StableStepOther(r0, cands, "unstable");
      var r1 := StableStep(r0, cands);
      if Get(r1, "stable").Some? {
        SetOther(r1, "beta", Get(r1, "stable").value, "unstable");
      }
    }
  }

  /**
   * With at least one stable-release candidate, "stable" resolves to the first
   * candidate, in the order of the available map, with the highest
   * `(major, minor, count)`.
   */
  lemma ResolveStableIsFirstMaximum(avail: Dict<string, string>) returns (k: nat)
    requires Candidates(avail) != []
    ensures !Resolve(avail).1
    ensures k < |Candidates(avail)|
    ensures Get(Resolve(avail).0, "stable") == Some(Candidates(avail)[k].pattern)
    ensures forall j :: 0 <= j < |Candidates(avail)| ==> CandidateGe(Candidates(avail)[k], Candidates(avail)[j])
    ensures forall i :: 0 <= i < k ==> !CandidateGe(Candidates(avail)[i], Candidates(avail)[k])
  {
    var cands := Candidates(avail);
    CandidateGeTotalPreorder();
    k := SortByHead(cands, CandidateGe);
    var r1 := StableStep(UnstableStep(avail), cands);
    StableStepStable(UnstableStep(avail), cands);
    SetOther(r1, "beta", Get(r1, "stable").value, "stable");
  }

  /** "beta" is present exactly when "stable" is, and names the same index. */
  lemma ResolveBetaMirrorsStable(avail: Dict<string, string>)
    ensures Get(Resolve(avail).0, "beta") == Get(Resolve(avail).0, "stable")
  {
    AliasesHaveNoDot();
    if !Resolve(avail).1 {
      var r0 := UnstableStep(avail);
      var cands := Candidates(avail);
      var r1 := StableStep(r0, cands);
      if Get(r1, "stable").Some? {
        SetOther(r1, "beta", Get(r1, "stable").value, "stable");
      } else {
        StableStepOther(r0, cands, "beta");
      }
    }
  }

  /**
   * Each candidate's version resolves to the pattern of a candidate of that
   * version with the highest count.
   */
  lemma ResolveVersionBest(avail: Dict<string, string>, c: Candidate) returns (b: Candidate)
    requires c in Candidates(avail)
    ensures !Resolve(avail).1
    ensures b in Candidates(avail) && b.version == c.version
    ensures Get(Resolve(avail).0, c.version) == Some(b.pattern)
    ensures forall d :: d in Candidates(avail) && d.version == c.version ==> d.count <= b.count
  {
    var cands := Candidates(avail);
    b := BestOfVersion(cands, c);
    var r0 := UnstableStep(avail);
    StableStepVersion(r0, cands, c.version);
    var r1 := StableStep(r0, cands);
    StableStepStable(r0, cands);
    AliasesHaveNoDot();
    SetOther(r1, "beta", SortBy(cands, CandidateGe)[0].pattern, c.version);
  }

  /** The entry of a candidate's version comes from its highest-count candidate. */
  lemma BestOfVersion(cands: seq<Candidate>, c: Candidate) returns (b: Candidate)
    requires c in cands
    ensures b in cands && b.version == c.version
    ensures Get(BestPerVersion(SortBy(cands, CandidateGe)), c.version) == Some((b.pattern, b.count))
    ensures forall d :: d in cands && d.version == c.version ==> d.count <= b.count
  {
    var sorted := SortBy(cands, CandidateGe);
    SortByElements(cands, CandidateGe, c);
    var j :| 0 <= j < |sorted| && sorted[j] == c;
    BestPerVersionHas(sorted, j);
    var i := BestFor(sorted, c.version);
    b := sorted[i];
    SortByElements(cands, CandidateGe, b);
    forall d | d in cands && d.version == c.version ensures d.count <= b.count {
      SortByElements(cands, CandidateGe, d);
    }
  }

  /** The version of the stable index resolves to the same index as "stable". */
  lemma ResolveStableVersionAgrees(avail: Dict<string, string>)
    requires Candidates(avail) != []
    ensures var top := SortBy(Candidates(avail), CandidateGe)[0];
      Get(Resolve(avail).0, top.version) == Get(Resolve(avail).0, "stable") == Some(top.pattern)
  {
    AliasesHaveNoDot();
    var cands := Candidates(avail);
    var sorted := SortBy(cands, CandidateGe);
    var top := sorted[0];
    CandidateGeTotalPreorder();
    SortBySorted(cands, CandidateGe);
    SortedWellFormed(cands);
    BestPerVersionHas(sorted, 0);
    var i := BestFor(sorted, top.version);
    if i > 0 {
      assert false;
    }
    var r0 := UnstableStep(avail);
    StableStepVersion(r0, cands, top.version);
    StableStepStable(r0, cands);
    var r1 := StableStep(r0, cands);
    assert '.' in top.version;
    SetOther(r1, "beta", top.pattern, top.version);
    SetOther(r1, "beta", top.pattern, "stable");
  }

  /** Every resolved name other than the three aliases is some candidate's version. */
  lemma ResolvedVersionOrigin(avail: Dict<string, string>, k: string) returns (c: Candidate)
    requires !Resolve(avail).1 && HasKey(Resolve(avail).0, k)
    requires k != "unstable" && k != "stable" && k != "beta"
    ensures c in Candidates(avail) && c.version == k
  {
    AliasesHaveNoDot();
    var cands := Candidates(avail);
    var r0 := UnstableStep(avail);
    var r1 := StableStep(r0, cands);
    if Get(r1, "stable").Some? {
      SetOther(r1, "beta", Get(r1, "stable").value, k);
    }
    assert Get(r0, k).None?;
    if cands == [] {
      assert false;
    }
    var sorted := SortBy(cands, CandidateGe);
    var top := sorted[0];
    BestPerVersionValid(sorted);
    var mid := Set(Set(r0, "stable", top.pattern), top.version, top.pattern);
    AssignVersionsGet(mid, BestPerVersion(sorted), k);
    if !HasKey(BestPerVersion(sorted), k) {
      if k != top.version {
        SetOther(Set(r0, "stable", top.pattern), top.version, top.pattern, k);
        SetOther(r0, "stable", top.pattern, k);
        assert false;
      }
      c := top;
    } else {
      var i := BestFor(sorted, k);
      c := sorted[i];
    }
    SortByElements(cands, CandidateGe, c);
  }

  /** Without the fallback, every resolved name points at an available index. */
  lemma ResolvedIndexAvailable(avail: Dict<string, string>, k: string)
    requires !Resolve(avail).1 && HasKey(Resolve(avail).0, k)
    ensures HasKey(avail, Get(Resolve(avail).0, k).value)
  {
    if k == "unstable" {
      ResolveUnstable(avail);
    } else if k == "stable" || k == "beta" {
      ResolveBetaMirrorsStable(avail);
      StableIndexAvailable(avail);
    } else {
      var c := ResolvedVersionOrigin(avail, k);
      var b := ResolveVersionBest(avail, c);
      PatternAvailable(avail, b);
    }
  }

  lemma StableIndexAvailable(avail: Dict<string, string>)
    requires !Resolve(avail).1 && HasKey(Resolve(avail).0, "stable")
    ensures HasKey(avail, Get(Resolve(avail).0, "stable").value)
  {
    var cands := Candidates(avail);
    if cands == [] {
      AliasesHaveNoDot();
      ResolveBetaMirrorsStable(avail);
      StableStepOther(UnstableStep(avail), cands, "beta");
      assert false;
    }
    var i := ResolveStableIsFirstMaximum(avail);
    PatternAvailable(avail, cands[i]);
  }

  lemma PatternAvailable(avail: Dict<string, string>, c: Candidate)
    requires c in Candidates(avail)
    ensures HasKey(avail, c.pattern)
  {
    var j := CandidateSource(avail, c);
    assert Keys(avail)[j] == c.pattern;
  }

  /**
   * The fallback table is used exactly when no index mentions "unstable" and no
   * index is a stable-release candidate.
   */
  lemma ResolveFallback(avail: Dict<string, string>)
    ensures Resolve(avail).1 <==> FirstUnstable(Keys(avail)).None? && Candidates(avail) == []
    ensures Resolve(avail).1 ==> Resolve(avail).0 == FallbackChannels
  {
    ResolveUnstable(avail);
    if Candidates(avail) != [] {
      var _ := ResolveStableIsFirstMaximum(avail);
    }
  }

  /**
   * After discovery, "unstable" names the first index mentioning "unstable"
   * that answered with a positive count, in probing order.
   */
  lemma DiscoveredUnstable(probe: Probe)
    requires FirstUnstable(AcceptedOf(probe, AllPatterns())).Some?
    ensures var avail := Discovered(probe, AllPatterns());
      !Resolve(avail).1 && Get(Resolve(avail).0, "unstable") == FirstUnstable(AcceptedOf(probe, AllPatterns()))
  {
    DiscoveredFirstUnstable(probe, AllPatterns());
    ResolveUnstable(Discovered(probe, AllPatterns()));
  }

  /** When no index answers with a positive count, the fallback table is served. */
  lemma NothingDiscoveredFallsBack(probe: Probe)
    requires forall p :: p in AllPatterns() ==> !Accepted(probe(p))
    ensures Resolve(Discovered(probe, AllPatterns())) == (FallbackChannels, true)
  {
    var avail := Discovered(probe, AllPatterns());
    if avail != [] {
      DiscoveredGet(probe, AllPatterns(), avail[0].0);
      assert false;
    }
  }

  // ---------------------------------------------------------------------------
  // The cache
  // ---------------------------------------------------------------------------

  class ChannelCache {
    /** The backend as this process sees it. */
    const probe: Probe
    var available: Option<Dict<string, string>>
    var resolved: Option<Dict<string, string>>
    var usingFallback: bool
    /** The indices probed so far, in order. */
    ghost var probeLog: seq<string>

    /**
     * Each cached map is what discovery and resolution compute, the backend is
     * probed once per index and only when discovery runs, and the fallback flag
     * is raised exactly when resolution fell back.
     */
    ghost predicate Valid()
      reads this
    {
      && probeLog == (if available.Some? then AllPatterns() else [])
      && (available.Some? ==> available.value == Discovered(probe, AllPatterns()))
      && (resolved.Some? ==> available.Some? && resolved.value == Resolve(available.value).0)
      && (usingFallback ==> available.Some? && Resolve(available.value).1)
      && (resolved.Some? ==> usingFallback == Resolve(available.value).1)
    }

    constructor (probe: Probe)
      ensures Valid() && this.probe == probe
      ensures available == None && resolved == None && !usingFallback
    {
      this.probe := probe;
      available := None;
      resolved := None;
      usingFallback := false;
      probeLog := [];
    }

    /** Probes every index of the grid once, generation by generation. */
    method Discover() returns (found: Dict<string, string>)
      requires probeLog == []
      modifies this`probeLog
      ensures found == Discovered(probe, AllPatterns()) && probeLog == AllPatterns()
    {
      var query := probe;
      found := [];
      var gi := 0;
      while gi < |Generations|
        invariant 0 <= gi <= |Generations|
        invariant probeLog == Grid(Generations[..gi], Versions)
        invariant found == Discovered(query, probeLog)
      {
        var gen := Generations[gi];
        ghost var done := probeLog;
        var vi := 0;
        assert done + Row(gen, Versions[..vi]) == done;
        while vi < |Versions|
          invariant 0 <= vi <= |Versions|
          invariant probeLog == done + Row(gen, Versions[..vi])
          invariant found == Discovered(query, probeLog)
        {
          var pattern := Pattern(gen, Versions[vi]);
          var reply := query(pattern);
          DiscoveredAppend(query, probeLog, pattern);
          GridStep(done, gen, Versions, vi);
          probeLog := probeLog + [pattern];
          if reply.Some? && reply.value > 0 {
            found := Set(found, pattern, Label(reply.value));
          }
          vi := vi + 1;
        }
        assert Versions[..vi] == Versions;
        assert Generations[..gi + 1][..gi] == Generations[..gi];
        gi := gi + 1;
      }
      assert Generations[..gi] == Generations;
    }

    /** The discovered indices; discovery runs on the first call only. */
    method GetAvailable() returns (r: Dict<string, string>)
      requires Valid()
      modifies this`available, this`probeLog
      ensures Valid()
      ensures r == Discovered(probe, AllPatterns()) && available == Some(r)
      ensures old(available).Some? ==> probeLog == old(probeLog)
    {
      if available.None? {
        assert resolved.None? && !usingFallback;
        var found := Discover();
        available := Some(found);
      }
      r := available.value;
    }

    /** Resolution of the available indices to channel names. */
    method ResolveChannels() returns (r: Dict<string, string>)
      requires Valid()
      modifies this`available, this`probeLog, this`usingFallback
      ensures Valid()
      ensures available == Some(Discovered(probe, AllPatterns()))
      ensures r == Resolve(available.value).0
      ensures usingFallback == (old(usingFallback) || Resolve(available.value).1)
      ensures old(available).Some? ==> probeLog == old(probeLog)
    {
      var avail := GetAvailable();
      var fallback;
      r, fallback := ResolveAvailable(avail);
      if fallback {
        usingFallback := true;
      }
    }

    /** The resolved channel map; resolution runs on the first call only. */
    method GetResolved() returns (r: Dict<string, string>)
      requires Valid()
      modifies this`available, this`resolved, this`probeLog, this`usingFallback
      ensures Valid()
      ensures r == Resolve(Discovered(probe, AllPatterns())).0 && resolved == Some(r)
      ensures old(resolved).Some? ==> unchanged(this)
      ensures usingFallback == Resolve(Discovered(probe, AllPatterns())).1
    {
      if resolved.None? {
        var rs := ResolveChannels();
        resolved := Some(rs);
      }
      r := resolved.value;
    }
  }
}
