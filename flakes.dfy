/**
 * The flake search over search.nixos.org (mcp_nixos/sources/flakes.py): which
 * query it sends, how the returned hits are grouped into one record per flake,
 * and the text it prints for them.
 */
module Flakes {
  import opened Wrappers
  import opened Text
  import opened Dict
  import opened Sorting
  import opened Lists

  /** A blank query, or "*", asks the index for every flake. */
  predicate MatchesAll(query: string)
  {
    Strip(query) == "" || query == "*"
  }

  lemma MatchesAllSpec(query: string)
    ensures MatchesAll(query) <==> query == "*" || forall i :: 0 <= i < |query| ==> IsSpace(query[i])
  {
    StripBlank(query);
  }

  // ---------------------------------------------------------------------------
  // Hits and flakes
  // ---------------------------------------------------------------------------

  /** `flake_resolved` when it is a record; a missing field is "". */
  datatype Resolved = Resolved(owner: string, repo: string, url: string, kind: string)

  /** The `_source` of a hit; a missing text field is "". */
  datatype Hit = Hit(
    flakeName: string,
    flakeDescription: string,
    packagePname: string,
    packageDescription: string,
    packageAttrName: string,
    resolved: Option<Resolved>)

  /** The record kept per flake; `packages` holds each attribute name once, in the order first seen. */
  datatype Flake = Flake(
    name: string,
    description: string,
    owner: string,
    repo: string,
    url: string,
    kind: string,
    packages: seq<string>)

  /** The last path segment of a URL without a trailing slash, with ".git" removed. */
  function UrlName(url: string): string
  {
    var parts := Split(TrimEnd(url, {'/'}), '/');
    ReplaceAll(parts[|parts| - 1], ".git", "")
  }

  /** The resolved record names an owner, a repository or a URL. */
  predicate HasSource(resolved: Option<Resolved>)
  {
    resolved.Some? && (resolved.value.owner != "" || resolved.value.repo != "" || resolved.value.url != "")
  }

  /** The key a hit is grouped under and the name its flake gets, or `None` for a hit that is dropped. */
  function KeyOf(hit: Hit): Option<(string, string)>
  {
    var flakeName := Strip(hit.flakeName);
    if flakeName == "" && hit.packagePname == "" then None
    else if HasSource(hit.resolved) then
      var r := hit.resolved.value;
      if r.owner != "" && r.repo != "" then
        Some((r.owner + "/" + r.repo, if flakeName != "" then flakeName else if r.repo != "" then r.repo else hit.packagePname))
      else if r.url != "" then
        Some((r.url, if flakeName != "" then flakeName else if UrlName(r.url) != "" then UrlName(r.url) else hit.packagePname))
      else
        var key := if flakeName != "" then flakeName else hit.packagePname;
        Some((key, key))
    else if flakeName != "" then Some((flakeName, flakeName))
    else None
  }

  /**
   * A hit is dropped exactly when it has neither a flake name nor a package
   * name, or when it names no source and has no flake name; the key is
   * "owner/repo" when both are known, else the URL, else the flake name, else
   * the package name; and it is never empty.
   */
  lemma KeyOfSpec(hit: Hit)
    ensures var flakeName := Strip(hit.flakeName);
      KeyOf(hit).None? <==>
        (flakeName == "" && hit.packagePname == "") || (!HasSource(hit.resolved) && flakeName == "")
    ensures KeyOf(hit).Some? ==> KeyOf(hit).value.0 != ""
    ensures KeyOf(hit).Some? && HasSource(hit.resolved) && hit.resolved.value.owner != "" && hit.resolved.value.repo != "" ==>
      KeyOf(hit).value.0 == hit.resolved.value.owner + "/" + hit.resolved.value.repo
    ensures (KeyOf(hit).Some? && HasSource(hit.resolved) && !(hit.resolved.value.owner != "" && hit.resolved.value.repo != "")
      && hit.resolved.value.url != "") ==> KeyOf(hit).value.0 == hit.resolved.value.url
    ensures KeyOf(hit).Some? && !HasSource(hit.resolved) ==> KeyOf(hit).value == (Strip(hit.flakeName), Strip(hit.flakeName))
  {
  }

  /** The record the first hit of a flake creates, before its package is added. */
  function NewFlake(hit: Hit, name: string): Flake
  {
    var description := if hit.flakeDescription != "" then hit.flakeDescription else hit.packageDescription;
    if HasSource(hit.resolved) then
      var r := hit.resolved.value;
      Flake(name, description, r.owner, r.repo, r.url, r.kind, [])
    else
      Flake(name, description, "", "", "", "", [])
  }

  /** `packages.add(attr_name)` when the name is not empty. */
  function AddPackage(packages: seq<string>, attrName: string): seq<string>
  {
    if attrName == "" || attrName in packages then packages else packages + [attrName]
  }

  /**
   * A hit that is kept: its key, the record it would create as the first hit
   * of its flake, and the package it brings.
   */
  datatype Kept = Kept(key: string, first: Flake, attrName: string)

  function KeptOf(hit: Hit): Option<Kept>
  {
    match KeyOf(hit)
    case None => None
    case Some((key, name)) => Some(Kept(key, NewFlake(hit, name), hit.packageAttrName))
  }

  /** The kept hits, in order. */
  function KeptHits(hits: seq<Hit>): seq<Kept>
    decreases |hits|
  {
    if hits == [] then []
    else
      var last := hits[|hits| - 1];
      KeptHits(hits[..|hits| - 1]) + match KeptOf(last) case None => [] case Some(e) => [e]
  }

  /** The kept hits are exactly those the hits give, with no package yet in their records. */
  lemma {:induction false} KeptHitsMembers(hits: seq<Hit>, e: Kept)
    ensures e in KeptHits(hits) <==> exists hit :: hit in hits && KeptOf(hit) == Some(e)
    ensures e in KeptHits(hits) ==> e.first.packages == []
    decreases |hits|
  {
    if hits != [] {
      var init, last := hits[..|hits| - 1], hits[|hits| - 1];
      KeptHitsMembers(init, e);
      assert hits == init + [last];
      if exists hit :: hit in hits && KeptOf(hit) == Some(e) {
        var hit :| hit in hits && KeptOf(hit) == Some(e);
        if hit != last {
          assert hit in init;
        }
      }
    }
  }

  lemma KeptHitsStep(hits: seq<Hit>, i: nat)
    requires i < |hits|
    ensures KeptHits(hits[..i + 1]) == KeptHits(hits[..i]) + match KeptOf(hits[i]) case None => [] case Some(e) => [e]
  {
    assert hits[..i + 1][..i] == hits[..i];
  }

  /** One turn of the grouping loop, for a kept hit. */
  function AddKept(flakes: Dict<string, Flake>, e: Kept): Dict<string, Flake>
  {
    Set(flakes, e.key, Grown(flakes, e))
  }

  /** The flake of `e`'s key (a new one when the key is not there yet) with `e`'s package added. */
  function Grown(flakes: Dict<string, Flake>, e: Kept): Flake
  {
    var flake := match Get(flakes, e.key) case Some(f) => f case None => e.first;
    flake.(packages := AddPackage(flake.packages, e.attrName))
  }

  function GroupKept(kept: seq<Kept>): Dict<string, Flake>
    decreases |kept|
  {
    if kept == [] then [] else AddKept(GroupKept(kept[..|kept| - 1]), kept[|kept| - 1])
  }

  /** The flakes of a list of hits, keyed and ordered by first appearance. */
  function Grouped(hits: seq<Hit>): Dict<string, Flake>
  {
    GroupKept(KeptHits(hits))
  }

  lemma GroupKeptStep(flakes: Dict<string, Flake>, kept: seq<Kept>, e: Kept)
    requires flakes == GroupKept(kept)
    ensures AddKept(flakes, e) == GroupKept(kept + [e])
  {
    assert (kept + [e])[..|kept|] == kept;
  }

  method GroupHits(hits: seq<Hit>) returns (flakes: Dict<string, Flake>)
    ensures flakes == Grouped(hits)
  {
    flakes := [];
    ghost var kept: seq<Kept> := [];
    var i := 0;
    while i < |hits|
      invariant 0 <= i <= |hits| && kept == KeptHits(hits[..i]) && flakes == GroupKept(kept)
    {
      var hit := hits[i];
      KeptHitsStep(hits, i);
      var key := KeyOf(hit);
      if key.Some? {
        ghost var e := Kept(key.value.0, NewFlake(hit, key.value.1), hit.packageAttrName);
        GroupKeptStep(flakes, kept, e);
        assert AddKept(flakes, e) == GroupKept(kept + [e]);
        var flake;
        if !HasKey(flakes, key.value.0) {
          flake := NewFlake(hit, key.value.1);
        } else {
          flake := Get(flakes, key.value.0).value;
        }
        if hit.packageAttrName != "" {
          flake := flake.(packages := AddPackage(flake.packages, hit.packageAttrName));
        }
        flakes := Set(flakes, key.value.0, flake);
        kept := kept + [e];
      }
      i := i + 1;
    }
    assert hits[..i] == hits;
  }

  predicate KeyedAt(kept: seq<Kept>, j: int, key: string)
  {
    0 <= j < |kept| && kept[j].key == key
  }

  /** Adding a kept hit adds its key when new and keeps keys distinct. */
  lemma AddKeptKeys(prev: Dict<string, Flake>, e: Kept, key: string)
    ensures HasKey(AddKept(prev, e), key) <==> HasKey(prev, key) || key == e.key
    ensures Valid(prev) ==> Valid(AddKept(prev, e))
  {
    SetHasKey(prev, e.key, Grown(prev, e), key);
    SetValid(prev, e.key, Grown(prev, e));
  }

  /** Adding a kept hit leaves the other flakes alone. */
  lemma AddKeptOther(prev: Dict<string, Flake>, e: Kept, key: string)
    requires e.key != key
    ensures Get(AddKept(prev, e), key) == Get(prev, key)
  {
    SetOther(prev, e.key, Grown(prev, e), key);
  }

  /** Adding a kept hit creates its flake when new, and otherwise adds only its package. */
  lemma AddKeptSame(prev: Dict<string, Flake>, e: Kept)
    ensures var flake := match Get(prev, e.key) case Some(f) => f case None => e.first;
      Get(AddKept(prev, e), e.key) == Some(flake.(packages := AddPackage(flake.packages, e.attrName)))
  {
  }

  /** A key is among a list's kept hits when it is among all but the last, or is the last one's. */
  lemma KeyedSplit(kept: seq<Kept>, init: seq<Kept>, key: string)
    requires |kept| > 0 && init == kept[..|kept| - 1]
    ensures (exists j :: KeyedAt(kept, j, key)) <==> (exists j :: KeyedAt(init, j, key)) || kept[|kept| - 1].key == key
  {
    if kept[|kept| - 1].key == key {
      assert KeyedAt(kept, |kept| - 1, key);
    }
    if exists j :: KeyedAt(init, j, key) {
      var j :| KeyedAt(init, j, key);
      assert KeyedAt(kept, j, key);
    }
    if exists j :: KeyedAt(kept, j, key) {
      var j :| KeyedAt(kept, j, key);
      if j < |init| {
        assert KeyedAt(init, j, key);
      }
    }
  }

  /** Each key is that of some kept hit, and each kept hit's key is there. */
  lemma {:induction false} GroupedKeys(kept: seq<Kept>, key: string)
    ensures HasKey(GroupKept(kept), key) <==> exists j :: KeyedAt(kept, j, key)
    decreases |kept|
  {
    if kept != [] {
      var init, last := kept[..|kept| - 1], kept[|kept| - 1];
      GroupedKeys(init, key);
      AddKeptKeys(GroupKept(init), last, key);
      KeyedSplit(kept, init, key);
    }
  }

  /** No key appears twice among the flakes. */
  lemma {:induction false} GroupedValid(kept: seq<Kept>)
    ensures Valid(GroupKept(kept))
    decreases |kept|
  {
    if kept != [] {
      var init, last := kept[..|kept| - 1], kept[|kept| - 1];
      GroupedValid(init);
      AddKeptKeys(GroupKept(init), last, last.key);
    }
  }

  /** The record of a flake apart from its packages. */
  function Fixed(flake: Flake): Flake
  {
    flake.(packages := [])
  }

  /** Adding a kept hit keeps what an existing flake records, and a new flake records the hit's own. */
  lemma AddKeptFixed(prev: Dict<string, Flake>, e: Kept)
    ensures HasKey(prev, e.key) ==> Fixed(Get(AddKept(prev, e), e.key).value) == Fixed(Get(prev, e.key).value)
    ensures !HasKey(prev, e.key) ==> Fixed(Get(AddKept(prev, e), e.key).value) == Fixed(e.first)
  {
    AddKeptSame(prev, e);
  }

  /**
   * The first kept hit of a flake fixes its name, description and source;
   * later hits leave them alone.
   */
  lemma {:induction false} GroupedFirst(kept: seq<Kept>, i: nat, key: string)
    requires i < |kept| && kept[i].key == key
    requires forall j :: 0 <= j < i ==> !KeyedAt(kept, j, key)
    ensures HasKey(GroupKept(kept), key)
    ensures Fixed(Get(GroupKept(kept), key).value) == Fixed(kept[i].first)
    decreases |kept|
  {
    var init, last := kept[..|kept| - 1], kept[|kept| - 1];
    var prev := GroupKept(init);
    AddKeptKeys(prev, last, key);
    if i < |init| {
      forall j | 0 <= j < i ensures !KeyedAt(init, j, key) {
        assert !KeyedAt(kept, j, key);
      }
      GroupedFirst(init, i, key);
      if last.key != key {
        AddKeptOther(prev, last, key);
      } else {
        AddKeptFixed(prev, last);
      }
    } else {
      GroupedKeys(init, key);
      if HasKey(prev, key) {
        var j :| KeyedAt(init, j, key);
        assert KeyedAt(kept, j, key);
        assert false;
      }
      AddKeptFixed(prev, last);
    }
  }

  /** The kept hit at `j` belongs to the flake `key` and brings package `p`. */
  predicate PackageAt(kept: seq<Kept>, j: int, key: string, p: string)
  {
    KeyedAt(kept, j, key) && kept[j].attrName == p
  }

  lemma AddPackageHas(packages: seq<string>, attrName: string, p: string)
    ensures p in AddPackage(packages, attrName) <==> p in packages || (attrName != "" && p == attrName)
  {
  }

  /** The packages of a flake after one more of its hits. */
  lemma PackagesAdded(prev: Dict<string, Flake>, e: Kept, p: string)
    requires e.first.packages == []
    ensures p in Get(AddKept(prev, e), e.key).value.packages <==>
      (HasKey(prev, e.key) && p in Get(prev, e.key).value.packages) || (p != "" && p == e.attrName)
  {
    AddKeptSame(prev, e);
    var flake := match Get(prev, e.key) case Some(f) => f case None => e.first;
    AddPackageHas(flake.packages, e.attrName, p);
  }

  /** A kept hit brings `p` to `key` when one of all but the last does, or the last one does. */
  lemma PackageSplit(kept: seq<Kept>, init: seq<Kept>, key: string, p: string)
    requires |kept| > 0 && init == kept[..|kept| - 1]
    ensures (exists j :: PackageAt(kept, j, key, p)) <==> (exists j :: PackageAt(init, j, key, p)) || PackageAt(kept, |kept| - 1, key, p)
  {
    if exists j :: PackageAt(init, j, key, p) {
      var j :| PackageAt(init, j, key, p);
      assert PackageAt(kept, j, key, p);
    }
    if exists j :: PackageAt(kept, j, key, p) {
      var j :| PackageAt(kept, j, key, p);
      if j < |init| {
        assert PackageAt(init, j, key, p);
      }
    }
  }

  /** A flake's packages are the non-empty attribute names of its kept hits, each once. */
  lemma {:induction false} GroupedPackages(kept: seq<Kept>, key: string, p: string)
    requires forall e :: e in kept ==> e.first.packages == []
    requires HasKey(GroupKept(kept), key)
    ensures p in Get(GroupKept(kept), key).value.packages <==> p != "" && exists j :: PackageAt(kept, j, key, p)
    decreases |kept|
  {
    var init, last := kept[..|kept| - 1], kept[|kept| - 1];
    var prev := GroupKept(init);
    PackageSplit(kept, init, key, p);
    GroupedKeys(init, key);
    AddKeptKeys(prev, last, key);
    if HasKey(prev, key) {
      GroupedPackages(init, key, p);
    }
    if last.key != key {
      AddKeptOther(prev, last, key);
    } else {
      PackagesAdded(prev, last, p);
    }
  }

  /** The hit has a key, and it is `key`. */
  predicate KeyedBy(hit: Hit, key: string)
  {
    KeyOf(hit).Some? && KeyOf(hit).value.0 == key
  }

  /** The flakes are keyed by exactly the keys of the kept hits, each once. */
  lemma GroupedHasKey(hits: seq<Hit>, key: string)
    ensures HasKey(Grouped(hits), key) <==> exists hit :: hit in hits && KeyedBy(hit, key)
    ensures Valid(Grouped(hits))
  {
    var kept := KeptHits(hits);
    GroupedKeys(kept, key);
    GroupedValid(kept);
    if exists j :: KeyedAt(kept, j, key) {
      var j :| KeyedAt(kept, j, key);
      HitOfKept(hits, j);
    }
    if exists hit :: hit in hits && KeyedBy(hit, key) {
      var hit :| hit in hits && KeyedBy(hit, key);
      var j := KeptOfHit(hits, hit);
      assert KeyedAt(kept, j, key);
    }
  }

  /** Each kept record comes from a hit with its key and attribute name... */
  lemma HitOfKept(hits: seq<Hit>, j: nat)
    requires j < |KeptHits(hits)|
    ensures var e := KeptHits(hits)[j];
      exists hit :: hit in hits && KeyedBy(hit, e.key) && hit.packageAttrName == e.attrName
  {
    var e := KeptHits(hits)[j];
    KeptHitsMembers(hits, e);
    var hit :| hit in hits && KeptOf(hit) == Some(e);
    assert KeyedBy(hit, e.key);
  }

  /** ...and each hit with a key has its record among the kept ones. */
  lemma KeptOfHit(hits: seq<Hit>, hit: Hit) returns (j: nat)
    requires hit in hits && KeptOf(hit).Some?
    ensures j < |KeptHits(hits)| && KeptHits(hits)[j] == KeptOf(hit).value
  {
    var kept := KeptHits(hits);
    KeptHitsMembers(hits, KeptOf(hit).value);
    j :| 0 <= j < |kept| && kept[j] == KeptOf(hit).value;
  }

  /** A flake lists the non-empty attribute names of exactly the hits grouped under it. */
  lemma GroupedHitPackages(hits: seq<Hit>, key: string, p: string)
    requires HasKey(Grouped(hits), key)
    ensures p in Get(Grouped(hits), key).value.packages <==>
      p != "" && exists hit :: hit in hits && KeyedBy(hit, key) && hit.packageAttrName == p
  {
    var kept := KeptHits(hits);
    forall e | e in kept ensures e.first.packages == [] {
      KeptHitsMembers(hits, e);
    }
    GroupedPackages(kept, key, p);
    if exists j :: PackageAt(kept, j, key, p) {
      var j :| PackageAt(kept, j, key, p);
      HitOfKept(hits, j);
    }
    if exists hit :: hit in hits && KeyedBy(hit, key) && hit.packageAttrName == p {
      var hit :| hit in hits && KeyedBy(hit, key) && hit.packageAttrName == p;
      var j := KeptOfHit(hits, hit);
      assert PackageAt(kept, j, key, p);
    }
  }

  // ---------------------------------------------------------------------------
  // Output
  // ---------------------------------------------------------------------------

  /** The package line: the first five names in order, and the total when there are more. */
  function PackagesLine(packages: seq<string>): string
  {
    var shown := Take(SortBy(packages, StrLe), 5);
    if |packages| > 5 then "  Packages: " + Join(shown, ", ") + ", ... (" + NatToString(|packages|) + " total)"
    else "  Packages: " + Join(shown, ", ")
  }

  /**
   * The line shows the alphabetically first five packages in order, none left
   * out sorts before a shown one, and the total is given exactly when some are
   * left out.
   */
  lemma PackagesShown(packages: seq<string>)
    ensures var shown := Take(SortBy(packages, StrLe), 5);
      && |shown| == (if |packages| < 5 then |packages| else 5)
      && Sorted(shown, StrLe)
      && (forall p :: p in shown ==> p in packages)
      && (forall p, q :: p in packages && p !in shown && q in shown ==> StrLe(q, p))
  {
    var shown := Take(SortBy(packages, StrLe), 5);
    StrLeOrder();
    SortBySorted(packages, StrLe);
    forall p | p in shown ensures p in packages {
      SortByElements(packages, StrLe, p);
    }
    forall p | p in packages && p !in shown ensures forall q :: q in shown ==> StrLe(q, p) {
      TakeSortedTop(packages, StrLe, 5, p);
    }
  }

  function FlakeLines(flake: Flake): seq<string>
  {
    ["* " + flake.name]
      + (if flake.owner != "" && flake.repo != "" then ["  Repository: " + flake.owner + "/" + flake.repo]
         else if flake.url != "" then ["  URL: " + flake.url]
         else [])
      + (if flake.description != "" then ["  " + Truncate(flake.description, 200)] else [])
      + (if flake.packages != [] then [PackagesLine(flake.packages)] else [])
      + [""]
  }

  /**
   * A flake's block: its name first and a blank line last; the location line
   * prefers owner/repo over the url; the description is cut to 200 characters
   * plus "..."; the package line, just before the blank, ends with the total
   * exactly when more than five packages were collected.
   */
  lemma FlakeLinesSpec(flake: Flake)
    ensures var lines := FlakeLines(flake);
      var located := (flake.owner != "" && flake.repo != "") || flake.url != "";
      && |lines| == 2 + (if located then 1 else 0) + (if flake.description != "" then 1 else 0)
         + (if flake.packages != [] then 1 else 0)
      && lines[0] == "* " + flake.name && lines[|lines| - 1] == ""
      && (flake.owner != "" && flake.repo != "" ==> lines[1] == "  Repository: " + flake.owner + "/" + flake.repo)
      && (!(flake.owner != "" && flake.repo != "") && flake.url != "" ==> lines[1] == "  URL: " + flake.url)
      && (flake.description != "" ==>
           var d := lines[if located then 2 else 1];
           && (|flake.description| <= 200 ==> d == "  " + flake.description)
           && (|flake.description| > 200 ==> |d| == 205 && d[2..202] == flake.description[..200] && EndsWith(d, "...")))
      && (flake.packages != [] ==>
           StartsWith(lines[|lines| - 2], "  Packages: ")
           && (|flake.packages| > 5 ==> EndsWith(lines[|lines| - 2], ", ... (" + NatToString(|flake.packages|) + " total)")))
  {
    var lines := FlakeLines(flake);
    if flake.packages != [] {
      var shown := Take(SortBy(flake.packages, StrLe), 5);
      var line := PackagesLine(flake.packages);
      assert lines[|lines| - 2] == line;
      if |flake.packages| > 5 {
        var tail := ", ... (" + NatToString(|flake.packages|) + " total)";
        assert line == ("  Packages: " + Join(shown, ", ")) + tail;
        assert line[|line| - |tail|..] == tail;
      }
    }
    if flake.description != "" && |flake.description| > 200 {
      var d := "  " + Truncate(flake.description, 200);
      assert d == "  " + flake.description[..200] + "...";
      assert d[|d| - 3..] == "...";
    }
  }

  /** The header counts matches only when the index reports more hits than there are flakes. */
  function Header(query: string, total: nat, unique: nat): string
  {
    if total > unique then "Found " + WithThousands(total) + " matches (" + NatToString(unique) + " unique flakes) for '" + query + "':"
    else "Found " + NatToString(unique) + " flakes matching '" + query + "':"
  }

  function Values(flakes: Dict<string, Flake>): seq<Flake>
  {
    seq(|flakes|, i requires 0 <= i < |flakes| => flakes[i].1)
  }

  function FlakesLines(flakes: Dict<string, Flake>): seq<string>
  {
    FlatMap(Values(flakes), FlakeLines)
  }

  /** The search result text for the hits the index returned and its total. */
  function SearchText(query: string, hits: seq<Hit>, total: nat): string
  {
    if hits == [] then "No flakes found matching '" + query + "'"
    else
      var flakes := Grouped(hits);
      Strip(Join([Header(query, total, |flakes|) + "\n"] + FlakesLines(flakes), "\n"))
  }

  method SearchFlakes(query: string, hits: seq<Hit>, total: nat) returns (text: string)
    ensures text == SearchText(query, hits, total)
  {
    if hits == [] {
      return "No flakes found matching '" + query + "'";
    }
    var flakes := GroupHits(hits);
    var lines := ListFlakes(flakes);
    text := Strip(Join([Header(query, total, |flakes|) + "\n"] + lines, "\n"));
  }

  /** The lines of every flake, in the order the flakes were first seen. */
  method ListFlakes(flakes: Dict<string, Flake>) returns (lines: seq<string>)
    ensures lines == FlakesLines(flakes)
  {
    lines := [];
    var values := Values(flakes);
    var i := 0;
    while i < |values|
      invariant 0 <= i <= |values| && lines == FlatMap(values[..i], FlakeLines)
    {
      FlatMapStep(values, FlakeLines, i);
      lines := lines + FlakeLines(values[i]);
      i := i + 1;
    }
    assert values[..i] == values;
  }

  lemma HeaderBounds(query: string, total: nat, unique: nat)
    ensures var h := Header(query, total, unique); |h| > 0 && h[0] == 'F' && h[|h| - 1] == ':'
  {
  }

  /**
   * The header counts the index's matches and the unique flakes exactly when
   * the index reports more matches than there are flakes.
   */
  lemma HeaderSpec(query: string, total: nat, unique: nat)
    ensures total > unique ==> "Found " + WithThousands(total) + " matches (" + NatToString(unique) + " unique flakes)" <= Header(query, total, unique)
    ensures total <= unique ==> "Found " + NatToString(unique) + " flakes matching '" + query + "':" == Header(query, total, unique)
  {
  }

  /** Without hits the text says so; otherwise it opens with the header for the grouped flakes. */
  lemma SearchTextSpec(query: string, hits: seq<Hit>, total: nat)
    ensures hits == [] ==> SearchText(query, hits, total) == "No flakes found matching '" + query + "'"
    ensures hits != [] ==> Header(query, total, |Grouped(hits)|) <= SearchText(query, hits, total)
  {
    if hits != [] {
      var unique := |Grouped(hits)|;
      HeaderBounds(query, total, unique);
      StripJoinHead(Header(query, total, unique), FlakesLines(Grouped(hits)));
    }
  }
}
