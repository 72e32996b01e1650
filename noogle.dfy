/**
 * Noogle, the Nix function search at noogle.dev (mcp_nixos/sources/noogle.py):
 * reading a function document's path, aliases and type signature, scoring and
 * ranking search hits, choosing the function `info` describes, and grouping
 * paths into categories for the statistics and the browser.
 */
module Noogle {
  import opened Wrappers
  import opened Text
  import opened Dict
  import opened Sorting
  import opened Lists
  import opened Utils
  import opened Categories
  import opened Browsing

  // ---------------------------------------------------------------------------
  // Documents
  // ---------------------------------------------------------------------------

  /** An alias: a list of path parts, or any other value as its `str()`. */
  datatype Alias = AliasParts(parts: seq<string>) | AliasText(text: string)

  /** The `meta` record: the path parts as text, the title ("" when missing) and the aliases. */
  datatype Meta = Meta(path: seq<string>, title: string, aliases: seq<Alias>)

  /**
   * The `content` record: the signature and the type ("" when missing), and
   * the description with its HTML already removed.
   */
  datatype Content = Content(signature: string, typeInfo: string, description: string)

  /**
   * A function document. `meta` is `None` when it is missing or an empty
   * record; a `meta` present but not a record (JSON null included) makes the
   * path lookup raise, so the tool answers with its generic error and such
   * documents are not modelled. `content` is `None` when it is missing, empty
   * or not a record, all of which the source reads as no content.
   */
  datatype Doc = Doc(meta: Option<Meta>, content: Option<Content>)

  /** The dotted path when there is one, else the title, else "". */
  function FunctionPath(doc: Doc): string
  {
    match doc.meta
    case None => ""
    case Some(m) => if m.path != [] then Join(m.path, ".") else m.title
  }

  /** The path splits back into its parts when none of them holds a dot. */
  lemma FunctionPathSpec(doc: Doc)
    ensures doc.meta.None? ==> FunctionPath(doc) == ""
    ensures doc.meta.Some? && doc.meta.value.path == [] ==> FunctionPath(doc) == doc.meta.value.title
    ensures doc.meta.Some? && doc.meta.value.path != [] && (forall i :: 0 <= i < |doc.meta.value.path| ==> '.' !in doc.meta.value.path[i])
      ==> Split(FunctionPath(doc), '.') == doc.meta.value.path
  {
    if doc.meta.Some? && doc.meta.value.path != [] && (forall i :: 0 <= i < |doc.meta.value.path| ==> '.' !in doc.meta.value.path[i]) {
      SplitJoin(doc.meta.value.path, '.');
    }
  }

  function AliasName(a: Alias): string
  {
    match a
    case AliasParts(parts) => Join(parts, ".")
    case AliasText(text) => text
  }

  /** One name per alias, in order; none without a `meta` record. */
  function Aliases(doc: Doc): (r: seq<string>)
    ensures doc.meta.None? ==> r == []
    ensures doc.meta.Some? ==> |r| == |doc.meta.value.aliases|
    ensures doc.meta.Some? ==> forall i :: 0 <= i < |r| ==> r[i] == AliasName(doc.meta.value.aliases[i])
  {
    match doc.meta
    case None => []
    case Some(m) => seq(|m.aliases|, i requires 0 <= i < |m.aliases| => AliasName(m.aliases[i]))
  }

  /** A list alias splits back into its parts when none of them holds a dot. */
  lemma AliasPartsRoundTrip(parts: seq<string>)
    requires |parts| > 0 && forall i :: 0 <= i < |parts| ==> '.' !in parts[i]
    ensures Split(AliasName(AliasParts(parts)), '.') == parts
  {
    SplitJoin(parts, '.');
  }

  /** The signature, or failing that the type, or "". */
  function TypeSignature(doc: Doc): (r: string)
    ensures doc.content.None? ==> r == ""
    ensures doc.content.Some? && doc.content.value.signature != "" ==> r == doc.content.value.signature
    ensures doc.content.Some? && doc.content.value.signature == "" ==> r == doc.content.value.typeInfo
  {
    match doc.content
    case None => ""
    case Some(c) => if c.signature != "" then c.signature else if c.typeInfo != "" then c.typeInfo else ""
  }

  function Description(doc: Doc): string
  {
    match doc.content
    case None => ""
    case Some(c) => c.description
  }

  // ---------------------------------------------------------------------------
  // Search
  // ---------------------------------------------------------------------------

  predicate AnyAliasContains(aliases: seq<string>, query: string)
  {
    exists i :: 0 <= i < |aliases| && Contains(Lower(aliases[i]), query)
  }

  /** The score of a document for a lower-cased query; 0 leaves it out. */
  function Score(doc: Doc, query: string): nat
  {
    var path := Lower(FunctionPath(doc));
    if path == query then 100
    else if Contains(path, query) then
      (if EndsWith(path, query) || EndsWith(path, "." + query) then 50 else 30)
    else if AnyAliasContains(Aliases(doc), query) then 40
    else if Contains(Lower(Description(doc)), query) then 10
    else 0
  }

  /** A path ending in "." + query also ends in the query. */
  lemma DottedSuffix(path: string, query: string)
    requires EndsWith(path, "." + query)
    ensures EndsWith(path, query)
  {
    assert path[|path| - |query|..] == path[|path| - |query| - 1..][1..];
  }

  /**
   * A document is a hit exactly when the query occurs in its path, in one of
   * its aliases or in its description, ignoring case.
   */
  lemma ScoreHit(doc: Doc, query: string)
    ensures Score(doc, query) > 0 <==>
      Contains(Lower(FunctionPath(doc)), query) || AnyAliasContains(Aliases(doc), query)
      || Contains(Lower(Description(doc)), query)
  {
    var path := Lower(FunctionPath(doc));
    if path == query {
      ContainsSelf(path);
    }
  }

  /**
   * The ladder: 100 for the exact path; 50 when the path ends with the query;
   * 30 when it only holds it elsewhere; otherwise 40 for an alias and 10 for
   * the description.
   */
  lemma ScoreLadder(doc: Doc, query: string)
    ensures var path := Lower(FunctionPath(doc));
      && (Score(doc, query) == 100 <==> path == query)
      && (Score(doc, query) == 50 <==> path != query && EndsWith(path, query))
      && (Score(doc, query) == 30 <==> Contains(path, query) && !EndsWith(path, query))
      && (Score(doc, query) == 40 <==> !Contains(path, query) && AnyAliasContains(Aliases(doc), query))
      && (Score(doc, query) == 10 <==>
            !Contains(path, query) && !AnyAliasContains(Aliases(doc), query) && Contains(Lower(Description(doc)), query))
  {
    var path := Lower(FunctionPath(doc));
    if EndsWith(path, query) {
      EndsWithContains(path, query);
    }
    if EndsWith(path, "." + query) {
      DottedSuffix(path, query);
    }
    if path == query {
      assert EndsWith(path, query);
    }
  }

  /** A hit: its score, its path and the document, as the search collects them. */
  datatype Match = Match(score: nat, path: string, doc: Doc)

  /** The hits among `docs`, in document order. */
  function MatchesOf(docs: seq<Doc>, query: string): seq<Match>
    decreases |docs|
  {
    if docs == [] then []
    else
      var doc := docs[|docs| - 1];
      MatchesOf(docs[..|docs| - 1], query)
        + if Score(doc, query) > 0 then [Match(Score(doc, query), FunctionPath(doc), doc)] else []
  }

  /** The hits are exactly the documents with a positive score, with that score and their path. */
  lemma {:induction false} MatchesOfMembers(docs: seq<Doc>, query: string, m: Match)
    ensures m in MatchesOf(docs, query) <==>
      m.doc in docs && m.score == Score(m.doc, query) && m.score > 0 && m.path == FunctionPath(m.doc)
    decreases |docs|
  {
    if docs != [] {
      MatchesOfMembers(docs[..|docs| - 1], query, m);
      assert docs == docs[..|docs| - 1] + [docs[|docs| - 1]];
    }
  }

  method SearchMatches(docs: seq<Doc>, query: string) returns (matches: seq<Match>)
    ensures matches == MatchesOf(docs, Lower(query))
  {
    var queryLower := Lower(query);
    matches := [];
    var i := 0;
    while i < |docs|
      invariant 0 <= i <= |docs| && matches == MatchesOf(docs[..i], queryLower)
    {
      var score := Score(docs[i], queryLower);
      if score > 0 {
        matches := matches + [Match(score, FunctionPath(docs[i]), docs[i])];
      }
      assert docs[..i + 1][..i] == docs[..i];
      i := i + 1;
    }
    assert docs[..i] == docs;
  }

  /** The sort key `(-score, path)`: higher scores first, then paths in order. */
  predicate MatchLe(a: Match, b: Match)
  {
    a.score > b.score || (a.score == b.score && StrLe(a.path, b.path))
  }

  lemma MatchLeOrder()
    ensures TotalPreorder(MatchLe)
  {
    StrLeOrder();
  }

  /** The hits shown: sorted by the key and cut to `limit`. */
  function Ranked(docs: seq<Doc>, query: string, limit: int): seq<Match>
  {
    Take(SortBy(MatchesOf(docs, Lower(query)), MatchLe), limit)
  }

  /**
   * The shown hits are hits, in key order, `limit` of them when there are
   * enough, and no hit left out ranks before a shown one.
   */
  lemma RankedSpec(docs: seq<Doc>, query: string, limit: int)
    ensures var all, shown := MatchesOf(docs, Lower(query)), Ranked(docs, query, limit);
      && Sorted(shown, MatchLe)
      && (limit >= 0 ==> |shown| == if limit < |all| then limit else |all|)
      && (forall m :: m in shown ==> m in all)
      && (forall m, t :: m in all && m !in shown && t in shown ==> MatchLe(t, m))
  {
    var all := MatchesOf(docs, Lower(query));
    var sorted := SortBy(all, MatchLe);
    var shown := Ranked(docs, query, limit);
    MatchLeOrder();
    SortBySorted(all, MatchLe);
    forall m | m in shown ensures m in all {
      SortByElements(all, MatchLe, m);
    }
    forall m | m in all && m !in shown ensures forall t :: t in shown ==> MatchLe(t, m) {
      TakeSortedTop(all, MatchLe, limit, m);
    }
  }

  /** When some path equals the query, the first hit shown is an exact one. */
  lemma ExactHitFirst(docs: seq<Doc>, query: string, limit: int, d: Doc)
    requires d in docs && Lower(FunctionPath(d)) == Lower(query) && limit > 0
    ensures |Ranked(docs, query, limit)| > 0 && Ranked(docs, query, limit)[0].score == 100
  {
    var all := MatchesOf(docs, Lower(query));
    var sorted := SortBy(all, MatchLe);
    var m := Match(100, FunctionPath(d), d);
    assert Score(d, Lower(query)) == 100;
    MatchesOfMembers(docs, Lower(query), m);
    SortByElements(all, MatchLe, m);
    var j :| 0 <= j < |sorted| && sorted[j] == m;
    var top := sorted[0];
    assert MatchLe(top, m) by {
      if j > 0 {
        MatchLeOrder();
        SortBySorted(all, MatchLe);
      } else {
        StrLeTotal(m.path, m.path);
      }
    }
    SortByElements(all, MatchLe, top);
    MatchesOfMembers(docs, Lower(query), top);
    ScoreAtMost(top.doc, Lower(query));
    assert Ranked(docs, query, limit)[0] == top;
  }

  lemma ScoreAtMost(doc: Doc, query: string)
    ensures Score(doc, query) <= 100
  {
  }

  /** The lines of one hit: path, type, description and the first three aliases. */
  function HitLines(m: Match): seq<string>
  {
    var signature, description, aliases := TypeSignature(m.doc), Description(m.doc), Aliases(m.doc);
    ["* " + m.path]
      + (if signature != "" then ["  Type: " + Truncate(signature, 100)] else [])
      + (if description != "" then ["  " + Truncate(description, 200)] else [])
      + (if aliases != [] then ["  Aliases: " + Join(Take(aliases, 3), ", ")] else [])
      + [""]
  }

  function HitsLines(hits: seq<Match>): seq<string>
  {
    FlatMap(hits, HitLines)
  }

  function SearchHeader(query: string, count: nat): string
  {
    "Found " + NatToString(count) + " Noogle functions matching '" + query + "':"
  }

  /** The search result text. */
  function SearchText(docs: seq<Doc>, query: string, limit: int): string
  {
    if MatchesOf(docs, Lower(query)) == [] then "No Noogle functions found matching '" + query + "'"
    else
      var shown := Ranked(docs, query, limit);
      Strip(Join([SearchHeader(query, |shown|) + "\n"] + HitsLines(shown), "\n"))
  }

  method Search(docs: seq<Doc>, query: string, limit: int) returns (text: string)
    ensures text == SearchText(docs, query, limit)
  {
    var matches := SearchMatches(docs, query);
    if matches == [] {
      return "No Noogle functions found matching '" + query + "'";
    }
    matches := SortBy(matches, MatchLe);
    matches := Take(matches, limit);
    var body: seq<string> := [];
    var i := 0;
    while i < |matches|
      invariant 0 <= i <= |matches| && body == HitsLines(matches[..i])
    {
      FlatMapStep(matches, HitLines, i);
      body := body + HitLines(matches[i]);
      i := i + 1;
    }
    assert matches[..i] == matches;
    text := Strip(Join([SearchHeader(query, |matches|) + "\n"] + body, "\n"));
  }

  /**
   * Without hits the text says so; otherwise it opens with the number of hits
   * shown, which is `limit` when there are more.
   */
  lemma SearchTextSpec(docs: seq<Doc>, query: string, limit: int)
    ensures MatchesOf(docs, Lower(query)) == [] ==>
      SearchText(docs, query, limit) == "No Noogle functions found matching '" + query + "'"
    ensures MatchesOf(docs, Lower(query)) != [] ==>
      SearchHeader(query, |Ranked(docs, query, limit)|) <= SearchText(docs, query, limit)
  {
    if MatchesOf(docs, Lower(query)) != [] {
      var header := SearchHeader(query, |Ranked(docs, query, limit)|);
      HeaderBounds(query, |Ranked(docs, query, limit)|);
      StripJoinHead(header, HitsLines(Ranked(docs, query, limit)));
    }
  }

  lemma HeaderBounds(query: string, count: nat)
    ensures var h := SearchHeader(query, count); |h| > 0 && h[0] == 'F' && h[|h| - 1] == ':'
  {
  }

  // ---------------------------------------------------------------------------
  // Info
  // ---------------------------------------------------------------------------

  /** The path or one of the aliases equals the lower-cased name, ignoring case. */
  predicate IsExact(doc: Doc, name: string)
  {
    Lower(FunctionPath(doc)) == name || exists i :: 0 <= i < |Aliases(doc)| && Lower(Aliases(doc)[i]) == name
  }

  /** The position of the first exact document. */
  function FirstExact(docs: seq<Doc>, name: string): (r: Option<nat>)
    ensures r.Some? ==> r.value < |docs| && IsExact(docs[r.value], name)
    ensures r.Some? ==> forall j :: 0 <= j < r.value ==> !IsExact(docs[j], name)
    ensures r.None? ==> forall j :: 0 <= j < |docs| ==> !IsExact(docs[j], name)
    decreases |docs|
  {
    if docs == [] then None
    else if IsExact(docs[0], name) then Some(0)
    else
      match FirstExact(docs[1..], name)
      case None => None
      case Some(k) => Some(k + 1)
  }

  /** The paths that hold the lower-cased name, in document order. */
  function PartialPaths(docs: seq<Doc>, name: string): seq<string>
    decreases |docs|
  {
    if docs == [] then []
    else
      var path := FunctionPath(docs[|docs| - 1]);
      PartialPaths(docs[..|docs| - 1], name) + if Contains(Lower(path), name) then [path] else []
  }

  lemma {:induction false} PartialPathsMembers(docs: seq<Doc>, name: string, p: string)
    ensures p in PartialPaths(docs, name) <==>
      Contains(Lower(p), name) && exists j :: 0 <= j < |docs| && FunctionPath(docs[j]) == p
    decreases |docs|
  {
    if docs != [] {
      var init := docs[..|docs| - 1];
      PartialPathsMembers(init, name, p);
      if exists j :: 0 <= j < |init| && FunctionPath(init[j]) == p {
        var j :| 0 <= j < |init| && FunctionPath(init[j]) == p;
        assert docs[j] == init[j];
      }
      if exists j :: 0 <= j < |docs| && FunctionPath(docs[j]) == p {
        var j :| 0 <= j < |docs| && FunctionPath(docs[j]) == p;
        if j < |init| {
          assert init[j] == docs[j];
        }
      }
    }
  }

  lemma PartialPathsStep(docs: seq<Doc>, name: string, i: nat)
    requires i < |docs|
    ensures var path := FunctionPath(docs[i]);
      PartialPaths(docs[..i + 1], name) == PartialPaths(docs[..i], name) + if Contains(Lower(path), name) then [path] else []
  {
    assert docs[..i + 1][..i] == docs[..i];
  }

  /** An exact document with none before it is the one `FirstExact` finds. */
  lemma FirstExactAt(docs: seq<Doc>, name: string, k: nat)
    requires k < |docs| && IsExact(docs[k], name) && forall j :: 0 <= j < k ==> !IsExact(docs[j], name)
    ensures FirstExact(docs, name) == Some(k)
  {
    var r := FirstExact(docs, name);
    if r.None? || r.value < k {
      assert false;
    }
  }

  /** What `info` settles on. */
  datatype Lookup = Exact(doc: Doc) | Similar(paths: seq<string>) | Missing

  function LookupOf(docs: seq<Doc>, name: string): Lookup
  {
    match FirstExact(docs, Lower(name))
    case Some(i) => Exact(docs[i])
    case None =>
      var partial := PartialPaths(docs, Lower(name));
      if partial == [] then Missing else Similar(Take(partial, 5))
  }

  method FindFunction(docs: seq<Doc>, name: string) returns (lookup: Lookup)
    ensures lookup == LookupOf(docs, name)
  {
    var nameLower := Lower(name);
    var exact: Option<nat> := None;
    var partial: seq<string> := [];
    var i := 0;
    while i < |docs|
      invariant 0 <= i <= |docs|
      invariant forall j :: 0 <= j < i ==> !IsExact(docs[j], nameLower)
      invariant exact.None? && partial == PartialPaths(docs[..i], nameLower)
    {
      var path := FunctionPath(docs[i]);
      if IsExact(docs[i], nameLower) {
        exact := Some(i);
        break;
      } else if Contains(Lower(path), nameLower) {
        partial := partial + [path];
      }
      PartialPathsStep(docs, nameLower, i);
      i := i + 1;
    }
    if exact.Some? {
      var k := exact.value;
      FirstExactAt(docs, nameLower, k);
      return Exact(docs[k]);
    }
    assert docs[..i] == docs;
    if partial == [] {
      return Missing;
    }
    return Similar(Take(partial, 5));
  }

  /**
   * An exact document is the first whose path or alias equals the name;
   * suggestions come only when there is none, at most five, from paths that
   * hold the name; and the name is missing only when no path even holds it.
   */
  lemma LookupSpec(docs: seq<Doc>, name: string)
    ensures LookupOf(docs, name).Exact? ==>
      exists i :: 0 <= i < |docs| && docs[i] == LookupOf(docs, name).doc && IsExact(docs[i], Lower(name))
        && forall j :: 0 <= j < i ==> !IsExact(docs[j], Lower(name))
    ensures !LookupOf(docs, name).Exact? ==> forall j :: 0 <= j < |docs| ==> !IsExact(docs[j], Lower(name))
    ensures LookupOf(docs, name).Similar? ==>
      var ps := LookupOf(docs, name).paths;
      1 <= |ps| <= 5 && forall p :: p in ps ==>
        Contains(Lower(p), Lower(name)) && exists j :: 0 <= j < |docs| && FunctionPath(docs[j]) == p
    ensures LookupOf(docs, name).Missing? <==>
      forall j :: 0 <= j < |docs| ==> !IsExact(docs[j], Lower(name)) && !Contains(Lower(FunctionPath(docs[j])), Lower(name))
  {
    var nl := Lower(name);
    var partial := PartialPaths(docs, nl);
    forall p | p in Take(partial, 5) ensures
      Contains(Lower(p), nl) && exists j :: 0 <= j < |docs| && FunctionPath(docs[j]) == p
    {
      PartialPathsMembers(docs, nl, p);
    }
    forall j | 0 <= j < |docs| && Contains(Lower(FunctionPath(docs[j])), nl)
      ensures partial != []
    {
      PartialPathsMembers(docs, nl, FunctionPath(docs[j]));
    }
    if partial != [] {
      PartialPathsMembers(docs, nl, partial[0]);
    }
  }

  /** The error text for a name without an exact document. */
  function LookupError(lookup: Lookup, name: string): Option<string>
  {
    match lookup
    case Exact(_) => None
    case Missing => Some(Error("Noogle function '" + name + "' not found", "NOT_FOUND"))
    case Similar(paths) => Some(Error("Function '" + name + "' not found. Similar: " + Join(paths, ", "), "NOT_FOUND"))
  }

  // ---------------------------------------------------------------------------
  // Categories
  // ---------------------------------------------------------------------------

  /** The first two dot-separated segments of a path, or the whole path without a dot. */
  function CategoryKey(path: string): string
  {
    if '.' in path then
      SplitWith(path, '.');
      Join(Split(path, '.')[..2], ".")
    else path
  }

  /**
   * The category is the path up to its second dot: a prefix of the path,
   * ending where the path ends or at a dot, made of its first two segments.
   */
  lemma CategoryKeySpec(path: string)
    ensures '.' !in path ==> CategoryKey(path) == path
    ensures '.' in path ==>
      var key := CategoryKey(path);
      && |Split(path, '.')| >= 2
      && key <= path && (|key| == |path| || path[|key|] == '.')
      && Split(key, '.') == Split(path, '.')[..2]
  {
    if '.' in path {
      var parts := Split(path, '.');
      CategoryKeyPair(path);
      JoinSplit(path, '.');
      JoinTail(parts, ".");
      SplitJoin(parts[..2], '.');
    }
  }

  lemma CategoryKeyPair(path: string)
    requires '.' in path
    ensures var parts := Split(path, '.');
      |parts| >= 2 && parts[..2] == [parts[0], parts[1]] && CategoryKey(path) == parts[0] + "." + parts[1]
  {
    var parts := Split(path, '.');
    SplitWith(path, '.');
    assert parts[..2] == [parts[0], parts[1]];
    JoinPair(parts[0], parts[1], ".");
  }

  /** The category of each document, in order. */
  function CategoryKeys(docs: seq<Doc>): (keys: seq<string>)
    ensures |keys| == |docs|
    decreases |docs|
  {
    if docs == [] then [] else CategoryKeys(docs[..|docs| - 1]) + [CategoryKey(FunctionPath(docs[|docs| - 1]))]
  }

  lemma CategoryKeysStep(docs: seq<Doc>, i: nat)
    requires i < |docs|
    ensures CategoryKeys(docs[..i + 1]) == CategoryKeys(docs[..i]) + [CategoryKey(FunctionPath(docs[i]))]
  {
    assert docs[..i + 1][..i] == docs[..i];
  }

  /** `categories[cat] = categories.get(cat, 0) + 1` for each document in turn. */
  function CategoryCounts(docs: seq<Doc>): Dict<string, nat>
  {
    Tally(CategoryKeys(docs))
  }

  /**
   * Each category is counted once per document in it, only those categories
   * appear, and each appears once.
   */
  lemma CategoryCountsSpec(docs: seq<Doc>, cat: string)
    ensures var n := multiset(CategoryKeys(docs))[cat];
      Get(CategoryCounts(docs), cat) == if n > 0 then Some(n) else None
    ensures Valid(CategoryCounts(docs))
  {
    TallyCounts(CategoryKeys(docs), cat);
    TallyValid(CategoryKeys(docs));
  }

  predicate HasSignature(doc: Doc) { TypeSignature(doc) != "" }

  predicate HasDescription(doc: Doc) { Description(doc) != "" }

  /** The category counter, one document at a time. */
  method CountCategories(docs: seq<Doc>) returns (categories: Dict<string, nat>)
    ensures categories == CategoryCounts(docs)
  {
    categories := [];
    ghost var keys: seq<string> := [];
    var i := 0;
    while i < |docs|
      invariant 0 <= i <= |docs|
      invariant keys == CategoryKeys(docs[..i]) && categories == Tally(keys)
    {
      var cat := CategoryKey(FunctionPath(docs[i]));
      CategoryKeysStep(docs, i);
      TallyStep(categories, keys, cat);
      categories := Set(categories, cat, Get(categories, cat).GetOr(0) + 1);
      keys := keys + [cat];
      i := i + 1;
    }
    assert docs[..i] == docs;
  }

  /** The counters of the statistics: the categories, and how many documents have a signature and a description. */
  method StatsCounts(docs: seq<Doc>) returns (categories: Dict<string, nat>, withSignatures: nat, withDocs: nat)
    ensures categories == CategoryCounts(docs)
    ensures withSignatures == |Filter(docs, HasSignature)|
    ensures withDocs == |Filter(docs, HasDescription)|
  {
    categories := CountCategories(docs);
    withSignatures, withDocs := CountDocumented(docs);
  }

  /** The loop counting the functions with a signature and those with a description. */
  method CountDocumented(docs: seq<Doc>) returns (withSignatures: nat, withDocs: nat)
    ensures withSignatures == |Filter(docs, HasSignature)|
    ensures withDocs == |Filter(docs, HasDescription)|
  {
    withSignatures, withDocs := 0, 0;
    var i := 0;
    while i < |docs|
      invariant 0 <= i <= |docs|
      invariant withSignatures == |Filter(docs[..i], HasSignature)|
      invariant withDocs == |Filter(docs[..i], HasDescription)|
    {
      FilterCountStep(docs, HasSignature, i, withSignatures);
      FilterCountStep(docs, HasDescription, i, withDocs);
      if HasSignature(docs[i]) {
        withSignatures := withSignatures + 1;
      }
      if HasDescription(docs[i]) {
        withDocs := withDocs + 1;
      }
      i := i + 1;
    }
    assert docs[..i] == docs;
  }

  function TopLine(c: (string, nat)): string
  {
    "  - " + c.0 + ": " + NatToString(c.1)
  }

  /** One line per top category, in order. */
  function TopLines(top: seq<(string, nat)>): (lines: seq<string>)
    ensures |lines| == |top| && forall j :: 0 <= j < |top| ==> lines[j] == TopLine(top[j])
  {
    seq(|top|, j requires 0 <= j < |top| => TopLine(top[j]))
  }

  /**
   * The statistics text, line by line: six lines of totals, one line per top
   * category, a blank line and the closing note about the data source.
   */
  function StatsLines(docs: seq<Doc>): seq<string>
  {
    var categories := CategoryCounts(docs);
    var totals := [
      "Noogle Statistics:",
      "* Total functions: " + WithThousands(|docs|),
      "* With type signatures: " + WithThousands(|Filter(docs, HasSignature)|),
      "* With documentation: " + WithThousands(|Filter(docs, HasDescription)|),
      "* Categories: " + NatToString(|categories|),
      "* Top categories:"];
    totals + TopLines(TopCategories(categories, 10)) + ["", "Data source: noogle.dev (updated daily)"]
  }

  lemma StatsLinesSpec(docs: seq<Doc>)
    ensures var lines, top := StatsLines(docs), TopCategories(CategoryCounts(docs), 10);
      && |lines| == |top| + 8
      && lines[..6] == [
        "Noogle Statistics:",
        "* Total functions: " + WithThousands(|docs|),
        "* With type signatures: " + WithThousands(|Filter(docs, HasSignature)|),
        "* With documentation: " + WithThousands(|Filter(docs, HasDescription)|),
        "* Categories: " + NatToString(|CategoryCounts(docs)|),
        "* Top categories:"]
      && lines[6..|lines| - 2] == TopLines(top)
      && lines[|lines| - 2..] == ["", "Data source: noogle.dev (updated daily)"]
  {
    var categories := CategoryCounts(docs);
    var totals := [
      "Noogle Statistics:",
      "* Total functions: " + WithThousands(|docs|),
      "* With type signatures: " + WithThousands(|Filter(docs, HasSignature)|),
      "* With documentation: " + WithThousands(|Filter(docs, HasDescription)|),
      "* Categories: " + NatToString(|categories|),
      "* Top categories:"];
    var top := TopLines(TopCategories(categories, 10));
    var tail := ["", "Data source: noogle.dev (updated daily)"];
    var lines := StatsLines(docs);
    assert lines == totals + top + tail;
    assert lines[..6] == totals;
    assert lines[6..|lines| - 2] == top;
    assert lines[|lines| - 2..] == tail;
  }

  /** The statistics text: the counts of one pass, then the lines joined. */
  method Stats(docs: seq<Doc>) returns (text: string)
    ensures text == Join(StatsLines(docs), "\n")
  {
    var categories, withSignatures, withDocs := StatsCounts(docs);
    var top := TopCategories(categories, 10);
    var topLines: seq<string> := [];
    var i := 0;
    while i < |top|
      invariant 0 <= i <= |top| && |topLines| == i
      invariant forall j :: 0 <= j < i ==> topLines[j] == TopLine(top[j])
    {
      topLines := topLines + [TopLine(top[i])];
      i := i + 1;
    }
    assert topLines == TopLines(top);
    var totals := [
      "Noogle Statistics:",
      "* Total functions: " + WithThousands(|docs|),
      "* With type signatures: " + WithThousands(withSignatures),
      "* With documentation: " + WithThousands(withDocs),
      "* Categories: " + NatToString(|categories|),
      "* Top categories:"];
    var lines := totals + topLines + ["", "Data source: noogle.dev (updated daily)"];
    assert lines == StatsLines(docs);
    text := Join(lines, "\n");
  }

  function CategoryLine(c: (string, nat)): string
  {
    "* " + c.0 + " (" + NatToString(c.1) + " functions)"
  }

  /** The category listing the browser gives for an empty prefix. */
  function CategoryListing(docs: seq<Doc>): seq<string>
  {
    CategoryLines(CategoryCounts(docs))
  }

  function CategoryLines(categories: Dict<string, nat>): seq<string>
  {
    var sorted := ListingOrder(categories);
    ["Noogle function categories (" + NatToString(|categories|) + " total):\n"]
      + seq(|sorted|, i requires 0 <= i < |sorted| => CategoryLine(sorted[i]))
  }

  /** Every category is listed once, by decreasing count and then by name. */
  lemma CategoryListingSpec(categories: Dict<string, nat>)
    ensures var sorted := ListingOrder(categories);
      var lines := CategoryLines(categories);
      && |lines| == |categories| + 1
      && multiset(sorted) == multiset(categories)
      && Sorted(sorted, CountThenName)
      && forall i :: 0 <= i < |sorted| ==> lines[i + 1] == CategoryLine(sorted[i])
  {
    ListingOrderSpec(categories);
  }

  // ---------------------------------------------------------------------------
  // Browsing by prefix
  // ---------------------------------------------------------------------------

  /** The prefix test of the browser, which ignores case. */
  predicate UnderPrefixIgnoringCase(path: string, prefix: string)
  {
    UnderPrefix(Lower(path), Lower(prefix))
  }

  function EntryOf(doc: Doc): Entry
  {
    Entry(FunctionPath(doc), TypeSignature(doc), Description(doc))
  }

  /** The functions under a prefix, in document order. */
  function UnderPrefixOf(docs: seq<Doc>, prefix: string): seq<Entry>
    decreases |docs|
  {
    if docs == [] then []
    else
      var doc := docs[|docs| - 1];
      UnderPrefixOf(docs[..|docs| - 1], prefix) + if UnderPrefixIgnoringCase(FunctionPath(doc), prefix) then [EntryOf(doc)] else []
  }

  lemma {:induction false} UnderPrefixOfMembers(docs: seq<Doc>, prefix: string, f: Entry)
    ensures f in UnderPrefixOf(docs, prefix) <==>
      UnderPrefixIgnoringCase(f.name, prefix) && exists j :: 0 <= j < |docs| && EntryOf(docs[j]) == f
    decreases |docs|
  {
    if docs != [] {
      var init := docs[..|docs| - 1];
      UnderPrefixOfMembers(init, prefix, f);
      if exists j :: 0 <= j < |init| && EntryOf(init[j]) == f {
        var j :| 0 <= j < |init| && EntryOf(init[j]) == f;
        assert docs[j] == init[j];
      }
      if exists j :: 0 <= j < |docs| && EntryOf(docs[j]) == f {
        var j :| 0 <= j < |docs| && EntryOf(docs[j]) == f;
        if j < |init| {
          assert init[j] == docs[j];
        }
      }
    }
  }

  method BrowseMatches(docs: seq<Doc>, prefix: string) returns (matches: seq<Entry>)
    ensures matches == UnderPrefixOf(docs, prefix)
  {
    matches := [];
    var i := 0;
    while i < |docs|
      invariant 0 <= i <= |docs| && matches == UnderPrefixOf(docs[..i], prefix)
    {
      var path := FunctionPath(docs[i]);
      if UnderPrefixIgnoringCase(path, prefix) {
        matches := matches + [Entry(path, TypeSignature(docs[i]), Description(docs[i]))];
      }
      assert docs[..i + 1][..i] == docs[..i];
      i := i + 1;
    }
    assert docs[..i] == docs;
  }

  function EntryLines(f: Entry): seq<string>
  {
    ["* " + f.name]
      + (if f.signature != "" then ["  Type: " + Truncate(f.signature, 80)] else [])
      + (if f.description != "" then ["  " + Truncate(f.description, 150)] else [])
      + [""]
  }

  /** The lines of a non-empty prefix listing, before they are joined and stripped. */
  function BrowseLines(prefix: string, matches: seq<Entry>): seq<string>
  {
    ["Noogle functions with prefix '" + prefix + "' (" + NatToString(|matches|) + " found):\n"]
      + FlatMap(Shown(matches), EntryLines) + MoreLine(|matches|, "functions")
  }

  /** The browse result text. */
  function BrowseText(docs: seq<Doc>, prefix: string): string
  {
    if prefix == "" then Join(CategoryListing(docs), "\n")
    else
      var matches := UnderPrefixOf(docs, prefix);
      if matches == [] then "No Noogle functions found with prefix '" + prefix + "'"
      else Strip(Join(BrowseLines(prefix, matches), "\n"))
  }

  /** The listing ends with the number of functions left out exactly when there are more than a hundred. */
  lemma BrowseMoreSpec(prefix: string, matches: seq<Entry>)
    ensures var lines := BrowseLines(prefix, matches);
      && (|matches| > 100 ==> lines[|lines| - 1] == "... and " + NatToString(|matches| - 100) + " more functions")
      && (|matches| <= 100 ==> !("... and " <= lines[|lines| - 1]))
  {
    var lines := BrowseLines(prefix, matches);
    if |matches| <= 100 {
      var shown := Shown(matches);
      if shown == [] {
        assert lines == [lines[0]];
        assert lines[0][0] == 'N';
      } else {
        FlatMapStep(shown, EntryLines, |shown| - 1);
        assert shown[..|shown|] == shown;
        assert lines[|lines| - 1] == "";
      }
    }
  }

  /** The text of a non-empty prefix listing. */
  method ListingText(prefix: string, matches: seq<Entry>) returns (text: string)
    ensures text == Strip(Join(BrowseLines(prefix, matches), "\n"))
  {
    var shown := Shown(matches);
    var body: seq<string> := [];
    var i := 0;
    while i < |shown|
      invariant 0 <= i <= |shown| && body == FlatMap(shown[..i], EntryLines)
    {
      FlatMapStep(shown, EntryLines, i);
      body := body + EntryLines(shown[i]);
      i := i + 1;
    }
    assert shown[..i] == shown;
    var lines := ["Noogle functions with prefix '" + prefix + "' (" + NatToString(|matches|) + " found):\n"] + body;
    text := Strip(Join(lines + MoreLine(|matches|, "functions"), "\n"));
  }

  method Browse(docs: seq<Doc>, prefix: string) returns (text: string)
    ensures text == BrowseText(docs, prefix)
  {
    if prefix == "" {
      var categories := CountCategories(docs);
      return Join(CategoryLines(categories), "\n");
    }
    var matches := BrowseMatches(docs, prefix);
    if matches == [] {
      return "No Noogle functions found with prefix '" + prefix + "'";
    }
    text := ListingText(prefix, matches);
  }
}
