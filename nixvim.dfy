/**
 * The Nixvim option source (mcp_nixos/sources/nixvim.py) over the list of
 * option records the NuschtOS index provides: search, the lookup `info`
 * performs and the text it prints, the category statistics, and the prefix
 * browser.
 */
module Nixvim {
  import opened Wrappers
  import opened Text
  import opened Dict
  import opened Sorting
  import opened Lists
  import opened Utils
  import opened Categories
  import opened Browsing

  /**
   * One option record. `name` is absent when the record has no name; the
   * text fields are "" when absent, and hold the text after HTML is removed.
   */
  datatype NixvimOption = NixvimOption(
    name: Option<string>,
    optionType: string,
    description: string,
    default: string,
    example: string,
    declarations: seq<string>)

  /** `opt.get("name", "")`. */
  function NameOf(opt: NixvimOption): string
  {
    opt.name.GetOr("")
  }

  function EntryOf(opt: NixvimOption): Entry
  {
    Entry(NameOf(opt), opt.optionType, opt.description)
  }

  // ---------------------------------------------------------------------------
  // Search
  // ---------------------------------------------------------------------------

  /** The name or the description holds the lower-cased query, ignoring case. */
  predicate SearchHit(opt: NixvimOption, queryLower: string)
  {
    Contains(Lower(NameOf(opt)), queryLower) || Contains(Lower(opt.description), queryLower)
  }

  /** Every option that matches, in index order. */
  function HitsOf(opts: seq<NixvimOption>, queryLower: string): seq<Entry>
    decreases |opts|
  {
    if opts == [] then []
    else
      var opt := opts[|opts| - 1];
      HitsOf(opts[..|opts| - 1], queryLower) + if SearchHit(opt, queryLower) then [EntryOf(opt)] else []
  }

  lemma {:induction false} HitsOfAppend(a: seq<NixvimOption>, b: seq<NixvimOption>, queryLower: string)
    ensures HitsOf(a + b, queryLower) == HitsOf(a, queryLower) + HitsOf(b, queryLower)
    decreases |b|
  {
    if b == [] {
      assert a + b == a;
    } else {
      var init := b[..|b| - 1];
      assert (a + b)[..|a + b| - 1] == a + init;
      assert (a + b)[|a + b| - 1] == b[|b| - 1];
      HitsOfAppend(a, init, queryLower);
    }
  }

  lemma {:induction false} HitsOfMembers(opts: seq<NixvimOption>, queryLower: string, e: Entry)
    ensures e in HitsOf(opts, queryLower) <==>
      exists j :: 0 <= j < |opts| && SearchHit(opts[j], queryLower) && EntryOf(opts[j]) == e
    decreases |opts|
  {
    if opts != [] {
      var init := opts[..|opts| - 1];
      HitsOfMembers(init, queryLower, e);
      if exists j :: 0 <= j < |init| && SearchHit(init[j], queryLower) && EntryOf(init[j]) == e {
        var j :| 0 <= j < |init| && SearchHit(init[j], queryLower) && EntryOf(init[j]) == e;
        assert opts[j] == init[j];
      }
      if exists j :: 0 <= j < |opts| && SearchHit(opts[j], queryLower) && EntryOf(opts[j]) == e {
        var j :| 0 <= j < |opts| && SearchHit(opts[j], queryLower) && EntryOf(opts[j]) == e;
        if j < |init| {
          assert init[j] == opts[j];
        }
      }
    }
  }

  /** The loop appends before it compares, so it keeps at least one match whatever the limit. */
  function Cap(limit: int): nat
  {
    if limit < 1 then 1 else limit
  }

  /** The matches the search keeps: the first ones, stopping once there are `limit`. */
  function SearchMatchesOf(opts: seq<NixvimOption>, query: string, limit: int): seq<Entry>
  {
    Take(HitsOf(opts, Lower(query)), Cap(limit))
  }

  method SearchMatches(opts: seq<NixvimOption>, query: string, limit: int) returns (matches: seq<Entry>)
    ensures matches == SearchMatchesOf(opts, query, limit)
  {
    var queryLower := Lower(query);
    matches := [];
    var i := 0;
    while i < |opts|
      invariant 0 <= i <= |opts| && matches == HitsOf(opts[..i], queryLower) && |matches| < Cap(limit)
    {
      var opt := opts[i];
      assert opts[..i + 1][..i] == opts[..i];
      if SearchHit(opt, queryLower) {
        matches := matches + [EntryOf(opt)];
        if |matches| >= limit {
          HitsOfAppend(opts[..i + 1], opts[i + 1..], queryLower);
          assert opts[..i + 1] + opts[i + 1..] == opts;
          return;
        }
      }
      i := i + 1;
    }
    assert opts[..i] == opts;
  }

  /**
   * The search keeps the matches in index order, as many as `limit` allows
   * (at least one), and stops short only when the index has no more.
   */
  lemma SearchMatchesSpec(opts: seq<NixvimOption>, query: string, limit: int)
    ensures var matches := SearchMatchesOf(opts, query, limit);
      && matches <= HitsOf(opts, Lower(query))
      && |matches| == (if |HitsOf(opts, Lower(query))| < Cap(limit) then |HitsOf(opts, Lower(query))| else Cap(limit))
      && (forall e :: e in matches ==>
            exists j :: 0 <= j < |opts| && SearchHit(opts[j], Lower(query)) && EntryOf(opts[j]) == e)
  {
    var matches := SearchMatchesOf(opts, query, limit);
    forall e | e in matches
      ensures exists j :: 0 <= j < |opts| && SearchHit(opts[j], Lower(query)) && EntryOf(opts[j]) == e
    {
      HitsOfMembers(opts, Lower(query), e);
    }
  }

  /** The lines of one search match. */
  function HitLines(e: Entry): seq<string>
  {
    ["* " + e.name]
      + (if e.signature != "" then ["  Type: " + e.signature] else [])
      + (if e.description != "" then ["  " + Truncate(e.description, 200)] else [])
      + [""]
  }

  function SearchHeader(query: string, count: nat): string
  {
    "Found " + NatToString(count) + " Nixvim options matching '" + query + "':"
  }

  lemma HeaderBounds(query: string, count: nat)
    ensures var h := SearchHeader(query, count); |h| > 0 && h[0] == 'F' && h[|h| - 1] == ':'
  {
  }

  /** The search result text. */
  function SearchText(opts: seq<NixvimOption>, query: string, limit: int): string
  {
    var matches := SearchMatchesOf(opts, query, limit);
    if matches == [] then "No Nixvim options found matching '" + query + "'"
    else Strip(Join([SearchHeader(query, |matches|) + "\n"] + FlatMap(matches, HitLines), "\n"))
  }

  method Search(opts: seq<NixvimOption>, query: string, limit: int) returns (text: string)
    ensures text == SearchText(opts, query, limit)
  {
    var matches := SearchMatches(opts, query, limit);
    if matches == [] {
      return "No Nixvim options found matching '" + query + "'";
    }
    var lines := [SearchHeader(query, |matches|) + "\n"];
    var i := 0;
    while i < |matches|
      invariant 0 <= i <= |matches| && lines == [SearchHeader(query, |matches|) + "\n"] + FlatMap(matches[..i], HitLines)
    {
      FlatMapStep(matches, HitLines, i);
      lines := lines + HitLines(matches[i]);
      i := i + 1;
    }
    assert matches[..i] == matches;
    text := Strip(Join(lines, "\n"));
  }

  /** Without a match the text says so; otherwise it opens with the number of matches kept. */
  lemma SearchTextSpec(opts: seq<NixvimOption>, query: string, limit: int)
    ensures HitsOf(opts, Lower(query)) == [] <==> SearchText(opts, query, limit) == "No Nixvim options found matching '" + query + "'"
    ensures HitsOf(opts, Lower(query)) != [] ==>
      SearchHeader(query, |SearchMatchesOf(opts, query, limit)|) <= SearchText(opts, query, limit)
  {
    var matches := SearchMatchesOf(opts, query, limit);
    var none := "No Nixvim options found matching '" + query + "'";
    if matches != [] {
      var header := SearchHeader(query, |matches|);
      HeaderBounds(query, |matches|);
      StripJoinHead(header, FlatMap(matches, HitLines));
      assert header[0] == 'F' && none[0] == 'N';
      assert SearchText(opts, query, limit)[0] == 'F';
    }
  }

  // ---------------------------------------------------------------------------
  // Info
  // ---------------------------------------------------------------------------

  /** `opt.get("name") == name`: a record without a name never matches. */
  predicate Named(opt: NixvimOption, name: string)
  {
    opt.name == Some(name)
  }

  predicate NamedIgnoringCase(opt: NixvimOption, nameLower: string)
  {
    Lower(NameOf(opt)) == nameLower
  }

  predicate NameHolds(opt: NixvimOption, nameLower: string)
  {
    Contains(Lower(NameOf(opt)), nameLower)
  }

  function Names(opts: seq<NixvimOption>): (names: seq<string>)
    ensures |names| == |opts| && forall i :: 0 <= i < |opts| ==> names[i] == NameOf(opts[i])
  {
    seq(|opts|, i requires 0 <= i < |opts| => NameOf(opts[i]))
  }

  /** What `info` settles on. */
  datatype Lookup = Found(opt: NixvimOption) | Similar(names: seq<string>) | Missing

  function LookupOf(opts: seq<NixvimOption>, name: string): Lookup
  {
    var exact := FilterWith(opts, Named, name);
    var folded := FilterWith(opts, NamedIgnoringCase, Lower(name));
    var similar := Take(Names(FilterWith(opts, NameHolds, Lower(name))), 5);
    if exact != [] then Found(exact[0])
    else if folded != [] then Found(folded[0])
    else if similar != [] then Similar(similar)
    else Missing
  }

  method FindOption(opts: seq<NixvimOption>, name: string) returns (lookup: Lookup)
    ensures lookup == LookupOf(opts, name)
  {
    var i := 0;
    while i < |opts|
      invariant 0 <= i <= |opts| && forall j :: 0 <= j < i ==> !Named(opts[j], name)
    {
      if opts[i].name == Some(name) {
        FilterWithFirst(opts, Named, name, i);
        return Found(opts[i]);
      }
      i := i + 1;
    }
    var nameLower := Lower(name);
    i := 0;
    while i < |opts|
      invariant 0 <= i <= |opts| && forall j :: 0 <= j < i ==> !NamedIgnoringCase(opts[j], nameLower)
    {
      if Lower(NameOf(opts[i])) == nameLower {
        FilterWithFirst(opts, NamedIgnoringCase, nameLower, i);
        return Found(opts[i]);
      }
      i := i + 1;
    }
    var similar := Take(Names(FilterWith(opts, NameHolds, nameLower)), 5);
    if similar != [] {
      return Similar(similar);
    }
    return Missing;
  }

  /** The name equals itself ignoring case, which holds it. */
  lemma NamedHolds(opt: NixvimOption, name: string)
    ensures Named(opt, name) ==> NamedIgnoringCase(opt, Lower(name))
    ensures NamedIgnoringCase(opt, Lower(name)) ==> NameHolds(opt, Lower(name))
  {
    ContainsSelf(Lower(NameOf(opt)));
  }

  /**
   * The option found is the first named exactly, or, when there is none, the
   * first named so ignoring case; otherwise no option equals the name even
   * ignoring case.
   */
  lemma LookupFound(opts: seq<NixvimOption>, name: string)
    ensures LookupOf(opts, name).Found? ==>
      exists i :: 0 <= i < |opts| && opts[i] == LookupOf(opts, name).opt
        && ((Named(opts[i], name) && forall j :: 0 <= j < i ==> !Named(opts[j], name))
          || ((forall j :: 0 <= j < |opts| ==> !Named(opts[j], name))
            && NamedIgnoringCase(opts[i], Lower(name))
            && forall j :: 0 <= j < i ==> !NamedIgnoringCase(opts[j], Lower(name))))
    ensures !LookupOf(opts, name).Found? ==>
      forall j :: 0 <= j < |opts| ==> !NamedIgnoringCase(opts[j], Lower(name))
  {
    var nl := Lower(name);
    var exact := FilterWith(opts, Named, name);
    var folded := FilterWith(opts, NamedIgnoringCase, nl);
    if exact != [] {
      FilterWithMembers(opts, Named, name, exact[0]);
      var i :| 0 <= i < |opts| && opts[i] == exact[0];
      FirstIndex(opts, Named, name, i);
    } else {
      forall j | 0 <= j < |opts| ensures !Named(opts[j], name) {
        FilterWithMembers(opts, Named, name, opts[j]);
      }
      forall j | 0 <= j < |opts| && NamedIgnoringCase(opts[j], nl) ensures folded != [] {
        FilterWithMembers(opts, NamedIgnoringCase, nl, opts[j]);
      }
      if folded != [] {
        FilterWithMembers(opts, NamedIgnoringCase, nl, folded[0]);
        var i :| 0 <= i < |opts| && opts[i] == folded[0];
        FirstIndex(opts, NamedIgnoringCase, nl, i);
      }
    }
  }

  /**
   * Suggestions come only when no option is found: at most five names that
   * hold the name, ignoring case; and the name is missing exactly when no
   * option's name holds it.
   */
  lemma LookupSuggestions(opts: seq<NixvimOption>, name: string)
    ensures LookupOf(opts, name).Similar? ==>
      var names := LookupOf(opts, name).names;
      1 <= |names| <= 5 && forall n :: n in names ==>
        exists j :: 0 <= j < |opts| && NameHolds(opts[j], Lower(name)) && NameOf(opts[j]) == n
    ensures LookupOf(opts, name).Missing? <==> forall j :: 0 <= j < |opts| ==> !NameHolds(opts[j], Lower(name))
  {
    var nl := Lower(name);
    var holding := FilterWith(opts, NameHolds, nl);
    forall j | 0 <= j < |opts| && NameHolds(opts[j], nl) ensures holding != [] {
      FilterWithMembers(opts, NameHolds, nl, opts[j]);
    }
    forall n | n in Take(Names(holding), 5)
      ensures exists j :: 0 <= j < |opts| && NameHolds(opts[j], nl) && NameOf(opts[j]) == n
    {
      var k :| 0 <= k < |Take(Names(holding), 5)| && Take(Names(holding), 5)[k] == n;
      FilterWithMembers(opts, NameHolds, nl, holding[k]);
      var j :| 0 <= j < |opts| && opts[j] == holding[k];
    }
    if LookupOf(opts, name).Found? {
      var o := LookupOf(opts, name).opt;
      if FilterWith(opts, Named, name) != [] {
        FilterWithMembers(opts, Named, name, o);
      } else {
        FilterWithMembers(opts, NamedIgnoringCase, nl, o);
      }
      NamedHolds(o, name);
      var j :| 0 <= j < |opts| && opts[j] == o;
      assert NameHolds(opts[j], nl);
    }
    if holding != [] {
      FilterWithMembers(opts, NameHolds, nl, holding[0]);
    }
  }

  /**
   * A first element found by a filter sits at an index with no earlier
   * element satisfying the filter.
   */
  lemma FirstIndex(opts: seq<NixvimOption>, p: (NixvimOption, string) -> bool, a: string, i: nat)
    requires i < |opts| && FilterWith(opts, p, a) != [] && opts[i] == FilterWith(opts, p, a)[0]
    ensures exists k :: 0 <= k < |opts| && opts[k] == opts[i] && p(opts[k], a) && forall j :: 0 <= j < k ==> !p(opts[j], a)
  {
    var r := FilterWith(opts, p, a);
    FilterWithMembers(opts, p, a, r[0]);
    var k := 0;
    while k < |opts| && !p(opts[k], a)
      invariant 0 <= k <= |opts| && forall j :: 0 <= j < k ==> !p(opts[j], a)
    {
      k := k + 1;
    }
    FilterWithFirst(opts, p, a, k);
  }

  /**
   * The suggestions never come from an option without a name: such an
   * option's name "" holds the lower-cased name only when that is "", and
   * then the same option already equals it ignoring case, so the `o["name"]`
   * of the suggestion list never fails.
   */
  lemma SimilarNamed(opts: seq<NixvimOption>, name: string)
    requires !LookupOf(opts, name).Found?
    ensures forall o :: o in FilterWith(opts, NameHolds, Lower(name)) ==> o.name.Some?
  {
    var nl := Lower(name);
    forall o | o in FilterWith(opts, NameHolds, nl) ensures o.name.Some? {
      FilterWithMembers(opts, NameHolds, nl, o);
      if o.name.None? {
        ContainsLength("", nl);
        assert nl == "";
        assert Lower("") == "";
        FilterWithMembers(opts, NamedIgnoringCase, nl, o);
        assert false;
      }
    }
  }

  /** The lines `info` prints for an option. */
  function FormatLines(opt: NixvimOption): seq<string>
  {
    ["Nixvim Option: " + NameOf(opt)]
      + (if opt.optionType != "" then ["Type: " + opt.optionType] else [])
      + (if opt.description != "" then ["Description: " + opt.description] else [])
      + (if opt.default != "" then ["Default: " + opt.default] else [])
      + (if opt.example != "" then ["Example: " + Truncate(opt.example, 500)] else [])
      + (if opt.declarations != [] then ["Declared in: " + opt.declarations[0]] else [])
  }

  function FormatOption(opt: NixvimOption): string
  {
    Join(FormatLines(opt), "\n")
  }

  function Present(s: string): nat { if s != "" then 1 else 0 }

  /**
   * The option's name comes first; there is one line per non-empty field; the
   * example line keeps at most its first 500 characters; and the last line
   * names only the first declaration.
   */
  lemma FormatSpec(opt: NixvimOption)
    ensures var lines := FormatLines(opt);
      && lines[0] == "Nixvim Option: " + NameOf(opt)
      && |lines| == 1 + Present(opt.optionType) + Present(opt.description) + Present(opt.default)
           + Present(opt.example) + (if opt.declarations != [] then 1 else 0)
      && (opt.declarations != [] ==> lines[|lines| - 1] == "Declared in: " + opt.declarations[0])
      && (opt.example != "" ==>
            var k := |lines| - 1 - (if opt.declarations != [] then 1 else 0);
            "Example: " <= lines[k] && |lines[k]| <= 9 + 503
              && (|opt.example| <= 500 ==> lines[k] == "Example: " + opt.example)
              && (|opt.example| > 500 ==> lines[k] == "Example: " + opt.example[..500] + "..."))
  {
  }

  /** The text `info` returns. */
  function InfoText(lookup: Lookup, name: string): string
  {
    match lookup
    case Found(opt) => FormatOption(opt)
    case Similar(names) => Error("Option '" + name + "' not found. Similar: " + Join(names, ", "), "NOT_FOUND")
    case Missing => Error("Nixvim option '" + name + "' not found", "NOT_FOUND")
  }

  method Info(opts: seq<NixvimOption>, name: string) returns (text: string)
    ensures text == InfoText(LookupOf(opts, name), name)
  {
    var lookup := FindOption(opts, name);
    text := InfoText(lookup, name);
  }

  // ---------------------------------------------------------------------------
  // Categories and statistics
  // ---------------------------------------------------------------------------

  /** The first dot segment of a name, or the whole name without a dot. */
  function CategoryOf(name: string): string
  {
    if '.' in name then Split(name, '.')[0] else name
  }

  /** The category is the text before the first dot. */
  lemma CategoryOfSpec(name: string)
    ensures var cat := CategoryOf(name);
      && '.' !in cat && cat <= name
      && (|cat| < |name| ==> name[|cat|] == '.')
      && ('.' in name <==> |cat| < |name|)
  {
    SplitHead(name, '.');
    var cat := CategoryOf(name);
    if |cat| < |name| {
      assert name[|cat|] in name;
    }
  }

  function CategoryKeys(opts: seq<NixvimOption>): (keys: seq<string>)
    ensures |keys| == |opts|
    decreases |opts|
  {
    if opts == [] then [] else CategoryKeys(opts[..|opts| - 1]) + [CategoryOf(NameOf(opts[|opts| - 1]))]
  }

  lemma CategoryKeysStep(opts: seq<NixvimOption>, i: nat)
    requires i < |opts|
    ensures CategoryKeys(opts[..i + 1]) == CategoryKeys(opts[..i]) + [CategoryOf(NameOf(opts[i]))]
  {
    assert opts[..i + 1][..i] == opts[..i];
  }

  /** `categories[cat] = categories.get(cat, 0) + 1` for each option in turn. */
  function CategoryCounts(opts: seq<NixvimOption>): Dict<string, nat>
  {
    Tally(CategoryKeys(opts))
  }

  /**
   * Each category is counted once per option in it, only those categories
   * appear, and each appears once.
   */
  lemma CategoryCountsSpec(opts: seq<NixvimOption>, cat: string)
    ensures var n := multiset(CategoryKeys(opts))[cat];
      Get(CategoryCounts(opts), cat) == if n > 0 then Some(n) else None
    ensures Valid(CategoryCounts(opts))
  {
    TallyCounts(CategoryKeys(opts), cat);
    TallyValid(CategoryKeys(opts));
  }

  method CountCategories(opts: seq<NixvimOption>) returns (categories: Dict<string, nat>)
    ensures categories == CategoryCounts(opts)
  {
    categories := [];
    ghost var keys: seq<string> := [];
    var i := 0;
    while i < |opts|
      invariant 0 <= i <= |opts|
      invariant keys == CategoryKeys(opts[..i]) && categories == Tally(keys)
    {
      var name := NameOf(opts[i]);
      var cat := if '.' in name then Split(name, '.')[0] else name;
      CategoryKeysStep(opts, i);
      TallyStep(categories, keys, cat);
      categories := Set(categories, cat, Get(categories, cat).GetOr(0) + 1);
      keys := keys + [cat];
      i := i + 1;
    }
    assert opts[..i] == opts;
  }

  function TopLine(c: (string, nat)): string
  {
    "  - " + c.0 + ": " + WithThousands(c.1)
  }

  /** The statistics text, line by line: four lines of totals, then the five largest categories. */
  function StatsLines(opts: seq<NixvimOption>): (lines: seq<string>)
    ensures var top := TopCategories(CategoryCounts(opts), 5);
      && |lines| == |top| + 4
      && lines[1] == "* Total options: " + WithThousands(|opts|)
      && lines[2] == "* Categories: " + NatToString(|CategoryCounts(opts)|)
      && forall j :: 0 <= j < |top| ==> lines[4 + j] == TopLine(top[j])
  {
    var categories := CategoryCounts(opts);
    ["Nixvim Statistics:",
     "* Total options: " + WithThousands(|opts|),
     "* Categories: " + NatToString(|categories|),
     "* Top categories:"]
      + TopLines(TopCategories(categories, 5))
  }

  function TopLines(top: seq<(string, nat)>): (lines: seq<string>)
    ensures |lines| == |top| && forall j :: 0 <= j < |top| ==> lines[j] == TopLine(top[j])
  {
    seq(|top|, j requires 0 <= j < |top| => TopLine(top[j]))
  }

  method Stats(opts: seq<NixvimOption>) returns (text: string)
    ensures text == Join(StatsLines(opts), "\n")
  {
    var categories := CountCategories(opts);
    var top := TopCategories(categories, 5);
    var topLines: seq<string> := [];
    var i := 0;
    while i < |top|
      invariant 0 <= i <= |top| && |topLines| == i
      invariant forall j :: 0 <= j < i ==> topLines[j] == TopLine(top[j])
    {
      topLines := topLines + [TopLine(top[i])];
      i := i + 1;
    }
    assert topLines == TopLines(top);
    var lines := [
      "Nixvim Statistics:",
      "* Total options: " + WithThousands(|opts|),
      "* Categories: " + NatToString(|categories|),
      "* Top categories:"];
    text := Join(lines + topLines, "\n");
  }

  function CategoryLine(c: (string, nat)): string
  {
    "* " + c.0 + " (" + NatToString(c.1) + " options)"
  }

  /** The category listing the browser gives for an empty prefix. */
  function CategoryLines(categories: Dict<string, nat>): seq<string>
  {
    var sorted := ListingOrder(categories);
    ["Nixvim option categories (" + NatToString(|categories|) + " total):\n"]
      + seq(|sorted|, i requires 0 <= i < |sorted| => CategoryLine(sorted[i]))
  }

  /** Every category is listed once, by decreasing count and then by name. */
  lemma CategoryListingSpec(categories: Dict<string, nat>)
    ensures var sorted := ListingOrder(categories);
      var lines := CategoryLines(categories);
      && |lines| == |categories| + 1
      && multiset(sorted) == multiset(categories)
      && Sorted(sorted, CountThenName)
      && forall i :: 0 <= i < |sorted| ==> lines[i + 1] == CategoryLine(sorted[i])
  {
    ListingOrderSpec(categories);
  }

  // ---------------------------------------------------------------------------
  // Browsing by prefix
  // ---------------------------------------------------------------------------

  /** The options under a prefix, compared with case, in index order. */
  function UnderPrefixOf(opts: seq<NixvimOption>, prefix: string): seq<Entry>
    decreases |opts|
  {
    if opts == [] then []
    else
      var opt := opts[|opts| - 1];
      UnderPrefixOf(opts[..|opts| - 1], prefix) + if UnderPrefix(NameOf(opt), prefix) then [EntryOf(opt)] else []
  }

  lemma {:induction false} UnderPrefixOfMembers(opts: seq<NixvimOption>, prefix: string, e: Entry)
    ensures e in UnderPrefixOf(opts, prefix) <==>
      UnderPrefix(e.name, prefix) && exists j :: 0 <= j < |opts| && EntryOf(opts[j]) == e
    decreases |opts|
  {
    if opts != [] {
      var init := opts[..|opts| - 1];
      UnderPrefixOfMembers(init, prefix, e);
      if exists j :: 0 <= j < |init| && EntryOf(init[j]) == e {
        var j :| 0 <= j < |init| && EntryOf(init[j]) == e;
        assert opts[j] == init[j];
      }
      if exists j :: 0 <= j < |opts| && EntryOf(opts[j]) == e {
        var j :| 0 <= j < |opts| && EntryOf(opts[j]) == e;
        if j < |init| {
          assert init[j] == opts[j];
        }
      }
    }
  }

  method BrowseMatches(opts: seq<NixvimOption>, prefix: string) returns (matches: seq<Entry>)
    ensures matches == UnderPrefixOf(opts, prefix)
  {
    matches := [];
    var i := 0;
    while i < |opts|
      invariant 0 <= i <= |opts| && matches == UnderPrefixOf(opts[..i], prefix)
    {
      var name := NameOf(opts[i]);
      if UnderPrefix(name, prefix) {
        matches := matches + [EntryOf(opts[i])];
      }
      assert opts[..i + 1][..i] == opts[..i];
      i := i + 1;
    }
    assert opts[..i] == opts;
  }

  function EntryLines(e: Entry): seq<string>
  {
    ["* " + e.name]
      + (if e.signature != "" then ["  Type: " + e.signature] else [])
      + (if e.description != "" then ["  " + Truncate(e.description, 150)] else [])
      + [""]
  }

  /** The lines of a non-empty prefix listing, before they are joined and stripped. */
  function BrowseLines(prefix: string, matches: seq<Entry>): seq<string>
  {
    ["Nixvim options with prefix '" + prefix + "' (" + NatToString(|matches|) + " found):\n"]
      + FlatMap(Shown(matches), EntryLines) + MoreLine(|matches|, "options")
  }

  /** The browse result text. */
  function BrowseText(opts: seq<NixvimOption>, prefix: string): string
  {
    if prefix == "" then Join(CategoryLines(CategoryCounts(opts)), "\n")
    else
      var matches := UnderPrefixOf(opts, prefix);
      if matches == [] then "No Nixvim options found with prefix '" + prefix + "'"
      else Strip(Join(BrowseLines(prefix, matches), "\n"))
  }

  /** The listing ends with the number of options left out exactly when there are more than a hundred. */
  lemma BrowseMoreSpec(prefix: string, matches: seq<Entry>)
    ensures var lines := BrowseLines(prefix, matches);
      && (|matches| > 100 ==> lines[|lines| - 1] == "... and " + NatToString(|matches| - 100) + " more options")
      && (|matches| <= 100 ==> !("... and " <= lines[|lines| - 1]))
  {
    var lines := BrowseLines(prefix, matches);
    if |matches| <= 100 {
      var shown := Shown(matches);
      if shown == [] {
        assert lines == [lines[0]];
        assert lines[0][0] == 'N';
      } else {
        FlatMapStep(shown, EntryLines, |shown| - 1);
        assert shown[..|shown|] == shown;
        assert lines[|lines| - 1] == "";
      }
    }
  }

  /** The text of a non-empty prefix listing. */
  method ListingText(prefix: string, matches: seq<Entry>) returns (text: string)
    ensures text == Strip(Join(BrowseLines(prefix, matches), "\n"))
  {
    var shown := Shown(matches);
    var body: seq<string> := [];
    var i := 0;
    while i < |shown|
      invariant 0 <= i <= |shown| && body == FlatMap(shown[..i], EntryLines)
    {
      FlatMapStep(shown, EntryLines, i);
      body := body + EntryLines(shown[i]);
      i := i + 1;
    }
    assert shown[..i] == shown;
    var lines := ["Nixvim options with prefix '" + prefix + "' (" + NatToString(|matches|) + " found):\n"] + body;
    text := Strip(Join(lines + MoreLine(|matches|, "options"), "\n"));
  }

  method Browse(opts: seq<NixvimOption>, prefix: string) returns (text: string)
    ensures text == BrowseText(opts, prefix)
  {
    if prefix == "" {
      var categories := CountCategories(opts);
      return Join(CategoryLines(categories), "\n");
    }
    var matches := BrowseMatches(opts, prefix);
    if matches == [] {
      return "No Nixvim options found with prefix '" + prefix + "'";
    }
    text := ListingText(prefix, matches);
  }
}
