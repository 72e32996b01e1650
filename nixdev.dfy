/**
 * The nix.dev documentation search (mcp_nixos/sources/nixdev.py) over the
 * Sphinx search index: every query term scores the documents the index lists
 * under it, documents whose title contains the query get a bonus, and the
 * best-scoring documents are listed with their titles and URLs.
 */
module NixDev {
  import opened Wrappers
  import opened Text
  import opened Dict
  import opened Sorting
  import opened Lists
  import opened Config

  /**
   * What the index stores under a term. Sphinx stores a list of document
   * numbers, or a single number; the search only uses lists.
   */
  datatype TermDocs = DocList(ids: seq<nat>) | Other

  /**
   * The fields of the Sphinx index the search reads, each already defaulted
   * to empty when the index lacks it. Document `i` has title `titles[i]` and
   * page `docnames[i]`.
   */
  datatype Index = Index(docnames: seq<string>, titles: seq<string>, terms: Dict<string, TermDocs>)

  /** A document number and its score, as the entries of the `scores` dict. */
  type Scores = Dict<nat, nat>

  // ---------------------------------------------------------------------------
  // What each document scores
  // ---------------------------------------------------------------------------

  /** How many times `id` occurs under an index term (0 when the value is not a list). */
  function DocCount(v: TermDocs, id: nat): nat
  {
    if v.DocList? then multiset(v.ids)[id] else 0
  }

  /** An index term that contains the query term without being equal to it. */
  predicate PartialMatch(indexTerm: string, term: string)
  {
    Contains(indexTerm, term) && term != indexTerm
  }

  /** Two points for each occurrence of `id` under exactly `term`. */
  function ExactScore(terms: Dict<string, TermDocs>, term: string, id: nat): nat
  {
    if HasKey(terms, term) then 2 * DocCount(Get(terms, term).value, id) else 0
  }

  /** One point for each occurrence of `id` under every index term that partially matches `term`. */
  function PartialScore(terms: Dict<string, TermDocs>, term: string, id: nat): nat
    decreases |terms|
  {
    if terms == [] then 0
    else
      var (t, v) := terms[|terms| - 1];
      PartialScore(terms[..|terms| - 1], term, id) + if PartialMatch(t, term) then DocCount(v, id) else 0
  }

  /** The points all query terms give `id`. */
  function QueryScore(terms: Dict<string, TermDocs>, queryTerms: seq<string>, id: nat): nat
    decreases |queryTerms|
  {
    if queryTerms == [] then 0
    else
      var term := queryTerms[|queryTerms| - 1];
      QueryScore(terms, queryTerms[..|queryTerms| - 1], id) + ExactScore(terms, term, id) + PartialScore(terms, term, id)
  }

  /** Five points when document `id` has a title that contains the lower-cased query. */
  function TitleScore(titles: seq<string>, queryLower: string, id: nat): nat
  {
    if id < |titles| && Contains(Lower(titles[id]), queryLower) then 5 else 0
  }

  /** The score of document `id` for `query`. */
  function Score(index: Index, query: string, id: nat): nat
  {
    var q := Lower(query);
    QueryScore(index.terms, Words(q), id) + TitleScore(index.titles, q, id)
  }

  // ---------------------------------------------------------------------------
  // The increments, in the order the search performs them
  // ---------------------------------------------------------------------------

  /** `scores[doc_id] = scores.get(doc_id, 0) + w` for each listed document, as pairs `(doc_id, w)`. */
  function IdEvents(ids: seq<nat>, w: nat): seq<(nat, nat)>
    decreases |ids|
  {
    if ids == [] then [] else IdEvents(ids[..|ids| - 1], w) + [(ids[|ids| - 1], w)]
  }

  /** The increments for an index value: none unless it is a list. */
  function DocsEvents(v: TermDocs, w: nat): seq<(nat, nat)>
  {
    if v.DocList? then IdEvents(v.ids, w) else []
  }

  function ExactEvents(terms: Dict<string, TermDocs>, term: string): seq<(nat, nat)>
  {
    if HasKey(terms, term) then DocsEvents(Get(terms, term).value, 2) else []
  }

  /** The increments of the pass over `terms.items()` for one query term. */
  function PartialEvents(terms: Dict<string, TermDocs>, term: string): seq<(nat, nat)>
    decreases |terms|
  {
    if terms == [] then []
    else
      var (t, v) := terms[|terms| - 1];
      PartialEvents(terms[..|terms| - 1], term) + if PartialMatch(t, term) then DocsEvents(v, 1) else []
  }

  function QueryEvents(terms: Dict<string, TermDocs>, queryTerms: seq<string>): seq<(nat, nat)>
    decreases |queryTerms|
  {
    if queryTerms == [] then []
    else
      var term := queryTerms[|queryTerms| - 1];
      QueryEvents(terms, queryTerms[..|queryTerms| - 1]) + ExactEvents(terms, term) + PartialEvents(terms, term)
  }

  /** The title bonuses, in title order. */
  function TitleEvents(titles: seq<string>, queryLower: string): seq<(nat, nat)>
    decreases |titles|
  {
    if titles == [] then []
    else
      var i := |titles| - 1;
      TitleEvents(titles[..i], queryLower) + if Contains(Lower(titles[i]), queryLower) then [(i, 5)] else []
  }

  function AllEvents(index: Index, query: string): seq<(nat, nat)>
  {
    var q := Lower(query);
    QueryEvents(index.terms, Words(q)) + TitleEvents(index.titles, q)
  }

  /** The `scores` dict once every increment is applied. */
  function ScoresOf(index: Index, query: string): Scores
  {
    Accumulate<nat>([], AllEvents(index, query))
  }

  // ---------------------------------------------------------------------------
  // Scoring loops
  // ---------------------------------------------------------------------------

  /** `for doc_id in doc_ids: scores[doc_id] = scores.get(doc_id, 0) + w`. */
  method AddDocs(scores: Scores, ids: seq<nat>, w: nat) returns (r: Scores)
    ensures r == Accumulate<nat>(scores, IdEvents(ids, w))
  {
    r := scores;
    for i := 0 to |ids|
      invariant r == Accumulate<nat>(scores, IdEvents(ids[..i], w))
    {
      assert ids[..i + 1][..i] == ids[..i];
      AccumulateStep<nat>(r, scores, IdEvents(ids[..i], w), (ids[i], w));
      r := Add<nat>(r, ids[i], w);
    }
    assert ids[..|ids|] == ids;
  }

  /** The pass over `terms.items()` adding 1 for each index term that partially matches `term`. */
  method AddPartial(scores: Scores, terms: Dict<string, TermDocs>, term: string) returns (r: Scores)
    ensures r == Accumulate<nat>(scores, PartialEvents(terms, term))
  {
    r := scores;
    for j := 0 to |terms|
      invariant r == Accumulate<nat>(scores, PartialEvents(terms[..j], term))
    {
      var (t, v) := terms[j];
      assert terms[..j + 1][..j] == terms[..j];
      ghost var before := PartialEvents(terms[..j], term);
      ghost var step := if PartialMatch(t, term) then DocsEvents(v, 1) else [];
      assert PartialEvents(terms[..j + 1], term) == before + step;
      AccumulateAppend<nat>(scores, before, step);
      if PartialMatch(t, term) && v.DocList? {
        r := AddDocs(r, v.ids, 1);
      }
    }
    assert terms[..|terms|] == terms;
  }

  /** The pass over the titles adding 5 to each document whose title contains the query. */
  method AddTitles(scores: Scores, titles: seq<string>, queryLower: string) returns (r: Scores)
    ensures r == Accumulate<nat>(scores, TitleEvents(titles, queryLower))
  {
    r := scores;
    for i := 0 to |titles|
      invariant r == Accumulate<nat>(scores, TitleEvents(titles[..i], queryLower))
    {
      assert titles[..i + 1][..i] == titles[..i];
      ghost var before := TitleEvents(titles[..i], queryLower);
      ghost var step := if Contains(Lower(titles[i]), queryLower) then [(i, 5)] else [];
      assert TitleEvents(titles[..i + 1], queryLower) == before + step;
      AccumulateAppend<nat>(scores, before, step);
      if Contains(Lower(titles[i]), queryLower) {
        AccumulateStep<nat>(r, scores, before, (i, 5));
        r := Add<nat>(r, i, 5);
      } else {
        assert before + step == before;
      }
    }
    assert titles[..|titles|] == titles;
  }

  /** The scoring part of the search: exact and partial term matches, then titles. */
  method ScoreDocs(index: Index, query: string) returns (scores: Scores)
    ensures scores == ScoresOf(index, query)
  {
    var queryLower := Lower(query);
    var queryTerms := Words(queryLower);
    scores := [];
    for i := 0 to |queryTerms|
      invariant scores == Accumulate<nat>([], QueryEvents(index.terms, queryTerms[..i]))
    {
      QueryEventsStep(index.terms, queryTerms, i);
      scores := ScoreTerm(scores, index.terms, queryTerms[i]);
    }
    assert queryTerms[..|queryTerms|] == queryTerms;
    AccumulateAppend<nat>([], QueryEvents(index.terms, queryTerms), TitleEvents(index.titles, queryLower));
    scores := AddTitles(scores, index.titles, queryLower);
  }

  /** One query term: its exact match counts twice, then each term containing it once. */
  method ScoreTerm(scores: Scores, terms: Dict<string, TermDocs>, term: string) returns (r: Scores)
    ensures r == Accumulate<nat>(scores, ExactEvents(terms, term) + PartialEvents(terms, term))
  {
    AccumulateAppend<nat>(scores, ExactEvents(terms, term), PartialEvents(terms, term));
    r := scores;
    if HasKey(terms, term) {
      var docIds := Get(terms, term).value;
      if docIds.DocList? {
        r := AddDocs(r, docIds.ids, 2);
      }
    }
    r := AddPartial(r, terms, term);
  }

  lemma QueryEventsStep(terms: Dict<string, TermDocs>, queryTerms: seq<string>, i: nat)
    requires i < |queryTerms|
    ensures Accumulate<nat>([], QueryEvents(terms, queryTerms[..i + 1]))
      == Accumulate<nat>(Accumulate<nat>([], QueryEvents(terms, queryTerms[..i])),
                         ExactEvents(terms, queryTerms[i]) + PartialEvents(terms, queryTerms[i]))
  {
    var before := QueryEvents(terms, queryTerms[..i]);
    var now := ExactEvents(terms, queryTerms[i]) + PartialEvents(terms, queryTerms[i]);
    assert queryTerms[..i + 1][..i] == queryTerms[..i];
    assert QueryEvents(terms, queryTerms[..i + 1]) == before + now;
    AccumulateAppend<nat>([], before, now);
  }

  // ---------------------------------------------------------------------------
  // The scores the loops compute
  // ---------------------------------------------------------------------------

  lemma {:induction false} IdEventsPositive(ids: seq<nat>, w: nat)
    requires w > 0
    ensures Positive(IdEvents(ids, w))
    decreases |ids|
  {
    if ids != [] {
      IdEventsPositive(ids[..|ids| - 1], w);
      PositiveAppend<nat>(IdEvents(ids[..|ids| - 1], w), [(ids[|ids| - 1], w)]);
    }
  }

  lemma {:induction false} IdEventsWeight(ids: seq<nat>, w: nat, id: nat)
    ensures Weight(IdEvents(ids, w), id) == w * multiset(ids)[id]
    decreases |ids|
  {
    if ids != [] {
      var init: seq<nat> := ids[..|ids| - 1];
      var last: nat := ids[|ids| - 1];
      var counts: multiset<nat> := multiset(init);
      var n := counts[id];
      IdEventsWeight(init, w, id);
      WeightAppend(IdEvents(init, w), [(last, w)], id);
      assert ids == init + [last];
      if last == id {
        assert multiset(ids)[id] == n + 1;
        MulSucc(w, n);
      } else {
        assert multiset(ids)[id] == n;
      }
    }
  }

  lemma MulSucc(w: nat, n: nat)
    ensures w * (n + 1) == w * n + w
  {
  }

  lemma DocsEventsWeight(v: TermDocs, w: nat, id: nat)
    requires w > 0
    ensures Weight(DocsEvents(v, w), id) == w * DocCount(v, id) && Positive(DocsEvents(v, w))
  {
    if v.DocList? {
      IdEventsWeight(v.ids, w, id);
      IdEventsPositive(v.ids, w);
    }
  }

  lemma {:induction false} PartialEventsWeight(terms: Dict<string, TermDocs>, term: string, id: nat)
    ensures Weight(PartialEvents(terms, term), id) == PartialScore(terms, term, id)
    ensures Positive(PartialEvents(terms, term))
    decreases |terms|
  {
    if terms != [] {
      var (t, v) := terms[|terms| - 1];
      var before := PartialEvents(terms[..|terms| - 1], term);
      PartialEventsWeight(terms[..|terms| - 1], term, id);
      DocsEventsWeight(v, 1, id);
      var step := if PartialMatch(t, term) then DocsEvents(v, 1) else [];
      WeightAppend(before, step, id);
      PositiveAppend<nat>(before, step);
    }
  }

  lemma {:induction false} QueryEventsWeight(terms: Dict<string, TermDocs>, queryTerms: seq<string>, id: nat)
    ensures Weight(QueryEvents(terms, queryTerms), id) == QueryScore(terms, queryTerms, id)
    ensures Positive(QueryEvents(terms, queryTerms))
    decreases |queryTerms|
  {
    if queryTerms != [] {
      var term := queryTerms[|queryTerms| - 1];
      var before := QueryEvents(terms, queryTerms[..|queryTerms| - 1]);
      var exact := ExactEvents(terms, term);
      QueryEventsWeight(terms, queryTerms[..|queryTerms| - 1], id);
      PartialEventsWeight(terms, term, id);
      if HasKey(terms, term) {
        DocsEventsWeight(Get(terms, term).value, 2, id);
      }
      WeightAppend(before, exact, id);
      WeightAppend(before + exact, PartialEvents(terms, term), id);
      PositiveAppend<nat>(before, exact);
      PositiveAppend<nat>(before + exact, PartialEvents(terms, term));
    }
  }

  lemma {:induction false} TitleEventsPositive(titles: seq<string>, queryLower: string)
    ensures Positive(TitleEvents(titles, queryLower))
    decreases |titles|
  {
    if titles != [] {
      var i := |titles| - 1;
      TitleEventsPositive(titles[..i], queryLower);
      PositiveAppend<nat>(TitleEvents(titles[..i], queryLower), if Contains(Lower(titles[i]), queryLower) then [(i, 5)] else []);
    }
  }

  lemma {:induction false} TitleEventsWeight(titles: seq<string>, queryLower: string, id: nat)
    ensures Weight(TitleEvents(titles, queryLower), id) == TitleScore(titles, queryLower, id)
    decreases |titles|
  {
    if titles != [] {
      var i := |titles| - 1;
      var step := if Contains(Lower(titles[i]), queryLower) then [(i, 5)] else [];
      TitleEventsWeight(titles[..i], queryLower, id);
      WeightAppend(TitleEvents(titles[..i], queryLower), step, id);
      assert Weight(step, id) == if id == i then TitleScore(titles, queryLower, id) else 0 by {
        if step != [] {
          assert step[..0] == [];
        }
      }
      if id < i {
        assert titles[..i][id] == titles[id];
        assert TitleScore(titles[..i], queryLower, id) == TitleScore(titles, queryLower, id);
      }
    }
  }

  /**
   * The search's `scores` dict maps exactly the documents with a positive
   * score to their score: 2 per exact term match, 1 per partial match and 5
   * for a matching title.
   */
  lemma ScoresOfSpec(index: Index, query: string, id: nat)
    ensures Get<nat, nat>(ScoresOf(index, query), id) == if Score(index, query, id) > 0 then Some(Score(index, query, id)) else None
  {
    AllEventsWeight(index, query, id);
    AccumulateGet<nat>(AllEvents(index, query), id);
  }

  /** Every increment of the search is positive, and a document's increments sum to its score. */
  lemma AllEventsWeight(index: Index, query: string, id: nat)
    ensures Positive(AllEvents(index, query)) && Weight(AllEvents(index, query), id) == Score(index, query, id)
  {
    var q := Lower(query);
    var a: seq<(nat, nat)> := QueryEvents(index.terms, Words(q));
    var b: seq<(nat, nat)> := TitleEvents(index.titles, q);
    QueryEventsWeight(index.terms, Words(q), id);
    TitleEventsWeight(index.titles, q, id);
    TitleEventsPositive(index.titles, q);
    WeightAppend(a, b, id);
    PositiveAppend<nat>(a, b);
  }

  /** No document is listed twice. */
  lemma ScoresOfValid(index: Index, query: string)
    ensures Valid(ScoresOf(index, query))
  {
    AccumulateValid<nat>([], AllEvents(index, query));
  }

  // ---------------------------------------------------------------------------
  // Ranking and the result text
  // ---------------------------------------------------------------------------

  /** `key=lambda x: -x[1]`: higher scores first. */
  predicate ScoreGe(a: (nat, nat), b: (nat, nat))
  {
    a.1 >= b.1
  }

  predicate HasScore(r: (nat, nat), score: nat) { r.1 == score }

  /** `sorted(scores.items(), key=lambda x: -x[1])[:limit]`. */
  function Ranked(scores: Scores, limit: int): seq<(nat, nat)>
  {
    Take(SortBy(scores, ScoreGe), limit)
  }

  lemma ScoreGeOrder()
    ensures TotalPreorder(ScoreGe)
  {
  }

  /**
   * The ranking lists scored documents by decreasing score, at most `limit`
   * of them (all of them when there are fewer), and no document left out
   * scores more than one listed. The sort is stable: documents with equal
   * scores are listed in the order they were first scored, and those kept at
   * the cut are the first of them.
   */
  lemma RankedSpec(scores: Scores, limit: int, x: (nat, nat))
    ensures var ranked := Ranked(scores, limit);
      && (limit >= 0 ==> |ranked| == if limit < |scores| then limit else |scores|)
      && (forall i, j :: 0 <= i < j < |ranked| ==> ranked[i].1 >= ranked[j].1)
      && (forall r :: r in ranked ==> r in scores)
      && (x in scores && x !in ranked ==> forall r :: r in ranked ==> r.1 >= x.1)
      && FilterWith(ranked, HasScore, x.1) <= FilterWith(scores, HasScore, x.1)
      && (limit >= |scores| ==> FilterWith(ranked, HasScore, x.1) == FilterWith(scores, HasScore, x.1))
  {
    var sorted := SortBy(scores, ScoreGe);
    var ranked := Ranked(scores, limit);
    ScoreGeOrder();
    SortBySorted(scores, ScoreGe);
    assert forall k :: 0 <= k < |ranked| ==> ranked[k] == sorted[k];
    forall r | r in ranked ensures r in scores {
      SortByElements(scores, ScoreGe, r);
    }
    if x in scores && x !in ranked {
      TakeSortedTop(scores, ScoreGe, limit, x);
    }
    TakeSortByStable(scores, ScoreGe, HasScore, x.1, (0, x.1), limit);
    SortByStable(scores, ScoreGe, HasScore, x.1, (0, x.1));
  }

  /** `f"Found {n} nix.dev docs matching '{query}':"`; the list puts a newline after it. */
  function Header(query: string, n: nat): string
  {
    "Found " + NatToString(n) + " nix.dev docs matching '" + query + "':"
  }

  function NoResults(query: string): string
  {
    "No nix.dev documentation found matching '" + query + "'"
  }

  /** A document has a title and a page only when its number is within both lists. */
  predicate Listable(index: Index, id: nat)
  {
    id < |index.titles| && id < |index.docnames|
  }

  /** The bullet, the URL and a blank line for a listable document; nothing otherwise. */
  function DocLines(index: Index, id: nat): seq<string>
  {
    if Listable(index, id) then ["* " + index.titles[id], "  " + PageUrl(index.docnames[id]), ""] else []
  }

  /** `f"{NIXDEV_BASE_URL}/{docname}"`. */
  function PageUrl(docname: string): string
  {
    NixDevBaseUrl + "/" + docname
  }

  /** The lines of the ranked documents, in ranking order. */
  function RankedLines(index: Index, ranked: seq<(nat, nat)>): seq<string>
    decreases |ranked|
  {
    if ranked == [] then []
    else RankedLines(index, ranked[..|ranked| - 1]) + DocLines(index, ranked[|ranked| - 1].0)
  }

  /** The text the search returns. */
  function SearchText(index: Index, query: string, limit: int): string
  {
    var scores := ScoresOf(index, query);
    if scores == [] then NoResults(query)
    else
      var ranked := Ranked(scores, limit);
      Strip(Join([Header(query, |ranked|) + "\n"] + RankedLines(index, ranked), "\n"))
  }

  /** `_search_nixdev`: score, rank, then list the ranked documents. */
  method SearchNixDev(index: Index, query: string, limit: int) returns (text: string)
    ensures text == SearchText(index, query, limit)
  {
    var scores := ScoreDocs(index, query);
    if scores == [] {
      return NoResults(query);
    }
    var ranked := Take(SortBy(scores, ScoreGe), limit);
    var results := ListRanked(index, [Header(query, |ranked|) + "\n"], ranked);
    text := Strip(Join(results, "\n"));
  }

  /** The loop appending the lines of each ranked document to `results`. */
  method ListRanked(index: Index, start: seq<string>, ranked: seq<(nat, nat)>) returns (results: seq<string>)
    ensures results == start + RankedLines(index, ranked)
  {
    results := start;
    for k := 0 to |ranked|
      invariant results == start + RankedLines(index, ranked[..k])
    {
      assert ranked[..k + 1][..k] == ranked[..k];
      assert RankedLines(index, ranked[..k + 1]) == RankedLines(index, ranked[..k]) + DocLines(index, ranked[k].0);
      var (docId, _) := ranked[k];
      ghost var prev := results;
      if docId < |index.titles| && docId < |index.docnames| {
        var url := PageUrl(index.docnames[docId]);
        results := results + ["* " + index.titles[docId]];
        results := results + ["  " + url];
        results := results + [""];
        assert results == prev + DocLines(index, docId);
      }
    }
    assert ranked[..|ranked|] == ranked;
  }

  /**
   * The "not found" message is returned exactly when no document scores;
   * otherwise the text opens with the header counting the ranked documents,
   * listable or not.
   */
  lemma SearchTextSpec(index: Index, query: string, limit: int)
    ensures SearchText(index, query, limit) == NoResults(query) <==> forall id: nat :: Score(index, query, id) == 0
    ensures ScoresOf(index, query) != [] ==> Header(query, |Ranked(ScoresOf(index, query), limit)|) <= SearchText(index, query, limit)
  {
    var scores := ScoresOf(index, query);
    if scores == [] {
      forall id: nat ensures Score(index, query, id) == 0 {
        ScoresOfSpec(index, query, id);
      }
    } else {
      var id := scores[0].0;
      assert HasKey(scores, id);
      ScoresOfSpec(index, query, id);
      var ranked := Ranked(scores, limit);
      var header := Header(query, |ranked|);
      StripJoinHead(header, RankedLines(index, ranked));
      assert header[0] == 'F';
      assert NoResults(query)[0] == 'N';
    }
  }

  /** The lines of the documents ranked above position `k` open the listing. */
  lemma {:induction false} RankedLinesPrefix(index: Index, ranked: seq<(nat, nat)>, k: nat)
    requires k <= |ranked|
    ensures RankedLines(index, ranked[..k]) <= RankedLines(index, ranked)
    decreases |ranked|
  {
    if k < |ranked| {
      var init := ranked[..|ranked| - 1];
      assert init[..k] == ranked[..k];
      RankedLinesPrefix(index, init, k);
    } else {
      assert ranked[..k] == ranked;
    }
  }

  /**
   * Each ranked document's lines come right after those of the documents
   * ranked above it: its title and URL when it is listable, nothing otherwise.
   */
  lemma RankedLinesSpec(index: Index, ranked: seq<(nat, nat)>, k: nat)
    requires k < |ranked|
    ensures var before := RankedLines(index, ranked[..k]);
      var id := ranked[k].0;
      && (Listable(index, id) ==>
            before + ["* " + index.titles[id], "  " + PageUrl(index.docnames[id]), ""] <= RankedLines(index, ranked))
      && (!Listable(index, id) ==> RankedLines(index, ranked[..k + 1]) == before)
  {
    assert ranked[..k + 1][..k] == ranked[..k];
    assert RankedLines(index, ranked[..k + 1]) == RankedLines(index, ranked[..k]) + DocLines(index, ranked[k].0);
    RankedLinesPrefix(index, ranked, k + 1);
  }
}
