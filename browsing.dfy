/**
 * The prefix browsers shared by several sources: which names lie under a
 * prefix, which hundred entries a listing shows, and the line that counts
 * the rest.
 */
module Browsing {
  import opened Text
  import opened Sorting

  /** The prefix test: the name equals the prefix or continues it after a dot. */
  predicate UnderPrefix(name: string, prefix: string)
  {
    var prefixDot := if EndsWith(prefix, ".") then prefix else prefix + ".";
    StartsWith(name, prefixDot) || name == prefix
  }

  /**
   * A name is under a prefix exactly when it starts with it and the prefix
   * ends at a segment boundary: the end of the name, a dot in the name, or a
   * dot that ends the prefix itself (no doubled dot).
   */
  lemma UnderPrefixSpec(name: string, prefix: string)
    ensures UnderPrefix(name, prefix) <==>
      prefix <= name && (|name| == |prefix| || (|prefix| > 0 && prefix[|prefix| - 1] == '.') || name[|prefix|] == '.')
  {
    if prefix + "." <= name {
      assert name[..|prefix|] == (prefix + ".")[..|prefix|];
    }
    if prefix <= name && |name| > |prefix| && name[|prefix|] == '.' {
      assert name[..|prefix| + 1] == prefix + ".";
    }
  }

  /** A listed entry: its name, its type or signature, and its description. */
  datatype Entry = Entry(name: string, signature: string, description: string)

  predicate NameLe(a: Entry, b: Entry) { StrLe(a.name, b.name) }

  /** The entries shown: the first hundred by name. */
  function Shown(matches: seq<Entry>): seq<Entry>
  {
    Take(SortBy(matches, NameLe), 100)
  }

  /**
   * At most a hundred entries are shown, in name order, and none left out
   * sorts before a shown one.
   */
  lemma ShownSpec(matches: seq<Entry>)
    ensures |Shown(matches)| == if |matches| < 100 then |matches| else 100
    ensures Sorted(Shown(matches), NameLe)
    ensures forall f :: f in Shown(matches) ==> f in matches
    ensures forall f, t :: f in matches && f !in Shown(matches) && t in Shown(matches) ==> StrLe(t.name, f.name)
  {
    StrLeOrder();
    SortBySorted(matches, NameLe);
    forall f | f in Shown(matches) ensures f in matches {
      SortByElements(matches, NameLe, f);
    }
    forall f | f in matches && f !in Shown(matches)
      ensures forall t :: t in Shown(matches) ==> StrLe(t.name, f.name)
    {
      TakeSortedTop(matches, NameLe, 100, f);
    }
  }

  /** The closing line that counts the entries not shown, when there are any. */
  function MoreLine(count: nat, noun: string): seq<string>
  {
    if count > 100 then ["... and " + NatToString(count - 100) + " more " + noun] else []
  }
}
