/**
 * The channel helpers of mcp_nixos/sources/base.py: validating a channel name,
 * suggesting names for an unknown one, and listing the channels with their
 * status.
 */
module Base {
  import opened Wrappers
  import opened Text
  import opened Dict
  import opened Sorting
  import opened Lists
  import opened Caches

  // ---------------------------------------------------------------------------
  // Validation
  // ---------------------------------------------------------------------------

  /**
   * A channel is valid when it is a resolved name and its index answers the
   * count query with a positive count. An unknown name is refused without a
   * query; `probed` records the indices queried.
   */
  method ValidateChannel(cache: ChannelCache, channel: string) returns (ok: bool, ghost probed: seq<string>)
    requires cache.Valid()
    modifies cache`available, cache`resolved, cache`probeLog, cache`usingFallback
    ensures cache.Valid()
    ensures var channels := Resolve(Discovered(cache.probe, AllPatterns())).0;
      && (!HasKey(channels, channel) ==> !ok && probed == [])
      && (HasKey(channels, channel) ==>
            var index := Get(channels, channel).value;
            probed == [index] && ok == Accepted(cache.probe(index)))
  {
    var channels := cache.GetResolved();
    probed := [];
    ok := false;
    if HasKey(channels, channel) {
      var index := Get(channels, channel).value;
      probed := [index];
      var reply := cache.probe(index);
      ok := reply.Some? && reply.value > 0;
    }
  }

  /**
   * Unless the fallback table is in use, every resolved channel validates
   * against the backend that discovery saw.
   */
  lemma ResolvedChannelValidates(probe: Probe, channel: string)
    requires var avail := Discovered(probe, AllPatterns());
      !Resolve(avail).1 && HasKey(Resolve(avail).0, channel)
    ensures Accepted(probe(Get(Resolve(Discovered(probe, AllPatterns())).0, channel).value))
  {
    var avail := Discovered(probe, AllPatterns());
    var index := Get(Resolve(avail).0, channel).value;
    ResolvedIndexAvailable(avail, channel);
    DiscoveredGet(probe, AllPatterns(), index);
  }

  // ---------------------------------------------------------------------------
  // Suggestions
  // ---------------------------------------------------------------------------

  /** One name contains the other, ignoring case. */
  predicate Related(channel: string, query: string)
  {
    Contains(Lower(channel), Lower(query)) || Contains(Lower(query), Lower(channel))
  }

  /** A dotted all-digit name such as "25.11". */
  predicate IsVersionChannel(channel: string)
  {
    '.' in channel && IsDigits(ReplaceAll(channel, ".", ""))
  }

  predicate IsIn(channel: string, channels: seq<string>)
  {
    channel in channels
  }

  const CommonChannels: seq<string> := ["unstable", "stable", "beta"]

  /** The names suggested for an unknown channel. */
  function Suggestions(channels: seq<string>, query: string): seq<string>
  {
    var related := FilterWith(channels, Related, query);
    if related != [] then related
    else
      var common := CommonChannels + Take(Filter(channels, IsVersionChannel), 2);
      var present := FilterWith(common, IsIn, channels);
      if present != [] then present else Take(channels, 4)
  }

  method ChannelSuggestions(channels: seq<string>, query: string) returns (msg: string)
    ensures msg == "Available channels: " + Join(Suggestions(channels, query), ", ")
  {
    var suggestions: seq<string> := [];
    var q := Lower(query);
    var i := 0;
    while i < |channels|
      invariant 0 <= i <= |channels| && suggestions == FilterWith(channels[..i], Related, query)
    {
      var ch := channels[i];
      if Contains(Lower(ch), q) || Contains(q, Lower(ch)) {
        suggestions := suggestions + [ch];
      }
      assert channels[..i + 1][..i] == channels[..i];
      i := i + 1;
    }
    assert channels[..i] == channels;
    if suggestions == [] {
      var common := CommonChannels + Take(Filter(channels, IsVersionChannel), 2);
      suggestions := FilterWith(common, IsIn, channels);
      if suggestions == [] {
        suggestions := Take(channels, 4);
      }
    }
    msg := "Available channels: " + Join(suggestions, ", ");
  }

  /**
   * Related names come first: when there is any, the suggestions are exactly
   * the related names, in map order.
   */
  lemma SuggestionsRelated(channels: seq<string>, query: string, x: string)
    requires exists c :: c in channels && Related(c, query)
    ensures x in Suggestions(channels, query) <==> x in channels && Related(x, query)
  {
    var c :| c in channels && Related(c, query);
    FilterWithMembers(channels, Related, query, c);
    FilterWithMembers(channels, Related, query, x);
  }

  /**
   * Otherwise the common aliases that exist come first, in the order unstable,
   * stable, beta.
   */
  lemma SuggestionsPreferUnstable(channels: seq<string>, query: string)
    requires forall c :: c in channels ==> !Related(c, query)
    requires "unstable" in channels
    ensures Suggestions(channels, query)[0] == "unstable"
  {
    if FilterWith(channels, Related, query) != [] {
      FilterWithMembers(channels, Related, query, FilterWith(channels, Related, query)[0]);
      assert false;
    }
    var common := CommonChannels + Take(Filter(channels, IsVersionChannel), 2);
    FilterWithFirst(common, IsIn, channels, 0);
  }

  /** Every suggestion is a channel, and there is one whenever any channel exists. */
  lemma SuggestionsAreChannels(channels: seq<string>, query: string)
    ensures forall x :: x in Suggestions(channels, query) ==> x in channels
    ensures channels != [] ==> Suggestions(channels, query) != []
  {
    var related := FilterWith(channels, Related, query);
    var common := CommonChannels + Take(Filter(channels, IsVersionChannel), 2);
    var present := FilterWith(common, IsIn, channels);
    if related == [] && present == [] && channels != [] {
      assert channels[0] in Take(channels, 4);
    }
  }

  /** A version name is suggested, when no name is related, only if it is dotted digits. */
  lemma SuggestedVersionsAreDotted(channels: seq<string>, query: string, x: string)
    requires forall c :: c in channels ==> !Related(c, query)
    requires x in Suggestions(channels, query) && x !in CommonChannels
    requires exists c :: c in channels && c in CommonChannels
    ensures IsVersionChannel(x)
  {
    var c :| c in channels && c in CommonChannels;
    var related := FilterWith(channels, Related, query);
    if related != [] {
      FilterWithMembers(channels, Related, query, related[0]);
      assert false;
    }
    var versions := Filter(channels, IsVersionChannel);
    var common := CommonChannels + Take(versions, 2);
    FilterWithMembers(common, IsIn, channels, c);
    FilterWithMembers(common, IsIn, channels, x);
    FilterMembers(channels, IsVersionChannel, x);
  }

  // ---------------------------------------------------------------------------
  // Channel listing
  // ---------------------------------------------------------------------------

  const FallbackWarning := "WARNING: Using fallback channels (API discovery failed)\n"
  const ListingHeader := "NixOS Channels:\n"
  const ListingNote := "Note: 'stable' always points to current stable release."

  /** The order of `sorted(configured.items())`: by name (names are distinct). */
  predicate NameLe(a: (string, string), b: (string, string))
  {
    StrLe(a.0, b.0)
  }

  lemma NameLeTotalPreorder()
    ensures TotalPreorder(NameLe)
  {
    StrLeOrder();
  }

  function Status(index: string, available: Dict<string, string>): string
  {
    if HasKey(available, index) then "Available" else "Unavailable"
  }

  /** The name shown for a channel; "stable" also shows its release. */
  function ChannelLabel(name: string, index: string): string
  {
    var parts := Split(index, '-');
    if name == "stable" && |parts| >= 4 then "* " + name + " (current: " + parts[3] + ")" else "* " + name
  }

  /** The three lines of one channel. */
  function EntryLines(entry: (string, string), available: Dict<string, string>): seq<string>
  {
    var (name, index) := entry;
    [ ChannelLabel(name, index) + " -> " + index,
      "  Status: " + Status(index, available) + " (" + Get(available, index).GetOr("Unknown") + ")",
      "" ]
  }

  /** The lines of the entries, entry after entry. */
  function EntriesLines(entries: Dict<string, string>, available: Dict<string, string>): seq<string>
  {
    FlatMap(entries, e => EntryLines(e, available))
  }

  lemma EntriesLinesStep(entries: Dict<string, string>, available: Dict<string, string>, i: nat)
    requires i < |entries|
    ensures EntriesLines(entries[..i + 1], available) == EntriesLines(entries[..i], available) + EntryLines(entries[i], available)
  {
    FlatMapStep(entries, e => EntryLines(e, available), i);
  }

  /** The listing's lines before they are joined. */
  function ChannelListing(configured: Dict<string, string>, available: Dict<string, string>, fallback: bool): seq<string>
  {
    (if fallback then [FallbackWarning] else [])
      + [ListingHeader]
      + EntriesLines(SortBy(configured, NameLe), available)
      + [ListingNote]
  }

  method ListingLines(configured: Dict<string, string>, available: Dict<string, string>, fallback: bool)
    returns (lines: seq<string>)
    ensures lines == ChannelListing(configured, available, fallback)
  {
    lines := [];
    if fallback {
      lines := lines + [FallbackWarning];
    }
    lines := lines + [ListingHeader];
    var entries := SortBy(configured, NameLe);
    var body := EntriesBody(entries, available);
    lines := lines + body + [ListingNote];
  }

  /** The loop adding the lines of each channel in turn. */
  method EntriesBody(entries: Dict<string, string>, available: Dict<string, string>) returns (body: seq<string>)
    ensures body == EntriesLines(entries, available)
  {
    body := [];
    for i := 0 to |entries|
      invariant body == EntriesLines(entries[..i], available)
    {
      EntriesLinesStep(entries, available, i);
      body := body + EntryLines(entries[i], available);
    }
    assert entries[..|entries|] == entries;
  }

  /** The channel listing: resolves, reads the available map and the flag. */
  method ListChannels(cache: ChannelCache) returns (text: string)
    requires cache.Valid()
    modifies cache`available, cache`resolved, cache`probeLog, cache`usingFallback
    ensures cache.Valid()
    ensures var avail := Discovered(cache.probe, AllPatterns());
      text == Strip(Join(ChannelListing(Resolve(avail).0, avail, Resolve(avail).1), "\n"))
  {
    ghost var avail := Discovered(cache.probe, AllPatterns());
    var configured := cache.GetResolved();
    ghost var fallback := cache.usingFallback;
    assert fallback == Resolve(avail).1;
    var available := cache.GetAvailable();
    assert cache.usingFallback == fallback;
    var lines := ListingLines(configured, available, cache.usingFallback);
    text := Strip(Join(lines, "\n"));
  }

  /** The warning line opens the listing exactly when the fallback table is in use. */
  lemma ListingWarning(configured: Dict<string, string>, available: Dict<string, string>, fallback: bool)
    ensures ChannelListing(configured, available, fallback)[0] == FallbackWarning <==> fallback
  {
    assert |ListingHeader| == 16 != |FallbackWarning|;
    var rest := [ListingHeader] + EntriesLines(SortBy(configured, NameLe), available) + [ListingNote];
    assert ChannelListing(configured, available, fallback) == (if fallback then [FallbackWarning] else []) + rest;
  }

  /**
   * The channels are listed by name, each exactly once, each as its three
   * lines (the label, the status, a blank line) between the lines of the
   * channels before and after it.
   */
  lemma ListingEntries(configured: Dict<string, string>, available: Dict<string, string>, fallback: bool, i: nat)
    requires i < |configured|
    ensures var entries := SortBy(configured, NameLe);
      && Sorted(entries, NameLe) && multiset(entries) == multiset(configured)
      && EntriesLines(entries, available)
        == EntriesLines(entries[..i], available) + EntryLines(entries[i], available) + EntriesLines(entries[i + 1..], available)
  {
    var entries := SortBy(configured, NameLe);
    NameLeTotalPreorder();
    SortBySorted(configured, NameLe);
    FlatMapSplit(entries, e => EntryLines(e, available), i);
  }

  /**
   * A channel's status line says "Available" exactly when its index was
   * discovered, and then shows the document count.
   */
  lemma EntryStatus(entry: (string, string), available: Dict<string, string>)
    ensures StartsWith(EntryLines(entry, available)[1], "  Status: Available") <==> HasKey(available, entry.1)
    ensures HasKey(available, entry.1) ==>
      EntryLines(entry, available)[1] == "  Status: Available (" + Get(available, entry.1).value + ")"
    ensures !HasKey(available, entry.1) ==>
      EntryLines(entry, available)[1] == "  Status: Unavailable (Unknown)"
  {
    var status, count := Status(entry.1, available), Get(available, entry.1).GetOr("Unknown");
    assert EntryLines(entry, available)[1] == "  Status: " + status + " (" + count + ")";
    StatusLinePrefix(status, count);
  }

  /** Only the "Available" status line starts with "  Status: Available". */
  lemma StatusLinePrefix(status: string, count: string)
    requires status == "Available" || status == "Unavailable"
    ensures StartsWith("  Status: " + status + " (" + count + ")", "  Status: Available") <==> status == "Available"
    ensures status == "Available" ==> "  Status: " + status + " (" + count + ")" == "  Status: Available (" + count + ")"
    ensures status == "Unavailable" ==> "  Status: " + status + " (" + count + ")" == "  Status: Unavailable (" + count + ")"
  {
    if status == "Unavailable" {
      assert ("  Status: " + status + " (" + count + ")")[10] == 'U';
    }
  }

  /** "stable" shows its release, the fourth dash field of its index. */
  lemma StableLabel(name: string, index: string, available: Dict<string, string>)
    requires name == "stable" && |Split(index, '-')| >= 4
    ensures EntryLines((name, index), available)[0]
      == "* " + name + " (current: " + Split(index, '-')[3] + ") -> " + index
  {
  }
}
