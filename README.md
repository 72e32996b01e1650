# mcp-nixos core, modelled in Dafny

mcp-nixos is an MCP server that answers questions about NixOS packages and
options, Home Manager, nix-darwin, flakes, Nixvim, nix.dev, Noogle and NixHub.
This project models the parts of it that make decisions rather than fetch data,
and proves what they promise:

- **Channel discovery and resolution** (`caches.dfy`, `config.dfy`). The
  `ChannelCache` class keeps the server's lazily filled channel state. It
  probes the grid of `latest-{gen}-nixos-{version}` indices through an abstract
  probe oracle and records the accepted ones with a `"{count:,} documents"`
  label. It then resolves them to `unstable`, `stable`, `beta` and per-version
  names, and falls back to the static channel table when nothing resolves.
- **Channel helpers** (`base.dfy`): channel validation, suggestions for an
  unknown channel, and the channel listing.
- **Shared helpers** (`utils.dfy`): error strings, version keys, narinfo
  parsing, line-limited reading, and the platform and commit lines of a NixHub
  release.
- **Flake inputs** (`flake_inputs.dfy`): flattening the nested input tree of
  `nix flake archive` into dotted names, parsing the `ls`/`read` query, the
  not-found message, and the `read` output header.
- **Flake search** (`flakes.dfy`): the match-all rule, grouping index hits
  into flakes, and the result text.
- **Nixvim** (`nixvim.dfy`), **nix.dev** (`nixdev.dfy`) and **Noogle**
  (`noogle.dfy`): search scoring and ranking, info lookup order, category
  statistics and prefix browsing.
- **Tool front** (`server.dfy`): argument validation and routing of the `nix`
  tool, and the `nix_versions` tool.

Generic modules hold Python's semantics as used by the code:

- `text.dfy`: `str` operations on ASCII text.
- `dict.dfy`: an insertion-ordered `dict` as a sequence of pairs.
- `sorting.dfy`: the stable `sorted`/`list.sort`, as an insertion sort.
- `lists.dfy`: filtering and flattening.
- `browsing.dfy`, `categories.dfy`: the ordering rules that Nixvim and Noogle share.

Where the source changes state step by step, the model is imperative. Each
such method is proved equal to a specification function, and the lemmas state
the properties of that function. This applies to the `ChannelCache` methods and
to every loop that fills a dict or a list. HTTP responses, the parsed JSON
documents and HTML stripping are inputs to the model.

## Model

| member | source | states |
|---|---|---|
| Caches.ChannelCache.constructor | mcp_nixos/caches.py:23-26 | A new cache has no available map, no resolved map, and the fallback flag off. |
| Caches.ChannelCache.GetAvailable | mcp_nixos/caches.py:28-31 | Returns the map discovery yields and stores it. Once stored, later calls probe nothing more. |
| Caches.ChannelCache.GetResolved | mcp_nixos/caches.py:33-36 | Returns the resolution of the discovered map and stores it. Once stored, a later call changes no field. The fallback flag is set exactly when resolution fell back. |
| Caches.ChannelCache.Discover | mcp_nixos/caches.py:38-58 | Probes every generation × version pair in generation-major order, exactly once each. The result is the ordered map of accepted patterns with their labels. |
| Caches.ChannelCache.ResolveChannels | mcp_nixos/caches.py:60-107 | Returns the resolution of the available map. The fallback flag becomes set when resolution falls back and is never cleared. |
| Caches.DiscoveredGet | mcp_nixos/caches.py:42-57 | A pattern has an entry iff it was probed and accepted. Its value is the label of the probed count. |
| Caches.DiscoveredValid | mcp_nixos/caches.py:41-58 | The discovered map has distinct keys. |
| Caches.LabelRoundTrip | mcp_nixos/caches.py:83 | The count parsed back from a label equals the count the label was written from at line 55, thousands separators included. |
| Caches.DiscoveredCandidateCount | mcp_nixos/caches.py:52-55 | A discovered pattern was accepted, and its stored label parses back (line 83) to the count its probe returned. It becomes a stable-release candidate iff it is a non-unstable pattern whose fourth dash field reads as two numbers (lines 77-82). That candidate carries the probed count. |
| Caches.WithThousandsPlain | mcp_nixos/caches.py:83 | Removing the commas from a comma-grouped number gives its plain decimal digits. |
| Caches.ResolveAvailable | mcp_nixos/caches.py:60-107 | The loop-based resolution returns exactly the resolved map and fallback flag that the resolution function defines. |
| Caches.FindUnstable | mcp_nixos/caches.py:66-73 | The loop finds the first available key, in insertion order, that contains "unstable". |
| Caches.FirstUnstable | mcp_nixos/caches.py:68-71 | No key is chosen iff no key contains "unstable". A chosen key is an available key containing it. |
| Caches.FirstUnstableIsFirst | mcp_nixos/caches.py:68-71 | The chosen key is the first one containing "unstable". |
| Caches.DiscoveredFirstUnstable | mcp_nixos/caches.py:38-73 | The unstable channel is the first accepted unstable pattern in probe order. |
| Caches.CollectCandidates | mcp_nixos/caches.py:75-87 | The loop collects exactly the stable candidates, in map order. |
| Caches.Classify | mcp_nixos/caches.py:77-86 | A classified key yields a candidate with a `major.minor` token and a parsed count. |
| Caches.CandidateSource | mcp_nixos/caches.py:75-87 | Every candidate comes from an entry of the available map that classifies to it. |
| Caches.CandidateOfEntry | mcp_nixos/caches.py:75-87 | Every entry that classifies yields a candidate. |
| Caches.PatternAvailable | mcp_nixos/caches.py:76-84 | A candidate's pattern is a key of the available map. |
| Caches.CandidateGeTotalPreorder | mcp_nixos/caches.py:89 | The `(major, minor, count)` descending order is total and transitive, so the stable sort is well defined. |
| Caches.PickVersionPatterns | mcp_nixos/caches.py:94-97 | The loop builds the per-version best-pattern map the specification function defines. |
| Caches.BestPerVersionHas | mcp_nixos/caches.py:94-97 | Every version token of a candidate gets an entry. |
| Caches.BestFor | mcp_nixos/caches.py:94-97 | A version's entry is the first candidate with that token among those of the highest count. |
| Caches.BestOfVersion | mcp_nixos/caches.py:94-97 | A version's entry has the highest count among the candidates with that token. |
| Caches.ApplyVersionPatterns | mcp_nixos/caches.py:98-99 | The loop writes every version's pattern into the resolved map. |
| Caches.AssignVersionsGet | mcp_nixos/caches.py:98-99 | After the writes, a version key maps to its best pattern and every other key is unchanged. |
| Caches.StableStepStable | mcp_nixos/caches.py:88-91 | "stable" is the first candidate of the descending sort. |
| Caches.StableStepVersion | mcp_nixos/caches.py:92-99 | After the stable step, each version token maps to its best pattern. |
| Caches.StableStepOther | mcp_nixos/caches.py:88-99 | The stable step changes no dot-free key except "stable". |
| Caches.ResolveUnstable | mcp_nixos/caches.py:66-73 | Without fallback, "unstable" maps to the first unstable key. A present unstable key rules out fallback. |
| Caches.ResolveStableIsFirstMaximum | mcp_nixos/caches.py:88-91 | With any candidate, "stable" is the pattern of a candidate with the greatest `(major, minor, count)`, and no earlier candidate is as great. A higher version beats a higher count. |
| Caches.ResolveVersionBest | mcp_nixos/caches.py:94-99 | Every classified token resolves to a pattern of that token with the highest count. |
| Caches.ResolveStableVersionAgrees | mcp_nixos/caches.py:90-99 | The stable candidate's own token resolves to the same pattern as "stable". |
| Caches.ResolveBetaMirrorsStable | mcp_nixos/caches.py:101-102 | "beta" is present iff "stable" is, and maps to the same pattern. |
| Caches.ResolvedVersionOrigin | mcp_nixos/caches.py:75-99 | Any resolved key other than the three aliases is the token of some candidate. |
| Caches.ResolvedIndexAvailable | mcp_nixos/caches.py:60-107 | Without fallback, every resolved index is a key of the available map. |
| Caches.StableIndexAvailable | mcp_nixos/caches.py:88-91 | Without fallback, the stable index is an available key. |
| Caches.ResolveFallback | mcp_nixos/caches.py:62-106 | Resolution falls back iff no key contains "unstable" and no key classifies. It then yields exactly the static fallback table. |
| Caches.DiscoveredUnstable | mcp_nixos/caches.py:38-73 | When some unstable pattern is accepted, resolution does not fall back and "unstable" is the first one accepted. |
| Caches.NothingDiscoveredFallsBack | mcp_nixos/caches.py:38-64 | When every probe fails, resolution yields the fallback table with the flag set. |
| Base.ValidateChannel | mcp_nixos/sources/base.py:26-37 | An unknown channel is refused without a probe. A known one is probed once, at its resolved index, and accepted as the probe says. |
| Base.ResolvedChannelValidates | mcp_nixos/sources/base.py:26-34 | Without fallback, a resolved channel validates when the probe answers as it did during discovery. |
| Base.ChannelSuggestions | mcp_nixos/sources/base.py:40-55 | The loop computes "Available channels: " followed by the suggested names joined with ", ". |
| Base.SuggestionsRelated | mcp_nixos/sources/base.py:44-47 | When any channel is related, the suggestions are exactly the channels that contain, or are contained in, the query case-insensitively. |
| Base.SuggestionsPreferUnstable | mcp_nixos/sources/base.py:48-52 | Without a related channel, "unstable" comes first when it exists. |
| Base.SuggestedVersionsAreDotted | mcp_nixos/sources/base.py:49-52 | Without a related channel, any suggested name beyond the three aliases is a dotted all-digit version. |
| Base.SuggestionsAreChannels | mcp_nixos/sources/base.py:48-54 | Every suggestion is a channel name. There is at least one suggestion whenever there is a channel. |
| Base.ListChannels | mcp_nixos/sources/base.py:83-107 | The listing text is the stripped join of the listing lines for the cache's resolved and available maps. |
| Base.ListingLines | mcp_nixos/sources/base.py:88-106 | The loop builds the listing lines the specification function defines. |
| Base.EntriesBody | mcp_nixos/sources/base.py:94-104 | The loop builds three lines per configured channel. |
| Base.ListingWarning | mcp_nixos/sources/base.py:90-91 | The listing starts with the fallback warning iff the fallback flag is set. |
| Base.ListingEntries | mcp_nixos/sources/base.py:94 | Entries appear in sorted name order, as a permutation of the resolved map. |
| Base.EntryStatus | mcp_nixos/sources/base.py:95-103 | The status is "Available" with the document label iff the index is an available key. Otherwise it is "Unavailable (Unknown)". |
| Base.StableLabel | mcp_nixos/sources/base.py:97-102 | With at least four dash fields, the stable entry shows the fourth one as "(current: X)". |
| Utils.ErrorRoundTrip | mcp_nixos/utils.py:25-27 | An error string "Error (code): msg" parses back to its code and message when the code holds no ')'. |
| Utils.VersionKey | mcp_nixos/utils.py:103-117 | The loop computes the version key the specification function defines. |
| Utils.ReadComponent | mcp_nixos/utils.py:108-114 | The inner loop reads a component's leading digit run as its value. |
| Utils.LeadingDigits | mcp_nixos/utils.py:108-113 | The run is all digits, a prefix of the component, and as long as possible. |
| Utils.ComponentLeadingRun | mcp_nixos/utils.py:107-114 | A component's value is the value of its leading digits, whatever follows them. |
| Utils.NumberComponent | mcp_nixos/utils.py:108-114 | A printed number reads back as itself. |
| Utils.VersionKeyRoundTrip | mcp_nixos/utils.py:103-117 | "a.b.c" keys to `(a, b, c)`. |
| Utils.VersionKeyPadding | mcp_nixos/utils.py:115-116 | Missing components are padded with 0. |
| Utils.VersionKeyIgnoresTail | mcp_nixos/utils.py:107 | Components after the third do not change the key. |
| Utils.VersionKeyNumericOrder | mcp_nixos/utils.py:103-117 | For all naturals, the key of "a.b.c" is below the key of "a2.b2.c2" iff (a, b, c) is lexicographically below (a2, b2, c2). The keys are equal iff the numbers are. Components compare as numbers, not text. |
| Utils.ParseNarinfo | mcp_nixos/utils.py:223-250 | The line loop computes the narinfo record of the text split at newlines. |
| Utils.NarinfoIsLastValues | mcp_nixos/utils.py:226-250 | Each field is the value on the last line with that key. Integer fields take the last line whose value parses. Other lines change nothing. |
| Utils.ReadWithLimit | mcp_nixos/utils.py:279-291 | The total counts every line. The first `min(limit, total)` lines are returned with trailing "\n"/"\r" removed. |
| Utils.SystemsOfMembers | mcp_nixos/utils.py:153-165 | A system is collected iff some platform entry names it, as a string or as a record with a non-empty "system". |
| Utils.SystemsOfDistinct | mcp_nixos/utils.py:155-164 | No system is collected twice, as in the source's set. |
| Utils.SummarizeSpec | mcp_nixos/utils.py:166-177 | "Linux and macOS" iff some system contains "linux" and some contains "darwin". The fallback list is the systems in sorted order. |
| Utils.CommitLinesSpec | mcp_nixos/utils.py:180-192 | The commit line appears iff the hash is exactly 40 hex digits, the corrected check of the Findings below. The pattern as written also accepts those digits followed by "\n". At most one Attribute line follows it. |
| Utils.FirstAttrPathSpec | mcp_nixos/utils.py:185-192 | The Attribute comes from the first system record with non-empty attribute paths. |
| Utils.FormatRelease | mcp_nixos/utils.py:122-193 | The loop builds the version, platform and commit lines of a release. |
| Utils.CommitPatternAcceptsNewline | mcp_nixos/utils.py:181 | The pattern as written accepts a 40-digit hash followed by a newline. |
| Utils.CommitHashCorrected | mcp_nixos/utils.py:181 | The corrected check is the pattern minus any newline. |
| FlakeInputs.FlattenInputs | mcp_nixos/sources/flake_inputs.py:112-131 | The recursive loop returns the flattening the specification function defines. |
| FlakeInputs.FlattenNames | mcp_nixos/sources/flake_inputs.py:112-131 | A name is a key iff it is the dotted ancestor path of an input that has a store path, so children of path-less inputs still appear. No inputs means no keys. |
| FlakeInputs.FlattenPaths | mcp_nixos/sources/flake_inputs.py:118-129 | A name maps to the store path of the last assignment to it, in the order flattening makes them: each input's own path, then its nested inputs'. A later colliding name overwrites an earlier one, as dict assignment and `update` do. |
| FlakeInputs.FlattenFirstValid | mcp_nixos/sources/flake_inputs.py:118-129 | The flattened map has distinct keys. |
| FlakeInputs.NamesListed | mcp_nixos/sources/flake_inputs.py:121-129 | The keys after the first k inputs are exactly the names those inputs contribute. |
| FlakeInputs.NameHasRoute | mcp_nixos/sources/flake_inputs.py:121-129 | Every contributed name is reached by a path through the tree. |
| FlakeInputs.RouteIsName | mcp_nixos/sources/flake_inputs.py:121-129 | Every path to an input with a store path contributes its dotted name. |
| FlakeInputs.AddEntryKeys | mcp_nixos/sources/flake_inputs.py:123-129 | One input adds its own name when it has a path, plus its nested names. Existing keys stay. |
| FlakeInputs.LsQuerySpec | mcp_nixos/sources/flake_inputs.py:177-182 | The query splits at its first ':' and the subpath loses its leading '/'s. Without ':', the whole query is the name. |
| FlakeInputs.ListedNamesSpec | mcp_nixos/sources/flake_inputs.py:193-196 | At most ten names are listed. They are input names in sorted order, and no unlisted name sorts before a listed one. |
| FlakeInputs.NotFoundMessageSpec | mcp_nixos/sources/flake_inputs.py:193-196 | The message names the input and the listed names. Above ten inputs it ends with " ... and N more", N being the number left unlisted. Otherwise every input is listed. |
| FlakeInputs.ReadFormatFirst | mcp_nixos/sources/flake_inputs.py:258-265 | A read query without ':' or without a file path is INVALID_FORMAT, whatever the flake evaluation would give. |
| FlakeInputs.ReadLocates | mcp_nixos/sources/flake_inputs.py:261-281 | A well-formed read finds the input iff its name is a flattened key, with that key's store path and the stripped file path. |
| FlakeInputs.LsReadAgree | mcp_nixos/sources/flake_inputs.py:177-198 | On a query with an input and a path, ls and read parse and locate alike. |
| FlakeInputs.Shown | mcp_nixos/sources/flake_inputs.py:310-318 | The shown lines are the first `min(limit, total)` file lines without trailing newlines. |
| FlakeInputs.ReadOutput | mcp_nixos/sources/flake_inputs.py:310-318 | The read text is the header followed by the shown lines, joined with newlines. |
| FlakeInputs.ReadTruncationAnnounced | mcp_nixos/sources/flake_inputs.py:312-318 | The "(Showing n of total lines)" line appears iff lines were left out, and n is the number shown. |
| Flakes.MatchesAllSpec | mcp_nixos/sources/flakes.py:15-16 | The match-all query is chosen iff the query is "*" or only whitespace. |
| Flakes.KeyOfSpec | mcp_nixos/sources/flakes.py:60-90 | A hit is dropped iff it has neither flake name nor package, or it has no source and no flake name. The key is "owner/repo" when both are set, else the url, else the flake name. |
| Flakes.KeptHitsMembers | mcp_nixos/sources/flakes.py:54-61 | The kept hits are exactly the hits that yield a key. |
| Flakes.GroupHits | mcp_nixos/sources/flakes.py:53-102 | The loop over hits builds the flake map the grouping function defines. |
| Flakes.GroupedHasKey | mcp_nixos/sources/flakes.py:53-102 | A flake key exists iff some hit yields it. The map has distinct keys. |
| Flakes.GroupedFirst | mcp_nixos/sources/flakes.py:77-99 | The first hit with a key fixes that flake's name, description and source fields. |
| Flakes.GroupedHitPackages | mcp_nixos/sources/flakes.py:87-102 | A flake's packages are exactly the non-empty attribute names of the hits with its key. |
| Flakes.PackagesShown | mcp_nixos/sources/flakes.py:119-124 | The package line shows the five alphabetically first packages, in order. |
| Flakes.FlakeLinesSpec | mcp_nixos/sources/flakes.py:110-125 | Name first and a blank line last. Repository is preferred over URL. A description over 200 characters is cut to 200 plus "...". The package line gives the total when there are more than five. |
| Flakes.HeaderSpec | mcp_nixos/sources/flakes.py:104-108 | The header counts matches and unique flakes iff the total exceeds the number of flakes. |
| Flakes.SearchTextSpec | mcp_nixos/sources/flakes.py:50-126 | No hits gives the "No flakes found" text. Otherwise the text starts with the header. |
| Flakes.SearchFlakes | mcp_nixos/sources/flakes.py:50-126 | The method computes the search text. |
| Flakes.ListFlakes | mcp_nixos/sources/flakes.py:110-125 | The loop emits each flake's lines in map order. |
| Nixvim.SearchMatches | mcp_nixos/sources/nixvim.py:16-29 | The loop with its early break returns the specified matches. |
| Nixvim.SearchMatchesSpec | mcp_nixos/sources/nixvim.py:16-29 | The matches are the first `limit` options whose name or description contains the query case-insensitively, in list order. The test follows the append, so a limit below 1 keeps one. |
| Nixvim.HitsOfMembers | mcp_nixos/sources/nixvim.py:17-27 | An entry is a hit iff it comes from an option matching the query. |
| Nixvim.Search | mcp_nixos/sources/nixvim.py:10-43 | The method computes the search text. |
| Nixvim.SearchTextSpec | mcp_nixos/sources/nixvim.py:31-34 | The "no options found" text appears iff nothing matches. Otherwise the header gives the match count. |
| Nixvim.FindOption | mcp_nixos/sources/nixvim.py:55-70 | The three scans return the specified lookup. |
| Nixvim.LookupFound | mcp_nixos/sources/nixvim.py:55-64 | The first exact name wins. Failing that, the first case-insensitive match wins. Not found means no case-insensitive match exists. |
| Nixvim.LookupSuggestions | mcp_nixos/sources/nixvim.py:66-70 | Suggestions are 1 to 5 names containing the query. The plain not-found error comes iff no name contains it. |
| Nixvim.FormatSpec | mcp_nixos/sources/nixvim.py:77-103 | One line per present field. An example over 500 characters is cut to 500 plus "...". Only the first declaration is shown. |
| Nixvim.Info | mcp_nixos/sources/nixvim.py:50-70 | The method computes the info text of the lookup. |
| Nixvim.CategoryOfSpec | mcp_nixos/sources/nixvim.py:114-118 | The category is the name up to its first dot, or the whole dot-free name. |
| Nixvim.CountCategories | mcp_nixos/sources/nixvim.py:112-119 | The counting loop builds the category counter. |
| Nixvim.CategoryCountsSpec | mcp_nixos/sources/nixvim.py:112-119 | Each category counts exactly the options in it. Categories are distinct. |
| Nixvim.StatsLines | mcp_nixos/sources/nixvim.py:121-129 | The statistics give the option total, the category count and the top five categories. |
| Nixvim.Stats | mcp_nixos/sources/nixvim.py:106-130 | The method computes the statistics text. |
| Nixvim.CategoryListingSpec | mcp_nixos/sources/nixvim.py:142-157 | The category listing is every category, by count descending and then name. |
| Nixvim.UnderPrefixOfMembers | mcp_nixos/sources/nixvim.py:159-171 | Browse keeps exactly the options equal to the prefix or under it, case-sensitively. |
| Nixvim.BrowseMatches | mcp_nixos/sources/nixvim.py:159-171 | The loop collects the browse matches. |
| Nixvim.BrowseMoreSpec | mcp_nixos/sources/nixvim.py:186-187 | "... and N more options" ends the listing iff there are more than 100 matches. N is the excess. |
| Nixvim.ListingText | mcp_nixos/sources/nixvim.py:176-188 | The loop builds the browse listing. |
| Nixvim.Browse | mcp_nixos/sources/nixvim.py:137-188 | The method computes the browse text. |
| Browsing.UnderPrefixSpec | mcp_nixos/sources/nixvim.py:160-164 | A name is under a prefix iff it equals it or continues it after a dot, and a trailing dot is not doubled. |
| Browsing.ShownSpec | mcp_nixos/sources/nixvim.py:177 | The first 100 matches by name are shown, in order, and none left out sorts before a shown one. |
| Sorting.SortByStable | mcp_nixos/sources/nixdev.py:46 | The sort is stable: elements with equal keys appear in the sorted output in their input order. |
| Sorting.TakeSortByStable | mcp_nixos/sources/nixdev.py:46 | After sorting and cutting to n, the kept elements with a given key are the first of them in the input. |
| Categories.TopCategoriesSpec | mcp_nixos/sources/nixvim.py:121 | The top categories are the n largest counts, in descending order. Among categories with equal counts, those shown are the first of them in insertion order, in that order. |
| Categories.ListingOrderSpec | mcp_nixos/sources/nixvim.py:153 | The listing order is a permutation of the categories, by count descending and then name. |
| NixDev.ScoreDocs | mcp_nixos/sources/nixdev.py:17-40 | The nested loops build the score map the specification function defines. |
| NixDev.ScoresOfSpec | mcp_nixos/sources/nixdev.py:17-40 | A document has an entry iff its total score is positive. The total is 2 per exact-term listing, 1 per strictly-containing index term, and 5 per title match. |
| NixDev.ScoresOfValid | mcp_nixos/sources/nixdev.py:21-40 | Document ids are distinct keys. |
| NixDev.AddDocs | mcp_nixos/sources/nixdev.py:26-28 | The loop adds the weight to each listed document. |
| NixDev.AddPartial | mcp_nixos/sources/nixdev.py:31-35 | The loop adds 1 per index term strictly containing the term. |
| NixDev.AddTitles | mcp_nixos/sources/nixdev.py:38-40 | The loop adds 5 to each document whose title contains the query. |
| NixDev.ScoreTerm | mcp_nixos/sources/nixdev.py:22-35 | One query term adds its exact and partial increments. |
| NixDev.IdEventsWeight | mcp_nixos/sources/nixdev.py:27-28 | A document gains the weight once per listing of its id. |
| NixDev.PartialEventsWeight | mcp_nixos/sources/nixdev.py:31-35 | A document's partial-match total is its count over the strictly containing terms. |
| NixDev.QueryEventsWeight | mcp_nixos/sources/nixdev.py:22-35 | A document's term total is its score over all query terms. |
| NixDev.TitleEventsWeight | mcp_nixos/sources/nixdev.py:38-40 | A document's title total is 5 exactly when its title matches. |
| NixDev.RankedSpec | mcp_nixos/sources/nixdev.py:46 | The first `limit` scores by descending score. None left out scores higher than a kept one. Documents with equal scores keep the score map's insertion order, and those kept at the cut are the first of them. |
| NixDev.SearchTextSpec | mcp_nixos/sources/nixdev.py:42-48 | The "No nix.dev documentation" text appears iff no document scores. Otherwise the header counts the ranked documents. |
| NixDev.RankedLinesSpec | mcp_nixos/sources/nixdev.py:49-57 | A ranked id in range contributes its title and URL. An out-of-range id contributes nothing but stays counted in the header. |
| NixDev.SearchNixDev | mcp_nixos/sources/nixdev.py:8-59 | The method computes the search text. |
| NixDev.ListRanked | mcp_nixos/sources/nixdev.py:48-57 | The loop appends each ranked document's lines. |
| Noogle.FunctionPathSpec | mcp_nixos/sources/noogle.py:10-18 | The path is the parts joined by '.', splitting back into them. Failing that, the title. Without meta, "". |
| Noogle.Aliases | mcp_nixos/sources/noogle.py:40-48 | One name per alias, in order. None without meta. |
| Noogle.AliasPartsRoundTrip | mcp_nixos/sources/noogle.py:47 | A list alias's name splits back into its parts. |
| Noogle.TypeSignature | mcp_nixos/sources/noogle.py:21-37 | The signature is preferred over the type. Without content, "". |
| Noogle.ScoreHit | mcp_nixos/sources/noogle.py:86-106 | A document scores iff its path, an alias or its description contains the query case-insensitively. |
| Noogle.ScoreLadder | mcp_nixos/sources/noogle.py:86-103 | Exact path 100. Path ending in the query 50. Path containing it 30. Alias 40. Description 10. Each rung holds exactly when the rungs above fail. |
| Noogle.ScoreAtMost | mcp_nixos/sources/noogle.py:86-103 | No score exceeds 100. |
| Noogle.MatchesOfMembers | mcp_nixos/sources/noogle.py:78-106 | The matches are exactly the documents with positive score, with that score and path. |
| Noogle.SearchMatches | mcp_nixos/sources/noogle.py:78-106 | The loop collects the matches. |
| Noogle.RankedSpec | mcp_nixos/sources/noogle.py:111-113 | The shown matches are the first `limit` by score descending and then path, and none left out sorts earlier. |
| Noogle.ExactHitFirst | mcp_nixos/sources/noogle.py:86-113 | When some path equals the query, the first shown match scores 100. |
| Noogle.SearchTextSpec | mcp_nixos/sources/noogle.py:108-115 | No match gives "No Noogle functions found". Otherwise the header counts the shown matches. |
| Noogle.Search | mcp_nixos/sources/noogle.py:72-132 | The method computes the search text. |
| Noogle.FirstExact | mcp_nixos/sources/noogle.py:149-157 | The first document whose path or an alias equals the name case-insensitively. |
| Noogle.PartialPathsMembers | mcp_nixos/sources/noogle.py:149-159 | The partial matches are exactly the paths containing the name. |
| Noogle.LookupSpec | mcp_nixos/sources/noogle.py:149-167 | An exact match is the first one. Otherwise 1 to 5 containing paths are suggested. Otherwise not found, iff nothing matches. |
| Noogle.FindFunction | mcp_nixos/sources/noogle.py:139-167 | The scan with its break returns the specified lookup. |
| Noogle.CategoryKeySpec | mcp_nixos/sources/noogle.py:250-253 | A dotted path's category is its first two segments. A dot-free path is its own category. |
| Noogle.CategoryKeyPair | mcp_nixos/sources/noogle.py:251 | The first two segments are joined with a single dot. |
| Noogle.CountCategories | mcp_nixos/sources/noogle.py:248-255 | The counting loop builds the category counter. |
| Noogle.CategoryCountsSpec | mcp_nixos/sources/noogle.py:248-255 | Each category counts exactly the functions in it. Categories are distinct. |
| Noogle.StatsCounts | mcp_nixos/sources/noogle.py:244-260 | Returns the category counter and the numbers of functions with a signature and with a description. |
| Noogle.StatsLinesSpec | mcp_nixos/sources/noogle.py:262-277 | The statistics give the comma-grouped total, the numbers of functions with a signature and with a description, the category count, the top ten categories, a blank line and the data-source line. |
| Noogle.Stats | mcp_nixos/sources/noogle.py:238-278 | The method counts in the loops of StatsCounts and returns the statistics lines joined with newlines. |
| Noogle.CategoryListingSpec | mcp_nixos/sources/noogle.py:293-306 | The category listing is every category, by count descending and then name. |
| Noogle.UnderPrefixOfMembers | mcp_nixos/sources/noogle.py:309-323 | Browse keeps exactly the functions equal to the prefix or under it, case-insensitively. |
| Noogle.BrowseMatches | mcp_nixos/sources/noogle.py:309-323 | The loop collects the browse matches. |
| Noogle.BrowseMoreSpec | mcp_nixos/sources/noogle.py:339-340 | "... and N more functions" ends the listing iff there are more than 100 matches. |
| Noogle.ListingText | mcp_nixos/sources/noogle.py:328-341 | The loop builds the browse listing. |
| Noogle.Browse | mcp_nixos/sources/noogle.py:286-341 | The method computes the browse text. |
| Server.LimitSpec | mcp_nixos/server.py:2686-2691 | A limit outside 1..100, or 1..2000 for a flake-inputs read, is refused before anything else. Nothing is dispatched with such a limit. |
| Server.QueryRequired | mcp_nixos/server.py:2693-2814 | search, info, cache, ls and read are dispatched only with a non-empty query. |
| Server.EmptyQueryRejected | mcp_nixos/server.py:2693-2814 | An empty query gets the action's own error. |
| Server.InfoTypeSpec | mcp_nixos/server.py:2724-2728 | package/packages map to "package" and option/options to "option". Any other type is refused. |
| Server.SourcesRouted | mcp_nixos/server.py:2693-2775 | Each action dispatches exactly its supported sources and refuses the others with the source's error. |
| Server.FlakeDirSpec | mcp_nixos/server.py:2780-2782 | The flake directory is the source unless it names a known source, then ".". |
| Server.ReadLimitSpec | mcp_nixos/server.py:2789-2807 | A read gets limit 500 for the default 20 and otherwise its own limit, never above 2000. |
| Server.DefaultReadLimit | mcp_nixos/server.py:2790-2795 | A read with default arguments uses 500 lines. |
| Server.PackagesAsList | mcp_nixos/server.py:2786-2799 | For flake-inputs, "packages" routes as "list". |
| Server.VersionsArgsSpec | mcp_nixos/server.py:2827-2832 | Arguments pass iff the name passes the corrected package check of the Findings below and the limit is 1..50. The pattern as written also passes a valid name followed by "\n". A blank name is "Package name required". |
| Server.NixVersionsSpec | mcp_nixos/server.py:2835-2868 | Argument errors come before the fetch. A version lookup answers from the releases. The overview is reached iff no version is asked and releases exist. |
| Server.FindReleaseSpec | mcp_nixos/server.py:2848-2849 | The first release with exactly that version is found. None is found iff no release has it. |
| Server.FoundLinesSpec | mcp_nixos/server.py:2850-2864 | The "Found" line, then the commit line iff the hash is exactly 40 hex digits (the corrected check; the pattern as written also accepts them followed by "\n"), then at most one Attribute line. |
| Server.NotFoundListSpec | mcp_nixos/server.py:2866-2868 | Only the versions of the first `limit` releases are listed, in order. |
| Server.LookupVersion | mcp_nixos/server.py:2847-2868 | The scan returns the version text the lookup function defines. |
| Server.DescribeRelease | mcp_nixos/server.py:2850-2864 | The method builds the found-version lines. |
| Server.PackagePatternAcceptsNewline | mcp_nixos/server.py:2829 | The pattern as written accepts a valid name followed by a newline. |
| Server.PackageNameCorrected | mcp_nixos/server.py:2829 | The corrected check is the pattern minus any newline. |

## Left out

- HTTP, including the `_count` probes, `es_query` and every fetch. Discovery's probe is a function parameter of `ChannelCache` (`None` for a non-200 reply, an exception or a bad body). `validate_channel`'s probe is the same oracle. The `NixvimCache`, `NixDevCache` and `NoogleCache` fetch loops are not modelled; their parsed data are inputs.
- Filesystem and subprocess: `nix flake archive`, store-path validation, binary detection, file size and opening, and the `ls` directory listing. The model stops at the located input and formats a read from given file lines.
- `_flake_inputs_list` formatting and the NIX_NOT_FOUND, FLAKE_ERROR and later file errors of `ls`/`read`, which depend only on the process and the filesystem.
- HTML handling: `strip_html` and `parse_html_options`. Descriptions arrive already stripped. Noogle's fallback from `content.content` to `lambda.content` is folded into one given description.
- Floats and dates: the `Updated:` line of a release and `_format_size`'s KB/MB/GB text (given as a string).
- Concurrency (`asyncio.to_thread`, `gather`) and exception wrappers that turn unexpected errors into `error(str(e))`.
- The sources home-manager, darwin, flakehub, wiki, nixhub and `_browse_options`, and the nixos `es_query` searches. The tool front routes to them as abstract calls.
- The `nix_versions` overview text (mcp_nixos/server.py:2870-2908). The model stops at the decision that it is produced.
- Python's lenient `int()`, `str.isdigit()` and `str.lower()` beyond ASCII: digits and case are ASCII only.
- JSON values of unexpected types: Nixvim fields are strings, nix.dev ids are natural numbers with non-list term entries ignored, a release version that is not a string is shown as "", a non-list Noogle alias is given by its already formatted `str()`, and a Noogle `meta` that is present but not a record (null included), on which the source raises and answers with its generic error, is not representable.
- Utils.FormatRelease: the date line is not produced. It needs a clock and date formatting. The commit and Attribute lines use the corrected commit check, so a hash of 40 hex digits followed by "\n" gets no commit line here, where the source prints one.
- Utils.CommitLinesSpec: states the commit line against the corrected check (exactly 40 hex digits), not against the pattern as written, which also accepts a trailing "\n".
- Server.FoundLinesSpec: states the commit line against the corrected commit check, not the pattern as written. A hash followed by "\n" gets no commit line here.
- Server.DescribeRelease: builds the found-version lines with the corrected commit check, so it omits the commit line for a hash followed by "\n" that the source prints.
- Server.LookupVersion: returns the lookup text built with the corrected commit check, with the same gap as Server.DescribeRelease.
- Server.VersionsArgsSpec: states argument validation against the corrected package check. A valid name followed by "\n" is refused here, where the source's pattern lets it through.
- Server.NixVersionsSpec: validates with the corrected package check, so "hello\n" gets "Invalid package name" here, where the source goes on to fetch.
- Noogle.StatsCounts: counts categories and the signature/description totals in two passes where the source makes one. The results are the same.

## Findings

| source | as written | input that shows it | evidently intended | confidence | as-written member | corrected member |
|---|---|---|---|---|---|---|
| mcp_nixos/utils.py:181 | `re.match(r"^[a-fA-F0-9]{40}$", commit)` accepts a hash followed by one newline, because `$` matches before a final newline | 40 hex digits + "\n" | exactly 40 hex digits | not executed | Utils.CommitPatternAcceptsNewline | Utils.CommitHashCorrected |
| mcp_nixos/server.py:2829 | `re.match(r"^[a-zA-Z0-9\-_.]+$", package)` accepts a valid name followed by one newline | "hello\n" | only name characters | not executed | Server.PackagePatternAcceptsNewline | Server.PackageNameCorrected |

The operations that use these checks run the corrected definitions. The "## Left out" lines for those members say where this changes what they compute.
