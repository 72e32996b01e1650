/**
 * The argument checks at the front of the server's two tools
 * (mcp_nixos/server.py): `nix` validates its limit, query and type and
 * decides which source function to call with which arguments; `nix_versions`
 * validates the package name and limit and, for a requested version, finds
 * it among the releases NixHub returned or lists the versions it has.
 */
module Server {
  import opened Wrappers
  import opened Text
  import opened Config
  import opened Utils

  // ---------------------------------------------------------------------------
  // The `nix` tool
  // ---------------------------------------------------------------------------

  /** The tool's arguments; `kind` is the `type` argument. */
  datatype Args = Args(
    action: string,
    query: string,
    source: string,
    kind: string,
    channel: string,
    limit: int,
    version: string,
    system: string)

  /** The defaults the tool declares. */
  function DefaultArgs(action: string): Args
  {
    Args(action, "", "nixos", "packages", "unstable", 20, "latest", "")
  }

  /** The source function the tool hands its request to. */
  datatype Call =
    | SearchNixos(query: string, kind: string, limit: int, channel: string)
    | SearchSource(source: string, query: string, limit: int)
    | InfoNixos(name: string, infoType: string, channel: string)
    | InfoSource(source: string, name: string)
    | StatsNixos(channel: string)
    | StatsSource(source: string)
    | BrowseOptions(source: string, prefix: string)
    | ListChannels
    | FlakeInputsList(dir: string)
    | FlakeInputsLs(dir: string, query: string)
    | FlakeInputsRead(dir: string, query: string, readLimit: int)
    | CheckCache(name: string, version: string, system: string)

  /** Either the error text the tool returns at once, or the call it makes. */
  datatype Outcome = Rejected(text: string) | Dispatched(call: Call)

  /** Reading a flake input's file is the one request allowed more than 100 results. */
  predicate IsFlakeRead(args: Args)
  {
    args.action == "flake-inputs" && args.kind == "read"
  }

  function MaxLimit(args: Args): nat
  {
    if IsFlakeRead(args) then MaxLineLimit else 100
  }

  function LimitMessage(args: Args): string
  {
    if IsFlakeRead(args) then "Limit must be 1-" + NatToString(MaxLineLimit) + " for flake-inputs read"
    else "Limit must be 1-100"
  }

  const SearchSources: set<string> := {
    "home-manager", "darwin", "flakes", "flakehub", "nixvim", "wiki", "nix-dev", "noogle", "nixhub"
  }

  const InfoSources: set<string> := {
    "home-manager", "darwin", "flakehub", "nixvim", "wiki", "noogle", "nixhub"
  }

  const StatsSources: set<string> := {
    "home-manager", "darwin", "flakes", "flakehub", "nixvim", "noogle"
  }

  const BrowseSources: set<string> := {"home-manager", "darwin", "nixvim", "noogle"}

  /** What `nix` does with its arguments, up to the call it makes. */
  function Route(args: Args): Outcome
  {
    if !(1 <= args.limit <= MaxLimit(args)) then Rejected(Error(LimitMessage(args)))
    else if args.action == "search" then RouteSearch(args)
    else if args.action == "info" then RouteInfo(args)
    else if args.action == "stats" then RouteStats(args)
    else if args.action == "options" then
      if args.source !in BrowseSources then Rejected(Error("Options browsing only for home-manager|darwin|nixvim|noogle"))
      else Dispatched(BrowseOptions(args.source, args.query))
    else if args.action == "channels" then Dispatched(ListChannels)
    else if args.action == "flake-inputs" then RouteFlakeInputs(args)
    else if args.action == "cache" then
      if args.query == "" then Rejected(Error("Package name required for cache action"))
      else Dispatched(CheckCache(args.query, args.version, args.system))
    else Rejected(Error("Action must be search|info|stats|options|channels|flake-inputs|cache"))
  }

  function RouteSearch(args: Args): Outcome
  {
    if args.query == "" then Rejected(Error("Query required for search"))
    else if args.source == "nixos" then
      if args.kind !in {"packages", "options", "programs", "flakes"} then Rejected(Error("Type must be packages|options|programs|flakes"))
      else Dispatched(SearchNixos(args.query, args.kind, args.limit, args.channel))
    else if args.source in SearchSources then Dispatched(SearchSource(args.source, args.query, args.limit))
    else Rejected(Error("Source must be nixos|home-manager|darwin|flakes|flakehub|nixvim|wiki|nix-dev|noogle|nixhub"))
  }

  function RouteInfo(args: Args): Outcome
  {
    if args.query == "" then Rejected(Error("Name required for info"))
    else if args.source == "nixos" then
      if args.kind !in {"package", "packages", "option", "options"} then Rejected(Error("Type must be package|option"))
      else
        var infoType := if args.kind in {"package", "packages"} then "package" else "option";
        Dispatched(InfoNixos(args.query, infoType, args.channel))
    else if args.source == "nix-dev" then Rejected(Error("Info not available for nix-dev. Use search to find docs, then visit the URL."))
    else if args.source in InfoSources then Dispatched(InfoSource(args.source, args.query))
    else Rejected(Error("Source must be nixos|home-manager|darwin|flakehub|nixvim|wiki|nix-dev|noogle|nixhub"))
  }

  function RouteStats(args: Args): Outcome
  {
    if args.source == "nixos" then Dispatched(StatsNixos(args.channel))
    else if args.source in StatsSources then Dispatched(StatsSource(args.source))
    else if args.source in {"wiki", "nix-dev", "nixhub"} then Rejected(Error("Stats not available for " + args.source))
    else Rejected(Error("Source must be nixos|home-manager|darwin|flakes|flakehub|nixvim|wiki|nix-dev|noogle|nixhub"))
  }

  /** A `source` that is not a source name is the flake directory to inspect. */
  function FlakeDir(source: string): string
  {
    if source !in KnownSources then source else "."
  }

  /** `read_limit`: the tool's default limit 20 stands for 500 lines, and no read exceeds 2000 lines. */
  function ReadLimit(kind: string, limit: int): int
  {
    var readLimit := if kind == "read" && limit == 20 then DefaultLineLimit as int else limit;
    if kind == "read" && readLimit > MaxLineLimit then MaxLineLimit else readLimit
  }

  function RouteFlakeInputs(args: Args): Outcome
  {
    var dir := FlakeDir(args.source);
    if args.kind !in {"list", "ls", "read", "packages"} then Rejected(Error("Type must be list|ls|read for flake-inputs"))
    else
      var readLimit := ReadLimit(args.kind, args.limit);
      if args.kind == "list" || args.kind == "packages" then Dispatched(FlakeInputsList(dir))
      else if args.kind == "ls" then
        if args.query == "" then Rejected(Error("Query required for ls (input name or input:path)"))
        else Dispatched(FlakeInputsLs(dir, args.query))
      else if args.query == "" then Rejected(Error("Query required for read (input:path format)"))
      else Dispatched(FlakeInputsRead(dir, args.query, readLimit))
  }

  /**
   * A limit outside 1..100 (1..2000 for a flake read) is rejected before
   * anything else, and every call made has a limit in range.
   */
  lemma LimitSpec(args: Args)
    ensures !(1 <= args.limit <= MaxLimit(args)) ==> Route(args) == Rejected(Error(LimitMessage(args)))
    ensures Route(args).Dispatched? ==> 1 <= args.limit <= MaxLimit(args)
    ensures MaxLimit(args) == if IsFlakeRead(args) then 2000 else 100
  {
  }

  /**
   * Searching, looking up, checking the cache and listing or reading a flake
   * input never reach a source with an empty query.
   */
  lemma QueryRequired(args: Args)
    requires Route(args).Dispatched?
    requires args.action in {"search", "info", "cache"} || (args.action == "flake-inputs" && args.kind in {"ls", "read"})
    ensures args.query != ""
  {
    if args.action == "search" {
      assert Route(args) == RouteSearch(args);
    } else if args.action == "info" {
      assert Route(args) == RouteInfo(args);
    } else if args.action == "flake-inputs" {
      assert Route(args) == RouteFlakeInputs(args);
    }
  }

  /** An empty query is answered with the error of the action that needed it. */
  lemma EmptyQueryRejected(args: Args)
    requires 1 <= args.limit <= 100 && args.query == ""
    ensures args.action == "search" ==> Route(args) == Rejected(Error("Query required for search"))
    ensures args.action == "info" ==> Route(args) == Rejected(Error("Name required for info"))
    ensures args.action == "cache" ==> Route(args) == Rejected(Error("Package name required for cache action"))
  {
  }

  /** NixOS info takes the singular or plural type and asks for "package" or "option"; any other type is refused. */
  lemma InfoTypeSpec(args: Args)
    requires 1 <= args.limit <= 100 && args.action == "info" && args.source == "nixos" && args.query != ""
    ensures args.kind in {"package", "packages"} ==> Route(args) == Dispatched(InfoNixos(args.query, "package", args.channel))
    ensures args.kind in {"option", "options"} ==> Route(args) == Dispatched(InfoNixos(args.query, "option", args.channel))
    ensures args.kind !in {"package", "packages", "option", "options"} ==> Route(args) == Rejected(Error("Type must be package|option"))
  {
  }

  /** Flake inputs are read from `source` when it is not a source name, and from "." when it is. */
  lemma FlakeDirSpec(args: Args)
    requires args.action == "flake-inputs" && Route(args).Dispatched?
    ensures var call := Route(args).call;
      && (call.FlakeInputsList? || call.FlakeInputsLs? || call.FlakeInputsRead?)
      && call.dir == (if args.source in KnownSources then "." else args.source)
  {
  }

  /**
   * A read gets 500 lines when the limit is left at its default 20 and
   * otherwise exactly the limit asked for, which the limit check has already
   * kept within 1..2000.
   */
  lemma ReadLimitSpec(args: Args)
    requires IsFlakeRead(args) && Route(args).Dispatched?
    ensures 1 <= args.limit <= 2000
    ensures Route(args).call == FlakeInputsRead(FlakeDir(args.source), args.query, if args.limit == 20 then 500 else args.limit)
  {
  }

  /** A flake read with the default limit asks for 500 lines. */
  lemma DefaultReadLimit(dir: string, path: string)
    requires dir != "" && path != ""
    ensures var args := DefaultArgs("flake-inputs").(source := dir, kind := "read", query := path);
      Route(args) == Dispatched(FlakeInputsRead(FlakeDir(dir), path, 500))
  {
  }

  /** For flake inputs, the tool's default type "packages" is routed exactly as "list". */
  lemma PackagesAsList(args: Args)
    requires args.action == "flake-inputs"
    ensures Route(args.(kind := "packages")) == Route(args.(kind := "list"))
  {
  }

  /**
   * Each action reaches exactly the sources that serve it, with the query and
   * limit it was given; nix-dev has no info, and wiki, nix-dev and nixhub no
   * statistics.
   */
  lemma SourcesRouted(args: Args)
    requires 1 <= args.limit <= 100 && args.source != "nixos"
    ensures args.action == "search" && args.query != "" ==>
      Route(args) == if args.source in SearchSources then Dispatched(SearchSource(args.source, args.query, args.limit))
        else Rejected(Error("Source must be nixos|home-manager|darwin|flakes|flakehub|nixvim|wiki|nix-dev|noogle|nixhub"))
    ensures args.action == "info" && args.query != "" ==>
      (Route(args).Dispatched? <==> args.source in InfoSources)
      && (args.source in InfoSources ==> Route(args) == Dispatched(InfoSource(args.source, args.query)))
      && (args.source == "nix-dev" ==> Route(args) == Rejected(Error("Info not available for nix-dev. Use search to find docs, then visit the URL.")))
    ensures args.action == "stats" ==>
      (Route(args).Dispatched? <==> args.source in StatsSources)
      && (args.source in {"wiki", "nix-dev", "nixhub"} ==> Route(args) == Rejected(Error("Stats not available for " + args.source)))
    ensures args.action == "options" ==>
      (Route(args).Dispatched? <==> args.source in BrowseSources)
      && (args.source in BrowseSources ==> Route(args) == Dispatched(BrowseOptions(args.source, args.query)))
  {
  }

  // ---------------------------------------------------------------------------
  // The `nix_versions` tool
  // ---------------------------------------------------------------------------

  predicate IsNameChar(c: char)
  {
    'a' <= c <= 'z' || 'A' <= c <= 'Z' || '0' <= c <= '9' || c == '-' || c == '_' || c == '.'
  }

  predicate AllNameChars(s: string)
  {
    forall i :: 0 <= i < |s| ==> IsNameChar(s[i])
  }

  /**
   * The name test as written, `re.match(r"^[a-zA-Z0-9\-_.]+$", package)`:
   * Python's `$` also matches just before a final newline.
   */
  predicate MatchesPackagePattern(s: string)
  {
    (|s| > 0 && AllNameChars(s)) || (|s| > 1 && s[|s| - 1] == '\n' && AllNameChars(s[..|s| - 1]))
  }

  /** A package name: one or more letters, digits, '-', '_' or '.'. */
  predicate IsPackageName(s: string)
  {
    |s| > 0 && AllNameChars(s)
  }

  /** The pattern as written lets a name followed by a newline through. */
  lemma PackagePatternAcceptsNewline(name: string)
    requires IsPackageName(name)
    ensures MatchesPackagePattern(name + "\n") && !IsPackageName(name + "\n")
  {
    assert (name + "\n")[..|name|] == name;
    assert !IsNameChar((name + "\n")[|name|]);
  }

  /** The corrected test accepts exactly what the pattern accepts without a newline. */
  lemma PackageNameCorrected(s: string)
    ensures IsPackageName(s) <==> MatchesPackagePattern(s) && '\n' !in s
  {
    if MatchesPackagePattern(s) && !AllNameChars(s) {
      assert s[|s| - 1] in s;
    }
    if IsPackageName(s) {
      assert forall i :: 0 <= i < |s| ==> s[i] != '\n';
    }
  }

  /** The error `nix_versions` returns for bad arguments, before fetching anything. */
  function VersionsArgsError(package: string, limit: int): Option<string>
  {
    if package == "" || Strip(package) == "" then Some(Error("Package name required"))
    else if !IsPackageName(package) then Some(Error("Invalid package name"))
    else if !(1 <= limit <= 50) then Some(Error("Limit must be 1-50"))
    else None
  }

  /** The arguments pass exactly when the name is a package name and the limit is within 1..50. */
  lemma VersionsArgsSpec(package: string, limit: int)
    ensures VersionsArgsError(package, limit) == None <==> IsPackageName(package) && 1 <= limit <= 50
    ensures Strip(package) == "" ==> VersionsArgsError(package, limit) == Some(Error("Package name required"))
  {
    StripBlank(package);
    if IsPackageName(package) {
      assert !IsSpace(package[0]);
    }
  }

  /** What fetching the package from NixHub gave. */
  datatype Fetched =
    | FetchFailed(text: string)       // the error text the fetch helper returned
    | NotReleases                     // a body that is not a list
    | Releases(releases: seq<Release>)

  /** The tool's answer, or the package overview it goes on to build. */
  datatype VersionsOutcome = Reply(text: string) | Overview(releases: seq<Release>)

  /** `nix_versions` up to the package overview. */
  function NixVersions(package: string, version: string, limit: int, fetched: Fetched): VersionsOutcome
  {
    match VersionsArgsError(package, limit)
    case Some(e) => Reply(e)
    case None =>
      match fetched
      case FetchFailed(text) => Reply(text)
      case NotReleases => Reply(Error("Package '" + package + "' not found", "NOT_FOUND"))
      case Releases(releases) =>
        if releases == [] then Reply(Error("Package '" + package + "' not found", "NOT_FOUND"))
        else if version != "" then Reply(LookupText(package, version, releases, limit))
        else Overview(releases)
  }

  /**
   * The overview is built only for valid arguments, a non-empty release list
   * and no requested version; bad arguments are refused whatever NixHub would
   * have returned.
   */
  lemma NixVersionsSpec(package: string, version: string, limit: int, fetched: Fetched)
    ensures NixVersions(package, version, limit, fetched).Overview? <==>
      VersionsArgsError(package, limit).None? && fetched.Releases? && fetched.releases != [] && version == ""
    ensures NixVersions(package, version, limit, fetched).Overview? ==>
      NixVersions(package, version, limit, fetched).releases == fetched.releases
    ensures VersionsArgsError(package, limit).Some? ==>
      NixVersions(package, version, limit, fetched) == NixVersions(package, version, limit, NotReleases)
      == Reply(VersionsArgsError(package, limit).value)
    ensures VersionsArgsError(package, limit).None? && fetched.Releases? && fetched.releases != [] && version != "" ==>
      NixVersions(package, version, limit, fetched) == Reply(LookupText(package, version, fetched.releases, limit))
  {
  }

  /** The first release with the requested version. */
  function FindRelease(releases: seq<Release>, version: string): Option<Release>
    decreases |releases|
  {
    if releases == [] then None
    else if releases[0].version == Some(version) then Some(releases[0])
    else FindRelease(releases[1..], version)
  }

  /** `FindRelease` gives the earliest release carrying the version, and nothing only when none does. */
  lemma {:induction false} FindReleaseSpec(releases: seq<Release>, version: string)
    ensures FindRelease(releases, version).None? <==> forall i :: 0 <= i < |releases| ==> releases[i].version != Some(version)
    ensures FindRelease(releases, version).Some? ==>
      exists i :: 0 <= i < |releases| && releases[i] == FindRelease(releases, version).value
        && releases[i].version == Some(version)
        && forall j :: 0 <= j < i ==> releases[j].version != Some(version)
    decreases |releases|
  {
    if releases != [] && releases[0].version != Some(version) {
      FindReleaseSpec(releases[1..], version);
      if FindRelease(releases, version).Some? {
        var i :| 0 <= i < |releases[1..]| && releases[1..][i] == FindRelease(releases, version).value
          && releases[1..][i].version == Some(version)
          && forall j :: 0 <= j < i ==> releases[1..][j].version != Some(version);
        assert releases[i + 1] == releases[1..][i];
        assert forall j :: 1 <= j < i + 1 ==> releases[j] == releases[1..][j - 1];
      } else {
        assert forall i :: 1 <= i < |releases| ==> releases[i] == releases[1..][i - 1];
      }
    } else if releases != [] {
      assert releases[0] == FindRelease(releases, version).value;
    }
  }

  /** The lines for a release that has the requested version. */
  function FoundLines(package: string, version: string, release: Release): seq<string>
  {
    var head := ["Found " + package + " version " + version + "\n"];
    if release.commitHash == "" || !IsCommitHash(release.commitHash) then head
    else
      var attr := if release.systems.Some? then FirstAttrPath(release.systems.value) else None;
      head + ["Nixpkgs commit: " + release.commitHash]
        + if attr.Some? then ["  Attribute: " + attr.value] else []
  }

  /** The versions of the releases, a missing version shown as "". */
  function VersionNames(releases: seq<Release>): seq<string>
  {
    seq(|releases|, i requires 0 <= i < |releases| => releases[i].version.GetOr(""))
  }

  function NotFoundText(package: string, version: string, releases: seq<Release>, limit: int): string
  {
    "Version " + version + " not found for " + package + "\nAvailable: " + Join(VersionNames(Take(releases, limit)), ", ")
  }

  /** The answer to a request for one version. */
  function LookupText(package: string, version: string, releases: seq<Release>, limit: int): string
  {
    match FindRelease(releases, version)
    case Some(release) => Join(FoundLines(package, version, release), "\n")
    case None => NotFoundText(package, version, releases, limit)
  }

  /** The commit line appears exactly for a 40-digit hash, and the attribute line only after it. */
  lemma FoundLinesSpec(package: string, version: string, release: Release)
    ensures var lines := FoundLines(package, version, release);
      && 1 <= |lines| <= 3
      && lines[0] == "Found " + package + " version " + version + "\n"
      && (|lines| > 1 <==> IsCommitHash(release.commitHash))
      && (|lines| > 1 ==> lines[1] == "Nixpkgs commit: " + release.commitHash)
      && (|lines| == 3 ==> release.systems.Some? && lines[2] == "  Attribute: " + FirstAttrPath(release.systems.value).value)
  {
  }

  /**
   * When the version is missing, the list of available versions covers the
   * first `limit` releases (all of them when there are fewer), in order.
   */
  lemma NotFoundListSpec(releases: seq<Release>, limit: int)
    requires 1 <= limit
    ensures var names := VersionNames(Take(releases, limit));
      && |names| == (if limit < |releases| then limit else |releases|)
      && forall i :: 0 <= i < |names| ==> names[i] == releases[i].version.GetOr("")
  {
  }

  /** The versions loop: the first matching release is described; otherwise the available versions are listed. */
  method LookupVersion(package: string, version: string, releases: seq<Release>, limit: int) returns (text: string)
    ensures text == LookupText(package, version, releases, limit)
  {
    for i := 0 to |releases|
      invariant FindRelease(releases, version) == FindRelease(releases[i..], version)
    {
      var release := releases[i];
      if release.version == Some(version) {
        var lines := DescribeRelease(package, version, release);
        return Join(lines, "\n");
      }
      assert releases[i..][1..] == releases[i + 1..];
    }
    var shown := Take(releases, limit);
    var names: seq<string> := [];
    for j := 0 to |shown|
      invariant names == VersionNames(shown[..j])
    {
      names := names + [shown[j].version.GetOr("")];
    }
    assert shown[..|shown|] == shown;
    text := "Version " + version + " not found for " + package + "\nAvailable: " + Join(names, ", ");
  }

  /** The lines for the found release, looking through its systems for the first attribute path. */
  method DescribeRelease(package: string, version: string, release: Release) returns (lines: seq<string>)
    ensures lines == FoundLines(package, version, release)
  {
    lines := ["Found " + package + " version " + version + "\n"];
    var commit := release.commitHash;
    if commit != "" && IsCommitHash(commit) {
      lines := lines + ["Nixpkgs commit: " + commit];
      if release.systems.Some? {
        var systems := release.systems.value;
        for i := 0 to |systems|
          invariant FirstAttrPath(systems) == FirstAttrPath(systems[i..])
        {
          if systems[i].SystemInfo? && systems[i].attrPaths != [] {
            lines := lines + ["  Attribute: " + systems[i].attrPaths[0]];
            return;
          }
          assert systems[i..][1..] == systems[i + 1..];
        }
      }
    }
  }
}
