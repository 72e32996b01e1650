/**
 * The decision logic of mcp_nixos/sources/flake_inputs.py: flattening the
 * nested inputs reported by `nix flake archive --json` into dotted names,
 * reading `ls` and `read` queries, and the checks `read` makes before it
 * touches the file system.
 */
module FlakeInputs {
  import opened Wrappers
  import opened Text
  import opened Dict
  import opened Sorting
  import opened Utils

  // ---------------------------------------------------------------------------
  // Flattening
  // ---------------------------------------------------------------------------

  /** An entry of the archive output: its store path, if any, and its own inputs in order. */
  datatype Node = Node(path: Option<string>, inputs: seq<(string, Node)>)

  /** `prefix.name`, or `name` at the top level. */
  function FullName(prefix: string, name: string): string
  {
    if prefix != "" then prefix + "." + name else name
  }

  /** `info.get("path", "")`. */
  function StorePath(info: Node): string
  {
    info.path.GetOr("")
  }

  /**
   * One entry's contribution: its own name when it has a store path, then
   * its flattened inputs (none when it has no inputs).
   */
  function AddEntry(r: Dict<string, string>, full: string, path: string, nested: Dict<string, string>): Dict<string, string>
  {
    Update(if path != "" then Set(r, full, path) else r, nested)
  }

  lemma AddEntryKeys(r: Dict<string, string>, full: string, path: string, nested: Dict<string, string>, key: string)
    ensures HasKey(AddEntry(r, full, path, nested), key) <==>
      HasKey(r, key) || (path != "" && key == full) || HasKey(nested, key)
  {
    UpdateHasKey(if path != "" then Set(r, full, path) else r, nested, key);
    SetHasKey(r, full, path, key);
  }

  /** `AddEntry` on dicts keyed by the sets `a` and `b`. */
  lemma AddEntryNames(m: Dict<string, string>, r: Dict<string, string>, full: string, path: string, nested: Dict<string, string>,
                      key: string, a: set<string>, b: set<string>)
    requires m == AddEntry(r, full, path, nested)
    requires HasKey(r, key) <==> key in a
    requires HasKey(nested, key) <==> key in b
    ensures HasKey(m, key) <==> key in a + (if path != "" then {full} else {}) + b
  {
    AddEntryKeys(r, full, path, nested, key);
  }

  lemma AddEntryValid(m: Dict<string, string>, r: Dict<string, string>, full: string, path: string, nested: Dict<string, string>)
    requires m == AddEntry(r, full, path, nested) && Valid(r)
    ensures Valid(m)
  {
    SetValid(r, full, path);
    UpdateValid(if path != "" then Set(r, full, path) else r, nested);
  }

  /** The flattened inputs of the first `k` entries of `node.inputs`. */
  function FlattenFirst(node: Node, prefix: string, k: nat): Dict<string, string>
    requires k <= |node.inputs|
    decreases node, k
  {
    if k == 0 then []
    else
      var info := node.inputs[k - 1].1;
      var full := FullName(prefix, node.inputs[k - 1].0);
      AddEntry(FlattenFirst(node, prefix, k - 1), full, StorePath(info), FlattenFirst(info, full, |info.inputs|))
  }

  /** Every input with a store path, under its dotted name. */
  function Flatten(node: Node, prefix: string): Dict<string, string>
  {
    FlattenFirst(node, prefix, |node.inputs|)
  }

  method FlattenInputs(data: Node, prefix: string) returns (result: Dict<string, string>)
    ensures result == Flatten(data, prefix)
    decreases data
  {
    result := [];
    var i := 0;
    while i < |data.inputs|
      invariant 0 <= i <= |data.inputs| && result == FlattenFirst(data, prefix, i)
    {
      var name, info := data.inputs[i].0, data.inputs[i].1;
      var fullName := FullName(prefix, name);
      var storePath := StorePath(info);
      ghost var before := result;
      if storePath != "" {
        result := Set(result, fullName, storePath);
      }
      ghost var withPath := result;
      if info.inputs != [] {
        var nested := FlattenInputs(info, fullName);
        result := Update(result, nested);
      } else {
        assert Flatten(info, fullName) == [] && result == Update(withPath, []);
      }
      FlattenStep(data, prefix, i, before, result);
      i := i + 1;
    }
  }

  lemma FlattenStep(node: Node, prefix: string, i: nat, before: Dict<string, string>, after: Dict<string, string>)
    requires i < |node.inputs| && before == FlattenFirst(node, prefix, i)
    requires var full := FullName(prefix, node.inputs[i].0);
      after == AddEntry(before, full, StorePath(node.inputs[i].1), Flatten(node.inputs[i].1, full))
    ensures after == FlattenFirst(node, prefix, i + 1)
  {
  }

  lemma FlattenUnfold(node: Node, prefix: string, j: nat)
    requires j < |node.inputs|
    ensures var info, full := node.inputs[j].1, FullName(prefix, node.inputs[j].0);
      FlattenFirst(node, prefix, j + 1) == AddEntry(FlattenFirst(node, prefix, j), full, StorePath(info), FlattenFirst(info, full, |info.inputs|))
  {
  }

  /**
   * `route` is a path of input positions from `node` down to an input that
   * has a store path; the inputs it passes through need not have one.
   */
  ghost predicate Reaches(node: Node, route: seq<nat>)
    decreases |route|
  {
    && |route| > 0 && route[0] < |node.inputs|
    && var child := node.inputs[route[0]].1;
      if |route| == 1 then StorePath(child) != "" else Reaches(child, route[1..])
  }

  /** The names along `route`, joined by "." after `prefix`. */
  function RouteName(node: Node, prefix: string, route: seq<nat>): string
    decreases |route|
  {
    if route == [] || route[0] >= |node.inputs| then prefix
    else RouteName(node.inputs[route[0]].1, FullName(prefix, node.inputs[route[0]].0), route[1..])
  }

  /** The names the first `k` inputs contribute, as a set: the same recursion as `FlattenFirst`. */
  ghost function Names(node: Node, prefix: string, k: nat): set<string>
    requires k <= |node.inputs|
    decreases node, k
  {
    if k == 0 then {}
    else
      var info := node.inputs[k - 1].1;
      var full := FullName(prefix, node.inputs[k - 1].0);
      Names(node, prefix, k - 1) + (if StorePath(info) != "" then {full} else {}) + Names(info, full, |info.inputs|)
  }

  /** The flattened dict is keyed by exactly those names. */
  lemma {:induction false} NamesListed(node: Node, prefix: string, k: nat, key: string)
    requires k <= |node.inputs|
    ensures HasKey(FlattenFirst(node, prefix, k), key) <==> key in Names(node, prefix, k)
    decreases node, k
  {
    if k > 0 {
      var j := k - 1;
      var info, full := node.inputs[j].1, FullName(prefix, node.inputs[j].0);
      var n := |info.inputs|;
      NamesListed(node, prefix, j, key);
      NamesListed(info, full, n, key);
      NamesListedStep(node, prefix, j, k, key);
    }
  }

  lemma NamesListedStep(node: Node, prefix: string, j: nat, k: nat, key: string)
    requires k == j + 1 && k <= |node.inputs|
    requires HasKey(FlattenFirst(node, prefix, j), key) <==> key in Names(node, prefix, j)
    requires var info, full := node.inputs[j].1, FullName(prefix, node.inputs[j].0);
      HasKey(FlattenFirst(info, full, |info.inputs|), key) <==> key in Names(info, full, |info.inputs|)
    ensures HasKey(FlattenFirst(node, prefix, k), key) <==> key in Names(node, prefix, k)
  {
    var info := node.inputs[j].1;
    var full := FullName(prefix, node.inputs[j].0);
    FlattenUnfold(node, prefix, j);
    NamesUnfold(node, prefix, j);
    AddEntryNames(FlattenFirst(node, prefix, k), FlattenFirst(node, prefix, j), full, StorePath(info), FlattenFirst(info, full, |info.inputs|),
      key, Names(node, prefix, j), Names(info, full, |info.inputs|));
  }

  lemma NamesUnfold(node: Node, prefix: string, j: nat)
    requires j < |node.inputs|
    ensures var info, full := node.inputs[j].1, FullName(prefix, node.inputs[j].0);
      Names(node, prefix, j + 1) == Names(node, prefix, j) + (if StorePath(info) != "" then {full} else {}) + Names(info, full, |info.inputs|)
  {
  }

  /** The names only grow as inputs are added. */
  lemma {:induction false} NamesGrow(node: Node, prefix: string, k: nat, k': nat)
    requires k <= k' <= |node.inputs|
    ensures Names(node, prefix, k) <= Names(node, prefix, k')
    decreases k' - k
  {
    if k < k' {
      NamesGrow(node, prefix, k, k' - 1);
    }
  }

  /** Every input reachable along a route is named by the route's dotted name. */
  lemma {:induction false} RouteIsName(node: Node, prefix: string, route: seq<nat>)
    requires Reaches(node, route)
    ensures RouteName(node, prefix, route) in Names(node, prefix, |node.inputs|)
    decreases |route|
  {
    if |route| > 1 {
      RouteIsName(node.inputs[route[0]].1, FullName(prefix, node.inputs[route[0]].0), route[1..]);
    }
    RouteIsNameStep(node, prefix, route);
  }

  lemma RouteIsNameStep(node: Node, prefix: string, route: seq<nat>)
    requires Reaches(node, route)
    requires var info, full := node.inputs[route[0]].1, FullName(prefix, node.inputs[route[0]].0);
      |route| > 1 ==> RouteName(info, full, route[1..]) in Names(info, full, |info.inputs|)
    ensures RouteName(node, prefix, route) in Names(node, prefix, |node.inputs|)
  {
    var i := route[0];
    var info, full := node.inputs[i].1, FullName(prefix, node.inputs[i].0);
    RouteNameHead(node, prefix, route);
    EntryName(node, prefix, i, RouteName(info, full, route[1..]));
  }

  lemma RouteNameHead(node: Node, prefix: string, route: seq<nat>)
    requires |route| > 0 && route[0] < |node.inputs|
    ensures var info, full := node.inputs[route[0]].1, FullName(prefix, node.inputs[route[0]].0);
      RouteName(node, prefix, route) == RouteName(info, full, route[1..]) && (|route| == 1 ==> RouteName(info, full, route[1..]) == full)
  {
  }

  /** An input's own name, when it has a store path, and its nested names are all names. */
  lemma EntryName(node: Node, prefix: string, i: nat, key: string)
    requires i < |node.inputs|
    requires var info, full := node.inputs[i].1, FullName(prefix, node.inputs[i].0);
      (StorePath(info) != "" && key == full) || key in Names(info, full, |info.inputs|)
    ensures key in Names(node, prefix, |node.inputs|)
  {
    assert key in Names(node, prefix, i + 1);
    NamesGrow(node, prefix, i + 1, |node.inputs|);
  }



  /** Every name is the dotted name of a route to an input with a store path. */
  lemma {:induction false} NameHasRoute(node: Node, prefix: string, k: nat, key: string) returns (route: seq<nat>)
    requires k <= |node.inputs| && key in Names(node, prefix, k)
    ensures Reaches(node, route) && route[0] < k && RouteName(node, prefix, route) == key
    decreases node, k
  {
    var j := k - 1;
    var info := node.inputs[j].1;
    var full := FullName(prefix, node.inputs[j].0);
    if key in Names(info, full, |info.inputs|) {
      var sub := NameHasRoute(info, full, |info.inputs|, key);
      route := RouteThrough(node, prefix, j, sub);
    } else if key in Names(node, prefix, j) {
      route := NameHasRoute(node, prefix, j, key);
    } else {
      route := RouteThrough(node, prefix, j, []);
    }
  }

  /** A route from an input extends to a route from its parent. */
  lemma RouteThrough(node: Node, prefix: string, i: nat, sub: seq<nat>) returns (route: seq<nat>)
    requires i < |node.inputs|
    requires if sub == [] then StorePath(node.inputs[i].1) != "" else Reaches(node.inputs[i].1, sub)
    ensures route == [i] + sub && route[0] == i && Reaches(node, route)
    ensures RouteName(node, prefix, route) == RouteName(node.inputs[i].1, FullName(prefix, node.inputs[i].0), sub)
  {
    route := [i] + sub;
    assert route[1..] == sub;
  }

  /**
   * The flattened names are exactly the dotted names of the routes to inputs
   * with a store path (nested inputs of an input without one included).
   */
  lemma FlattenNames(node: Node, prefix: string, key: string)
    ensures HasKey(Flatten(node, prefix), key) <==>
      exists route :: Reaches(node, route) && RouteName(node, prefix, route) == key
  {
    NamesListed(node, prefix, |node.inputs|, key);
    if key in Names(node, prefix, |node.inputs|) {
      var route := NameHasRoute(node, prefix, |node.inputs|, key);
    }
    forall route | Reaches(node, route) && RouteName(node, prefix, route) == key
      ensures key in Names(node, prefix, |node.inputs|)
    {
      RouteIsName(node, prefix, route);
    }
  }

  /** Names stay distinct. */
  lemma {:induction false} FlattenFirstValid(node: Node, prefix: string, k: nat)
    requires k <= |node.inputs|
    ensures Valid(FlattenFirst(node, prefix, k))
    decreases k
  {
    if k > 0 {
      var j := k - 1;
      FlattenFirstValid(node, prefix, j);
      FlattenValidStep(node, prefix, j, k);
    }
  }

  lemma FlattenValidStep(node: Node, prefix: string, j: nat, k: nat)
    requires k == j + 1 && k <= |node.inputs| && Valid(FlattenFirst(node, prefix, j))
    ensures Valid(FlattenFirst(node, prefix, k))
  {
    var info, full := node.inputs[j].1, FullName(prefix, node.inputs[j].0);
    FlattenUnfold(node, prefix, j);
    AddEntryValid(FlattenFirst(node, prefix, k), FlattenFirst(node, prefix, j), full, StorePath(info), FlattenFirst(info, full, |info.inputs|));
  }

  /**
   * The assignments `result[full_name] = store_path` that flattening the first
   * `k` inputs makes, nested ones included, in the order they are made.
   */
  function Assignments(node: Node, prefix: string, k: nat): seq<(string, string)>
    requires k <= |node.inputs|
    decreases node, k
  {
    if k == 0 then []
    else
      var info := node.inputs[k - 1].1;
      var full := FullName(prefix, node.inputs[k - 1].0);
      Assignments(node, prefix, k - 1)
        + (if StorePath(info) != "" then [(full, StorePath(info))] else [])
        + Assignments(info, full, |info.inputs|)
  }

  /** The value of the last assignment to `key`, if any. */
  function LastAssigned(es: seq<(string, string)>, key: string): Option<string>
    decreases |es|
  {
    if es == [] then None
    else if es[|es| - 1].0 == key then Some(es[|es| - 1].1)
    else LastAssigned(es[..|es| - 1], key)
  }

  lemma {:induction false} LastAssignedAppend(a: seq<(string, string)>, b: seq<(string, string)>, key: string)
    ensures LastAssigned(a + b, key) == if LastAssigned(b, key).Some? then LastAssigned(b, key) else LastAssigned(a, key)
    decreases |b|
  {
    if b != [] {
      var init := b[..|b| - 1];
      assert (a + b)[..|a + b| - 1] == a + init;
      assert (a + b)[|a + b| - 1] == b[|b| - 1];
      LastAssignedAppend(a, init, key);
    } else {
      assert a + b == a;
    }
  }

  /**
   * Each name maps to the store path of the last input flattened under it:
   * a later input whose dotted name collides with an earlier one overwrites
   * it, as dict assignment and `update` do.
   */
  lemma {:induction false} FlattenPaths(node: Node, prefix: string, k: nat, key: string)
    requires k <= |node.inputs|
    ensures Get(FlattenFirst(node, prefix, k), key) == LastAssigned(Assignments(node, prefix, k), key)
    decreases node, k
  {
    if k > 0 {
      var j := k - 1;
      var info, full := node.inputs[j].1, FullName(prefix, node.inputs[j].0);
      var path := StorePath(info);
      var r := FlattenFirst(node, prefix, j);
      var nested := FlattenFirst(info, full, |info.inputs|);
      var own: seq<(string, string)> := if path != "" then [(full, path)] else [];
      FlattenUnfold(node, prefix, j);
      FlattenPaths(node, prefix, j, key);
      FlattenPaths(info, full, |info.inputs|, key);
      FlattenFirstValid(info, full, |info.inputs|);
      UpdateGet(if path != "" then Set(r, full, path) else r, nested, key);
      if path != "" && key != full {
        SetOther(r, full, path, key);
      }
      LastAssignedAppend(Assignments(node, prefix, j) + own, Assignments(info, full, |info.inputs|), key);
      LastAssignedAppend(Assignments(node, prefix, j), own, key);
    }
  }


  // ---------------------------------------------------------------------------
  // Queries
  // ---------------------------------------------------------------------------

  /** An `ls` query: `input` or `input:subpath`, leading '/' removed from the subpath. */
  function ParseLsQuery(query: string): (string, string)
  {
    if ':' in query then
      var (name, sub) := SplitOnce(query, ':');
      (name, TrimStart(sub, {'/'}))
    else (query, "")
  }

  /**
   * Without ':' the whole query names the input; otherwise the name ends at
   * the first ':' and the subpath is the rest after the slashes that follow.
   */
  lemma LsQuerySpec(query: string)
    ensures ':' !in query ==> ParseLsQuery(query) == (query, "")
    ensures ':' in query ==>
      var (name, sub) := ParseLsQuery(query);
      var cut := |query| - |sub|;
      && ':' !in name && |name| < cut && query[..|name|] == name && query[|name|] == ':'
      && query[cut..] == sub && (sub == "" || sub[0] != '/')
      && forall j :: |name| < j < cut ==> query[j] == '/'
  {
    if ':' in query {
      var (name, rest) := SplitOnce(query, ':');
      var sub := TrimStart(rest, {'/'});
      TrimStartSlashes(rest);
      assert query == name + [':'] + rest;
      assert query[|name| + 1..] == rest;
    }
  }

  lemma {:induction false} TrimStartSlashes(s: string)
    ensures forall j :: 0 <= j < |s| - |TrimStart(s, {'/'})| ==> s[j] == '/'
    decreases |s|
  {
    if |s| > 0 && s[0] == '/' {
      TrimStartSlashes(s[1..]);
    }
  }

  // ---------------------------------------------------------------------------
  // Checks before the file system
  // ---------------------------------------------------------------------------

  /** What `nix flake archive --json` produced. */
  datatype Archive = Archived(data: Node) | NoData | ArchiveFailed(msg: string)

  /** Either an error (code and message) or the input located in the store. */
  datatype Front = Refused(code: string, msg: string) | Located(input: string, subpath: string, storePath: string)

  /** The input names listed with a not-found error: the first ten in sorted order. */
  function ListedNames(inputs: Dict<string, string>): seq<string>
  {
    Take(SortBy(Keys(inputs), StrLe), 10)
  }

  function NotFoundMessage(name: string, inputs: Dict<string, string>): string
  {
    var more := if |inputs| > 10 then " ... and " + NatToString(|inputs| - 10) + " more" else "";
    "Input '" + name + "' not found. Available: " + Join(ListedNames(inputs), ", ") + more
  }

  /**
   * At most ten names are listed; they are input names, in sorted order, and
   * no unlisted name sorts before a listed one.
   */
  lemma ListedNamesSpec(inputs: Dict<string, string>)
    ensures |ListedNames(inputs)| == if |inputs| < 10 then |inputs| else 10
    ensures Sorted(ListedNames(inputs), StrLe)
    ensures forall x :: x in ListedNames(inputs) ==> HasKey(inputs, x)
    ensures forall i, y :: 0 <= i < |ListedNames(inputs)| && HasKey(inputs, y) && y !in ListedNames(inputs) ==>
      StrLe(ListedNames(inputs)[i], y)
  {
    var names := SortBy(Keys(inputs), StrLe);
    var listed := ListedNames(inputs);
    StrLeOrder();
    SortBySorted(Keys(inputs), StrLe);
    forall x | x in listed ensures HasKey(inputs, x) {
      SortByElements(Keys(inputs), StrLe, x);
    }
    forall i, y | 0 <= i < |listed| && HasKey(inputs, y) && y !in listed ensures StrLe(listed[i], y) {
      SortByElements(Keys(inputs), StrLe, y);
      var j :| 0 <= j < |names| && names[j] == y;
    }
  }

  /**
   * The not-found message names the missing input and the listed names; with
   * more than ten inputs it ends by counting exactly the names left unlisted,
   * and otherwise every input name is listed.
   */
  lemma {:induction false} NotFoundMessageSpec(name: string, inputs: Dict<string, string>)
    ensures var head := "Input '" + name + "' not found. Available: " + Join(ListedNames(inputs), ", ");
      StartsWith(NotFoundMessage(name, inputs), head)
      && (|inputs| <= 10 ==> NotFoundMessage(name, inputs) == head)
    ensures |inputs| > 10 ==>
      EndsWith(NotFoundMessage(name, inputs), " ... and " + NatToString(|inputs| - |ListedNames(inputs)|) + " more")
    ensures |inputs| <= 10 ==> forall key :: HasKey(inputs, key) ==> key in ListedNames(inputs)
  {
    var head := "Input '" + name + "' not found. Available: " + Join(ListedNames(inputs), ", ");
    var msg := NotFoundMessage(name, inputs);
    if |inputs| > 10 {
      var more := " ... and " + NatToString(|inputs| - 10) + " more";
      assert msg == head + more;
      assert msg[|msg| - |more|..] == more;
    } else {
      assert msg == head + "";
      forall key | HasKey(inputs, key) ensures key in ListedNames(inputs) {
        SortByElements(Keys(inputs), StrLe, key);
      }
    }
  }

  /** Looks the input up in the flattened archive. */
  function Locate(name: string, subpath: string, archive: Archive): Front
  {
    match archive
    case ArchiveFailed(msg) => Refused("FLAKE_ERROR", msg)
    case NoData => Refused("FLAKE_ERROR", "No flake data returned")
    case Archived(data) =>
      var inputs := Flatten(data, "");
      if HasKey(inputs, name) then Located(name, subpath, Get(inputs, name).value)
      else Refused("NOT_FOUND", NotFoundMessage(name, inputs))
  }

  const NixMissing := Refused("NIX_NOT_FOUND", "Nix is not installed or not in PATH")

  /** `ls` up to the point where it would look at the store. */
  function LsFront(nixAvailable: bool, query: string, archive: Archive): Front
  {
    if !nixAvailable then NixMissing
    else
      var (name, subpath) := ParseLsQuery(query);
      Locate(name, subpath, archive)
  }

  /** `read` up to the point where it would look at the store. */
  function ReadFront(nixAvailable: bool, query: string, archive: Archive): Front
  {
    if !nixAvailable then NixMissing
    else if ':' !in query then
      Refused("INVALID_FORMAT", "Read requires 'input:path' format (e.g., 'nixpkgs:flake.nix')")
    else
      var (name, path) := SplitOnce(query, ':');
      var filePath := TrimStart(path, {'/'});
      if filePath == "" then Refused("INVALID_FORMAT", "File path required (e.g., 'nixpkgs:flake.nix')")
      else Locate(name, filePath, archive)
  }

  /** The result a front step renders to when it refuses. */
  function FrontText(f: Front): Option<string>
  {
    match f
    case Refused(code, msg) => Some(Error(msg, code))
    case Located(_, _, _) => None
  }

  /**
   * A malformed `read` query is refused as INVALID_FORMAT whatever the flake
   * evaluation would give, so the evaluation is never needed.
   */
  lemma ReadFormatFirst(query: string, a: Archive, b: Archive)
    requires ':' !in query || TrimStart(SplitOnce(query, ':').1, {'/'}) == ""
    ensures ReadFront(true, query, a) == ReadFront(true, query, b)
    ensures ReadFront(true, query, a).Refused? && ReadFront(true, query, a).code == "INVALID_FORMAT"
  {
  }

  /**
   * A well-formed query reaches the archive, and a located input is the one
   * the query names, with its flattened store path.
   */
  lemma ReadLocates(query: string, data: Node)
    requires ':' in query && TrimStart(SplitOnce(query, ':').1, {'/'}) != ""
    ensures var name := SplitOnce(query, ':').0;
      var inputs := Flatten(data, "");
      && (ReadFront(true, query, Archived(data)).Located? <==> HasKey(inputs, name))
      && (HasKey(inputs, name) ==>
            ReadFront(true, query, Archived(data)).storePath == Get(inputs, name).value
            && ReadFront(true, query, Archived(data)).subpath == TrimStart(SplitOnce(query, ':').1, {'/'}))
  {
  }

  /** `ls` and `read` agree on which input a query names and where it lives. */
  lemma LsReadAgree(query: string, archive: Archive)
    requires ':' in query && TrimStart(SplitOnce(query, ':').1, {'/'}) != ""
    ensures LsFront(true, query, archive) == ReadFront(true, query, archive)
  {
  }

  // ---------------------------------------------------------------------------
  // Read output
  // ---------------------------------------------------------------------------

  /** The header of a file read; it announces truncation when there are more lines than the limit. */
  function ReadHeader(name: string, path: string, size: string, limit: nat, total: nat): seq<string>
  {
    ["File: " + name + ":" + path, "Size: " + size, ""]
      + if total > limit then ["(Showing " + NatToString(limit) + " of " + NatToString(total) + " lines)", ""] else []
  }

  /** The lines a read shows: the first `limit`, without their line terminators. */
  function Shown(fileLines: seq<string>, limit: nat): (r: seq<string>)
    ensures |r| == if limit < |fileLines| then limit else |fileLines|
    ensures forall i :: 0 <= i < |r| ==> r[i] == TrimEnd(fileLines[i], {'\n', '\r'})
  {
    seq(if limit < |fileLines| then limit else |fileLines|, i requires 0 <= i < |fileLines| => TrimEnd(fileLines[i], {'\n', '\r'}))
  }

  method ReadOutput(name: string, path: string, size: string, fileLines: seq<string>, limit: nat)
    returns (text: string)
    ensures text == Join(ReadHeader(name, path, size, limit, |fileLines|) + Shown(fileLines, limit), "\n")
  {
    var lines, total := ReadWithLimit(fileLines, limit);
    var header := ["File: " + name + ":" + path, "Size: " + size, ""];
    if total > limit {
      header := header + ["(Showing " + NatToString(limit) + " of " + NatToString(total) + " lines)"];
      header := header + [""];
    }
    assert header == ReadHeader(name, path, size, limit, total);
    assert lines == Shown(fileLines, limit);
    text := Join(header + lines, "\n");
  }

  /** The header announces truncation exactly when lines were left out. */
  lemma ReadTruncationAnnounced(name: string, path: string, size: string, fileLines: seq<string>, limit: nat)
    ensures |ReadHeader(name, path, size, limit, |fileLines|)| == 5 <==> |Shown(fileLines, limit)| < |fileLines|
    ensures |ReadHeader(name, path, size, limit, |fileLines|)| == 5 ==>
      ReadHeader(name, path, size, limit, |fileLines|)[3]
        == "(Showing " + NatToString(|Shown(fileLines, limit)|) + " of " + NatToString(|fileLines|) + " lines)"
  {
  }
}
