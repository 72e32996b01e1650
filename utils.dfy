/**
 * The helpers of mcp_nixos/utils.py that carry decisions: error strings,
 * version ordering keys, narinfo parsing, line-limited reading and the
 * summary lines of a package release.
 */
module Utils {
  import opened Wrappers
  import opened Text
  import opened Sorting

  // ---------------------------------------------------------------------------
  // Error strings
  // ---------------------------------------------------------------------------

  /** The error text every tool returns: `Error (<code>): <msg>`. */
  function Error(msg: string, code: string := "ERROR"): string
  {
    "Error (" + code + "): " + msg
  }

  /** Reads an error text back into its code and message. */
  function ParseError(s: string): Option<(string, string)>
  {
    var prefix := "Error (";
    if !(prefix <= s) then None
    else
      var rest := s[|prefix|..];
      if ')' !in rest then None
      else
        var (code, tail) := SplitOnce(rest, ')');
        if ": " <= tail then Some((code, tail[2..])) else None
  }

  /** An error text determines its code (when it has no ')') and its message. */
  lemma ErrorRoundTrip(msg: string, code: string)
    requires ')' !in code
    ensures ParseError(Error(msg, code)) == Some((code, msg))
  {
    var s := Error(msg, code);
    var rest := s[|"Error ("|..];
    assert rest == code + [')'] + ": " + msg;
    assert rest[|code|] == ')';
    var (c, tail) := SplitOnce(rest, ')');
    SplitOnceAt(rest, code, ": " + msg, ')');
  }

  /** `SplitOnce` cuts at the first occurrence of its separator. */
  lemma SplitOnceAt(s: string, a: string, b: string, c: char)
    requires s == a + [c] + b && c !in a
    ensures c in s && SplitOnce(s, c) == (a, b)
  {
    assert s[|a|] == c;
    var r := SplitOnce(s, c);
    assert r.0 == a;
  }

  // ---------------------------------------------------------------------------
  // Version keys
  // ---------------------------------------------------------------------------

  /** The run of digits a version component starts with. */
  function LeadingDigits(s: string): (d: string)
    ensures AllDigits(d) && d <= s
    ensures |d| < |s| ==> !IsDigit(s[|d|])
  {
    if |s| > 0 && IsDigit(s[0]) then [s[0]] + LeadingDigits(s[1..]) else ""
  }

  /** A component's value: its leading digits, or 0 when it starts with a non-digit. */
  function ComponentValue(part: string): nat
  {
    var d := LeadingDigits(part);
    if d == "" then 0 else DigitsValue(d)
  }

  function ComponentAt(parts: seq<string>, i: nat): nat
  {
    if i < |parts| then ComponentValue(parts[i]) else 0
  }

  /** The `(major, minor, patch)` key releases are ordered by. */
  function VersionKeyOf(v: string): (nat, nat, nat)
  {
    var parts := Split(v, '.');
    (ComponentAt(parts, 0), ComponentAt(parts, 1), ComponentAt(parts, 2))
  }

  /** The value of one component, read digit by digit. */
  method ReadComponent(part: string) returns (n: nat)
    ensures n == ComponentValue(part)
  {
    var numeric := "";
    var j := 0;
    while j < |part| && IsDigit(part[j])
      invariant 0 <= j <= |part| && numeric == part[..j] && AllDigits(numeric)
    {
      numeric := numeric + [part[j]];
      j := j + 1;
    }
    assert numeric + part[j..] == part;
    LeadingDigitsPrefix(numeric, part[j..]);
    n := if numeric != "" then DigitsValue(numeric) else 0;
  }

  /** The key as the server computes it: at most three components, padded with zeros. */
  method VersionKey(v: string) returns (key: (nat, nat, nat))
    ensures key == VersionKeyOf(v)
  {
    var parts := Split(v, '.');
    var nums: seq<nat> := [];
    var k := 0;
    while k < |parts| && k < 3
      invariant 0 <= k <= |parts| && k <= 3 && |nums| == k
      invariant forall i :: 0 <= i < k ==> nums[i] == ComponentAt(parts, i)
    {
      var n := ReadComponent(parts[k]);
      nums := nums + [n];
      k := k + 1;
    }
    while |nums| < 3
      invariant k <= |nums| <= 3
      invariant forall i :: 0 <= i < |nums| ==> nums[i] == ComponentAt(parts, i)
    {
      nums := nums + [0];
    }
    key := (nums[0], nums[1], nums[2]);
  }

  lemma LeadingDigitsAll(d: string)
    requires AllDigits(d)
    ensures LeadingDigits(d) == d
  {
    if |d| > 0 {
      LeadingDigitsAll(d[1..]);
    }
  }

  /** The value of a component is that of its leading digit run. */
  lemma {:induction false} ComponentLeadingRun(d: string, rest: string)
    requires IsDigits(d) && (rest == "" || !IsDigit(rest[0]))
    ensures ComponentValue(d + rest) == DigitsValue(d)
    decreases |d|
  {
    LeadingDigitsPrefix(d, rest);
  }

  lemma {:induction false} LeadingDigitsPrefix(d: string, rest: string)
    requires AllDigits(d) && (rest == "" || !IsDigit(rest[0]))
    ensures LeadingDigits(d + rest) == d
    decreases |d|
  {
    if |d| > 0 {
      assert (d + rest)[1..] == d[1..] + rest;
      LeadingDigitsPrefix(d[1..], rest);
    } else {
      assert d + rest == rest;
    }
  }

  lemma NumberComponent(n: nat)
    ensures '.' !in NatToString(n) && ComponentValue(NatToString(n)) == n
  {
    var s := NatToString(n);
    assert forall i :: 0 <= i < |s| ==> s[i] != '.';
    LeadingDigitsAll(s);
    DigitsValueOfNatToString(n);
  }

  /** A three-number version reads back as its numbers. */
  lemma VersionKeyRoundTrip(a: nat, b: nat, c: nat)
    ensures VersionKeyOf(NatToString(a) + "." + NatToString(b) + "." + NatToString(c)) == (a, b, c)
  {
    var sa, sb, sc := NatToString(a), NatToString(b), NatToString(c);
    NumberComponent(a);
    NumberComponent(b);
    NumberComponent(c);
    SplitWithout(sa, '.');
    SplitWithout(sb, '.');
    SplitWithout(sc, '.');
    SplitAppend(sa, sb, '.');
    SplitAppend(sa + "." + sb, sc, '.');
    assert Split(sa + "." + sb + "." + sc, '.') == [sa, sb, sc];
  }

  /** Missing components count as 0. */
  lemma VersionKeyPadding(a: nat, b: nat)
    ensures VersionKeyOf(NatToString(a)) == (a, 0, 0)
    ensures VersionKeyOf(NatToString(a) + "." + NatToString(b)) == (a, b, 0)
  {
    var sa, sb := NatToString(a), NatToString(b);
    NumberComponent(a);
    NumberComponent(b);
    SplitWithout(sa, '.');
    SplitWithout(sb, '.');
    SplitAppend(sa, sb, '.');
  }

  /** Components after the third do not matter. */
  lemma VersionKeyIgnoresTail(v: string, tail: string)
    requires |Split(v, '.')| >= 3
    ensures VersionKeyOf(v + "." + tail) == VersionKeyOf(v)
  {
    SplitAppend(v, tail, '.');
  }

  /** Lexicographic order on keys, the order of Python tuples. */
  predicate KeyLess(x: (nat, nat, nat), y: (nat, nat, nat))
  {
    x.0 < y.0 || (x.0 == y.0 && (x.1 < y.1 || (x.1 == y.1 && x.2 < y.2)))
  }

  /**
   * Keys of three-number versions compare as their numbers do, component by
   * component, and not as text: "3.10.12" sorts above "3.9.9".
   */
  lemma {:induction false} VersionKeyNumericOrder(a: nat, b: nat, c: nat, a2: nat, b2: nat, c2: nat)
    ensures var v := NatToString(a) + "." + NatToString(b) + "." + NatToString(c);
      var v2 := NatToString(a2) + "." + NatToString(b2) + "." + NatToString(c2);
      (KeyLess(VersionKeyOf(v), VersionKeyOf(v2)) <==> a < a2 || (a == a2 && (b < b2 || (b == b2 && c < c2))))
      && (VersionKeyOf(v) == VersionKeyOf(v2) <==> a == a2 && b == b2 && c == c2)
  {
    VersionKeyRoundTrip(a, b, c);
    VersionKeyRoundTrip(a2, b2, c2);
  }

  // ---------------------------------------------------------------------------
  // Narinfo
  // ---------------------------------------------------------------------------

  /** The fields of a narinfo file the server reads; `None` is an absent key. */
  datatype NarInfo = NarInfo(
    fileSize: Option<int>,
    narSize: Option<int>,
    compression: Option<string>,
    storePath: Option<string>,
    url: Option<string>)

  const NoNarInfo := NarInfo(None, None, None, None, None)

  /** A line's key (trimmed, lower-cased) and value (trimmed), if it has a ':'. */
  function KeyValue(line: string): Option<(string, string)>
  {
    if ':' !in line then None
    else
      var (key, value) := SplitOnce(line, ':');
      Some((Lower(Strip(key)), Strip(value)))
  }

  function ApplyLine(r: NarInfo, line: string): NarInfo
  {
    match KeyValue(line)
    case None => r
    case Some((key, value)) =>
      if key == "filesize" then (if ToInt(value).Some? then r.(fileSize := ToInt(value)) else r)
      else if key == "narsize" then (if ToInt(value).Some? then r.(narSize := ToInt(value)) else r)
      else if key == "compression" then r.(compression := Some(value))
      else if key == "storepath" then r.(storePath := Some(value))
      else if key == "url" then r.(url := Some(value))
      else r
  }

  /** The parse of a sequence of lines, line by line. */
  function NarinfoOf(lines: seq<string>): NarInfo
    decreases |lines|
  {
    if lines == [] then NoNarInfo else ApplyLine(NarinfoOf(lines[..|lines| - 1]), lines[|lines| - 1])
  }

  method ParseNarinfo(text: string) returns (r: NarInfo)
    ensures r == NarinfoOf(Split(text, '\n'))
  {
    var lines := Split(text, '\n');
    r := NoNarInfo;
    var i := 0;
    while i < |lines|
      invariant 0 <= i <= |lines| && r == NarinfoOf(lines[..i])
    {
      var line := lines[i];
      if ':' in line {
        var (key0, value0) := SplitOnce(line, ':');
        var key := Lower(Strip(key0));
        var value := Strip(value0);
        if key == "filesize" {
          var n := ToInt(value);
          if n.Some? {
            r := r.(fileSize := n);
          }
        } else if key == "narsize" {
          var n := ToInt(value);
          if n.Some? {
            r := r.(narSize := n);
          }
        } else if key == "compression" {
          r := r.(compression := Some(value));
        } else if key == "storepath" {
          r := r.(storePath := Some(value));
        } else if key == "url" {
          r := r.(url := Some(value));
        }
      }
      assert lines[..i + 1][..i] == lines[..i];
      i := i + 1;
    }
    assert lines[..i] == lines;
  }

  /** The value of the last line with key `key`. */
  function LastValue(lines: seq<string>, key: string): Option<string>
    decreases |lines|
  {
    if lines == [] then None
    else match KeyValue(lines[|lines| - 1])
      case Some((k, v)) => if k == key then Some(v) else LastValue(lines[..|lines| - 1], key)
      case None => LastValue(lines[..|lines| - 1], key)
  }

  /** The number of the last line with key `key` whose value is a number. */
  function LastNumber(lines: seq<string>, key: string): Option<int>
    decreases |lines|
  {
    if lines == [] then None
    else match KeyValue(lines[|lines| - 1])
      case Some((k, v)) =>
        if k == key && ToInt(v).Some? then ToInt(v) else LastNumber(lines[..|lines| - 1], key)
      case None => LastNumber(lines[..|lines| - 1], key)
  }

  /**
   * Each field holds the value of the last line that sets it: later lines
   * override earlier ones, a malformed size leaves the field as it was, and
   * lines without ':' or with other keys change nothing.
   */
  lemma {:induction false} NarinfoIsLastValues(lines: seq<string>)
    ensures NarinfoOf(lines) == NarInfo(
      LastNumber(lines, "filesize"), LastNumber(lines, "narsize"),
      LastValue(lines, "compression"), LastValue(lines, "storepath"), LastValue(lines, "url"))
    decreases |lines|
  {
    if lines != [] {
      NarinfoIsLastValues(lines[..|lines| - 1]);
    }
  }

  // ---------------------------------------------------------------------------
  // Line-limited reading
  // ---------------------------------------------------------------------------

  /**
   * The first `limit` lines of a file, without their line terminators, and
   * the number of lines in the file. The file is given as its lines.
   */
  method ReadWithLimit(fileLines: seq<string>, limit: int) returns (lines: seq<string>, total: nat)
    ensures total == |fileLines|
    ensures |lines| == if limit <= 0 then 0 else if limit < total then limit else total
    ensures forall i :: 0 <= i < |lines| ==> lines[i] == TrimEnd(fileLines[i], {'\n', '\r'})
  {
    lines := [];
    total := 0;
    var i := 0;
    while i < |fileLines|
      invariant 0 <= i <= |fileLines| && total == i
      invariant |lines| == if limit <= 0 then 0 else if limit < i then limit else i
      invariant forall j :: 0 <= j < |lines| ==> lines[j] == TrimEnd(fileLines[j], {'\n', '\r'})
    {
      total := total + 1;
      if i < limit {
        lines := lines + [TrimEnd(fileLines[i], {'\n', '\r'})];
      }
      i := i + 1;
    }
  }

  // ---------------------------------------------------------------------------
  // Release summaries
  // ---------------------------------------------------------------------------

  /** An entry of a release's `platforms` list. */
  datatype Platform =
    | SystemName(name: string)      // a plain system name
    | SystemRecord(system: string)  // a record with a "system" key ("" when absent)
    | OtherPlatform                 // anything else

  /** A value of a release's `systems` map. */
  datatype SystemInfo = SystemInfo(attrPaths: seq<string>) | OtherInfo

  datatype Release = Release(
    version: Option<string>,
    platforms: seq<Platform>,
    commitHash: string,
    systems: Option<seq<SystemInfo>>)  // None when `systems` is not a map

  /** The distinct system names of the platform list, in first-seen order. */
  function SystemsOf(platforms: seq<Platform>): (systems: seq<string>)
    decreases |platforms|
  {
    if platforms == [] then []
    else
      var rest := SystemsOf(platforms[..|platforms| - 1]);
      match platforms[|platforms| - 1]
      case SystemName(s) => if s in rest then rest else rest + [s]
      case SystemRecord(s) => if s != "" && s !in rest then rest + [s] else rest
      case OtherPlatform => rest
  }

  /** A name is collected exactly when some entry supplies it. */
  lemma {:induction false} SystemsOfMembers(platforms: seq<Platform>, s: string)
    ensures s in SystemsOf(platforms) <==>
      exists i :: 0 <= i < |platforms| && (platforms[i] == SystemName(s) || (platforms[i] == SystemRecord(s) && s != ""))
    decreases |platforms|
  {
    if platforms != [] {
      var init := platforms[..|platforms| - 1];
      SystemsOfMembers(init, s);
      assert forall i :: 0 <= i < |init| ==> init[i] == platforms[i];
    }
  }

  /** No name is collected twice. */
  lemma {:induction false} SystemsOfDistinct(platforms: seq<Platform>)
    ensures forall i, j :: 0 <= i < j < |SystemsOf(platforms)| ==> SystemsOf(platforms)[i] != SystemsOf(platforms)[j]
    decreases |platforms|
  {
    if platforms != [] {
      SystemsOfDistinct(platforms[..|platforms| - 1]);
    }
  }

  predicate AnyContains(names: seq<string>, sub: string)
  {
    exists i :: 0 <= i < |names| && Contains(names[i], sub)
  }

  /** How the platform line presents the systems. */
  datatype PlatformSummary = LinuxAndMacOS | LinuxOnly | MacOSOnly | Listed(names: seq<string>)

  function Summarize(systems: seq<string>): PlatformSummary
  {
    var linux := AnyContains(systems, "linux");
    var darwin := AnyContains(systems, "darwin");
    if linux && darwin then LinuxAndMacOS
    else if linux then LinuxOnly
    else if darwin then MacOSOnly
    else Listed(SortBy(systems, StrLe))
  }

  function PlatformLine(summary: PlatformSummary): string
  {
    match summary
    case LinuxAndMacOS => "  Platforms: Linux and macOS"
    case LinuxOnly => "  Platforms: Linux"
    case MacOSOnly => "  Platforms: macOS"
    case Listed(names) => "  Platforms: " + Join(names, ", ")
  }

  /**
   * The summary names both families exactly when some system mentions "linux"
   * and some mentions "darwin"; otherwise it lists the systems in sorted order.
   */
  lemma SummarizeSpec(systems: seq<string>)
    ensures Summarize(systems) == LinuxAndMacOS <==> AnyContains(systems, "linux") && AnyContains(systems, "darwin")
    ensures Summarize(systems).Listed? ==>
      && !AnyContains(systems, "linux") && !AnyContains(systems, "darwin")
      && Sorted(Summarize(systems).names, StrLe)
      && multiset(Summarize(systems).names) == multiset(systems)
  {
    if Summarize(systems).Listed? {
      StrLeOrder();
      SortBySorted(systems, StrLe);
    }
  }

  predicate IsHexDigit(c: char)
  {
    '0' <= c <= '9' || 'a' <= c <= 'f' || 'A' <= c <= 'F'
  }

  predicate AllHex(s: string)
  {
    forall i :: 0 <= i < |s| ==> IsHexDigit(s[i])
  }

  /**
   * The commit test as written, `re.match(r"^[a-fA-F0-9]{40}$", commit)`:
   * Python's `$` also matches just before a final newline.
   */
  predicate MatchesCommitPattern(s: string)
  {
    (|s| == 40 && AllHex(s)) || (|s| == 41 && s[40] == '\n' && AllHex(s[..40]))
  }

  /** A nixpkgs commit hash: exactly 40 hexadecimal digits. */
  predicate IsCommitHash(s: string)
  {
    |s| == 40 && AllHex(s)
  }

  /** The pattern as written lets a hash followed by a newline through. */
  lemma CommitPatternAcceptsNewline(h: string)
    requires IsCommitHash(h)
    ensures MatchesCommitPattern(h + "\n") && !IsCommitHash(h + "\n")
  {
    assert (h + "\n")[..40] == h;
  }

  /** The corrected test accepts exactly what the pattern accepts without a newline. */
  lemma CommitHashCorrected(s: string)
    ensures IsCommitHash(s) <==> MatchesCommitPattern(s) && '\n' !in s
  {
    if MatchesCommitPattern(s) && |s| == 41 {
      assert s[40] in s;
    }
    if IsCommitHash(s) {
      assert forall i :: 0 <= i < |s| ==> s[i] != '\n';
    }
  }

  /** The first non-empty attribute path list among the systems, if any. */
  function FirstAttrPath(systems: seq<SystemInfo>): Option<string>
  {
    if systems == [] then None
    else match systems[0]
      case SystemInfo(paths) => if paths != [] then Some(paths[0]) else FirstAttrPath(systems[1..])
      case OtherInfo => FirstAttrPath(systems[1..])
  }

  function CommitLines(release: Release): seq<string>
  {
    if !IsCommitHash(release.commitHash) then []
    else
      var attr := match release.systems
        case Some(systems) => FirstAttrPath(systems)
        case None => None;
      ["  Nixpkgs commit: " + release.commitHash]
        + (if attr.Some? then ["  Attribute: " + attr.value] else [])
  }

  /** The summary lines of a release (the date line is not modelled). */
  function ReleaseLines(release: Release): seq<string>
  {
    var systems := SystemsOf(release.platforms);
    ["* " + release.version.GetOr("unknown")]
      + (if release.platforms != [] && systems != [] then [PlatformLine(Summarize(systems))] else [])
      + CommitLines(release)
  }

  /** The commit line appears exactly for a 40-digit hash, with at most one attribute line after it. */
  lemma CommitLinesSpec(release: Release)
    ensures |CommitLines(release)| <= 2
    ensures CommitLines(release) != [] <==> IsCommitHash(release.commitHash)
    ensures |CommitLines(release)| == 2 ==>
      release.systems.Some? && CommitLines(release)[1] == "  Attribute: " + FirstAttrPath(release.systems.value).value
  {
  }

  /** The attribute path shown is the first of the first system that has any. */
  lemma {:induction false} FirstAttrPathSpec(systems: seq<SystemInfo>, k: nat)
    requires k < |systems| && systems[k].SystemInfo? && systems[k].attrPaths != []
    requires forall j :: 0 <= j < k ==> systems[j].OtherInfo? || systems[j].attrPaths == []
    ensures FirstAttrPath(systems) == Some(systems[k].attrPaths[0])
  {
    if k > 0 {
      FirstAttrPathSpec(systems[1..], k - 1);
    }
  }

  method FormatRelease(release: Release) returns (lines: seq<string>)
    ensures lines == ReleaseLines(release)
  {
    lines := ["* " + release.version.GetOr("unknown")];
    if |release.platforms| > 0 {
      var systems: seq<string> := [];
      var i := 0;
      while i < |release.platforms|
        invariant 0 <= i <= |release.platforms|
        invariant systems == SystemsOf(release.platforms[..i])
      {
        match release.platforms[i] {
          case SystemName(s) =>
            if s !in systems {
              systems := systems + [s];
            }
          case SystemRecord(s) =>
            if s != "" && s !in systems {
              systems := systems + [s];
            }
          case OtherPlatform =>
        }
        assert release.platforms[..i + 1][..i] == release.platforms[..i];
        i := i + 1;
      }
      assert release.platforms[..i] == release.platforms;
      if |systems| > 0 {
        lines := lines + [PlatformLine(Summarize(systems))];
      }
    }
    if IsCommitHash(release.commitHash) {
      lines := lines + ["  Nixpkgs commit: " + release.commitHash];
      if release.systems.Some? {
        var systems := release.systems.value;
        var i := 0;
        while i < |systems|
          invariant 0 <= i <= |systems|
          invariant FirstAttrPath(systems) == FirstAttrPath(systems[i..])
        {
          if systems[i].SystemInfo? && systems[i].attrPaths != [] {
            lines := lines + ["  Attribute: " + systems[i].attrPaths[0]];
            break;
          }
          assert systems[i..][1..] == systems[i + 1..];
          i := i + 1;
        }
      }
    }
  }
}
