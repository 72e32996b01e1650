/**
 * The few Python `str` operations the server relies on, on `seq<char>`.
 * Only ASCII is modelled: `lower()`, `isdigit()`, `int()` and the whitespace
 * of `strip()`/`split()` are given their ASCII meaning.
 */
module Text {

  // ---------------------------------------------------------------------------
  // Digits and numbers
  // ---------------------------------------------------------------------------

  predicate IsDigit(c: char) { '0' <= c <= '9' }

  /** All characters are ASCII digits (possibly none). */
  predicate AllDigits(s: string) { forall i :: 0 <= i < |s| ==> IsDigit(s[i]) }

  /** Python's `s.isdigit()`: non-empty and all digits. */
  predicate IsDigits(s: string) { |s| > 0 && AllDigits(s) }

  function DigitValue(c: char): nat
    requires IsDigit(c)
  {
    c as int - '0' as int
  }

  function DigitChar(d: nat): (c: char)
    requires d < 10
    ensures IsDigit(c) && DigitValue(c) == d
  {
    ('0' as int + d) as char
  }

  /** The value of a string of ASCII digits (Python `int(s)` on such a string). */
  function DigitsValue(s: string): nat
    requires AllDigits(s)
  {
    if s == [] then 0 else 10 * DigitsValue(s[..|s| - 1]) + DigitValue(s[|s| - 1])
  }

  /** Decimal rendering without separators (Python `str(n)`). */
  function NatToString(n: nat): (r: string)
    ensures IsDigits(r)
  {
    if n < 10 then [DigitChar(n)] else NatToString(n / 10) + [DigitChar(n % 10)]
  }

  lemma {:induction false} DigitsValueOfNatToString(n: nat)
    ensures DigitsValue(NatToString(n)) == n
  {
    if n >= 10 {
      var s := NatToString(n);
      assert s[..|s| - 1] == NatToString(n / 10);
      DigitsValueOfNatToString(n / 10);
    }
  }

  /** Python `int(s)` restricted to an optional sign followed by ASCII digits. */
  function ParseInt(s: string): (r: Option<int>)
    ensures r.Some? ==> |s| > 0
  {
    if IsDigits(s) then Some(DigitsValue(s))
    else if |s| > 1 && s[0] == '-' && IsDigits(s[1..]) then Some(0 - DigitsValue(s[1..]))
    else if |s| > 1 && s[0] == '+' && IsDigits(s[1..]) then Some(DigitsValue(s[1..]))
    else None
  }

  /** Python's `int(s)`: surrounding blanks are ignored (underscores are not modelled). */
  function ToInt(s: string): Option<int>
  {
    ParseInt(Strip(s))
  }

  /** `int(str(n)) == n`. */
  lemma ToIntOfNatToString(n: nat)
    ensures ToInt(NatToString(n)) == Some(n)
  {
    var s := NatToString(n);
    assert !IsSpace(s[0]) && !IsSpace(s[|s| - 1]);
    StripUnchanged(s);
    DigitsValueOfNatToString(n);
  }

  /** Three zero-padded digits, one group of a thousands-separated number. */
  function Pad3(r: nat): (s: string)
    requires r < 1000
    ensures |s| == 3 && AllDigits(s)
  {
    [DigitChar(r / 100), DigitChar(r / 10 % 10), DigitChar(r % 10)]
  }

  /** Python's `f"{n:,}"`: decimal digits with a comma every three places. */
  function WithThousands(n: nat): string
  {
    if n < 1000 then NatToString(n) else WithThousands(n / 1000) + "," + Pad3(n % 1000)
  }

  lemma NatToStringSplit3(n: nat)
    requires n >= 1000
    ensures NatToString(n) == NatToString(n / 1000) + Pad3(n % 1000)
  {
    var a, b, c, r := n / 10, n / 100, n / 1000, n % 1000;
    ThousandsDigits(n);
    assert NatToString(n) == NatToString(a) + [DigitChar(n % 10)];
    assert NatToString(a) == NatToString(b) + [DigitChar(a % 10)];
    assert NatToString(b) == NatToString(c) + [DigitChar(b % 10)];
    assert Pad3(r) == [DigitChar(b % 10)] + [DigitChar(a % 10)] + [DigitChar(n % 10)];
  }

  /** The last three decimal digits of `n`, and what is left above them. */
  lemma ThousandsDigits(n: nat)
    ensures n / 10 / 10 == n / 100 && n / 100 / 10 == n / 1000
    ensures var r := n % 1000;
      n / 100 % 10 == r / 100 && n / 10 % 10 == r / 10 % 10 && n % 10 == r % 10
  {
  }

  // ---------------------------------------------------------------------------
  // Searching
  // ---------------------------------------------------------------------------

  /** Python's `sub in s`. */
  predicate Contains(s: string, sub: string)
    decreases |s|
  {
    sub <= s || (|s| > 0 && Contains(s[1..], sub))
  }

  /** Python's `s.startswith(p)`. */
  predicate StartsWith(s: string, p: string) { p <= s }

  /** Python's `s.endswith(p)`. */
  predicate EndsWith(s: string, p: string) { |p| <= |s| && s[|s| - |p|..] == p }

  lemma {:induction false} ContainsEmpty(s: string)
    ensures Contains(s, "")
  {
  }

  lemma {:induction false} ContainsAt(s: string, sub: string, i: nat)
    requires i + |sub| <= |s| && s[i..i + |sub|] == sub
    ensures Contains(s, sub)
  {
    if i > 0 {
      assert s[1..][i - 1..i - 1 + |sub|] == sub;
      ContainsAt(s[1..], sub, i - 1);
    } else {
      assert sub <= s;
    }
  }

  lemma {:induction false} EndsWithContains(s: string, p: string)
    requires EndsWith(s, p)
    ensures Contains(s, p)
  {
    ContainsAt(s, p, |s| - |p|);
  }

  lemma {:induction false} ContainsSelf(s: string)
    ensures Contains(s, s)
  {
    assert s <= s;
  }

  /** A string that holds `sub` is at least as long as `sub`. */
  lemma {:induction false} ContainsLength(s: string, sub: string)
    requires Contains(s, sub)
    ensures |sub| <= |s|
    decreases |s|
  {
    if !(sub <= s) {
      ContainsLength(s[1..], sub);
    }
  }

  /** Index of the first occurrence of a character. */
  function IndexOf(s: string, c: char): (i: nat)
    requires c in s
    ensures i < |s| && s[i] == c && c !in s[..i]
  {
    if s[0] == c then 0 else 1 + IndexOf(s[1..], c)
  }

  // ---------------------------------------------------------------------------
  // Case
  // ---------------------------------------------------------------------------

  function LowerChar(c: char): char
  {
    if 'A' <= c <= 'Z' then (c as int + 32) as char else c
  }

  /** Python's `s.lower()` on ASCII. */
  function Lower(s: string): (r: string)
    ensures |r| == |s| && forall i :: 0 <= i < |s| ==> r[i] == LowerChar(s[i])
  {
    seq(|s|, i requires 0 <= i < |s| => LowerChar(s[i]))
  }

  /** Case-insensitive equality as the server computes it, `a.lower() == b.lower()`. */
  predicate EqualsIgnoreCase(a: string, b: string) { Lower(a) == Lower(b) }

  // ---------------------------------------------------------------------------
  // Splitting and joining
  // ---------------------------------------------------------------------------

  /** Python's `s.split(c)`: always at least one part; the parts hold no `c`. */
  function Split(s: string, c: char): (parts: seq<string>)
    ensures |parts| >= 1
    ensures forall i :: 0 <= i < |parts| ==> c !in parts[i]
    decreases |s|
  {
    if |s| == 0 then [""]
    else
      var rest := Split(s[1..], c);
      if s[0] == c then [""] + rest else [[s[0]] + rest[0]] + rest[1..]
  }

  /** Python's `sep.join(parts)`. */
  function Join(parts: seq<string>, sep: string): string
  {
    if |parts| == 0 then ""
    else if |parts| == 1 then parts[0]
    else parts[0] + sep + Join(parts[1..], sep)
  }

  /** A join of two or more parts starts with the first two and continues with a separator or ends. */
  lemma JoinTail(parts: seq<string>, sep: string)
    requires |parts| >= 2
    ensures var head := parts[0] + sep + parts[1];
      && head <= Join(parts, sep)
      && (|parts| == 2 ==> Join(parts, sep) == head)
      && (|parts| > 2 ==> Join(parts, sep) == head + sep + Join(parts[2..], sep))
  {
    var head := parts[0] + sep + parts[1];
    var rest := parts[1..];
    if |parts| == 2 {
      assert Join(rest, sep) == parts[1];
    } else {
      assert rest[1..] == parts[2..];
      var tail := Join(parts[2..], sep);
      JoinAssoc(parts[0], parts[1], sep, tail);
      assert Join(parts, sep) == head + sep + tail;
      PrefixOfConcat(head, sep + tail);
    }
  }

  lemma JoinAssoc(a: string, b: string, sep: string, tail: string)
    ensures a + sep + (b + sep + tail) == (a + sep + b) + (sep + tail)
    ensures (a + sep + b) + (sep + tail) == (a + sep + b) + sep + tail
  {
  }

  lemma PrefixOfConcat(a: string, b: string)
    ensures a <= a + b
  {
  }

  lemma JoinPair(a: string, b: string, sep: string)
    ensures Join([a, b], sep) == a + sep + b
  {
    assert [a, b][1..] == [b];
  }

  /** A joined text starts with its first part. */
  lemma JoinHead(head: string, tail: string, rest: seq<string>, sep: string)
    ensures head <= Join([head + tail] + rest, sep)
  {
    var parts := [head + tail] + rest;
    if |parts| > 1 {
      assert Join(parts, sep) == head + (tail + sep + Join(parts[1..], sep));
    }
  }

  lemma {:induction false} JoinSplit(s: string, c: char)
    ensures Join(Split(s, c), [c]) == s
    decreases |s|
  {
    if |s| > 0 {
      JoinSplit(s[1..], c);
      var rest := Split(s[1..], c);
      if s[0] != c {
        if |rest| > 1 {
          assert Join(rest, [c]) == rest[0] + [c] + Join(rest[1..], [c]);
          assert Join([[s[0]] + rest[0]] + rest[1..], [c])
              == [s[0]] + rest[0] + [c] + Join(rest[1..], [c]);
        }
      } else {
        assert Join([""] + rest, [c]) == [c] + Join(rest, [c]);
      }
    }
  }

  lemma {:induction false} SplitWithout(s: string, c: char)
    requires c !in s
    ensures Split(s, c) == [s]
    decreases |s|
  {
    if |s| > 0 {
      assert s[0] != c;
      assert c !in s[1..];
      SplitWithout(s[1..], c);
      assert [s[0]] + s[1..] == s;
    }
  }

  lemma {:induction false} SplitWith(s: string, c: char)
    requires c in s
    ensures |Split(s, c)| >= 2
    decreases |s|
  {
    if s[0] != c {
      assert c in s[1..];
      SplitWith(s[1..], c);
    }
  }

  /** Splitting at a separator distributes over joining with it. */
  lemma {:induction false} SplitAppend(a: string, b: string, c: char)
    ensures Split(a + [c] + b, c) == Split(a, c) + Split(b, c)
    decreases |a|
  {
    if |a| == 0 {
      assert a + [c] + b == [c] + b;
    } else {
      var s, tail := a + [c] + b, a[1..];
      assert s[0] == a[0] && s[1..] == tail + [c] + b;
      SplitAppend(tail, b, c);
      var front, back := Split(tail, c), Split(b, c);
      assert Split(s[1..], c) == front + back;
      if a[0] == c {
        assert Split(s, c) == [""] + (front + back);
        assert Split(a, c) == [""] + front;
      } else {
        assert (front + back)[0] == front[0] && (front + back)[1..] == front[1..] + back;
        assert Split(s, c) == [[a[0]] + front[0]] + (front[1..] + back);
        assert Split(a, c) == [[a[0]] + front[0]] + front[1..];
      }
    }
  }

  /** Joining parts that hold no separator and splitting again gives the parts back. */
  lemma {:induction false} SplitJoin(parts: seq<string>, c: char)
    requires |parts| >= 1 && forall i :: 0 <= i < |parts| ==> c !in parts[i]
    ensures Split(Join(parts, [c]), c) == parts
    decreases |parts|
  {
    SplitWithout(parts[0], c);
    if |parts| > 1 {
      SplitJoin(parts[1..], c);
      SplitAppend(parts[0], Join(parts[1..], [c]), c);
      assert parts == [parts[0]] + parts[1..];
    }
  }

  /** The first part of a split is the text before the first separator, or all of it. */
  lemma {:induction false} SplitHead(s: string, c: char)
    ensures var head := Split(s, c)[0];
      head <= s && (|head| < |s| ==> s[|head|] == c)
    decreases |s|
  {
    if |s| > 0 && s[0] != c {
      SplitHead(s[1..], c);
    }
  }

  /** Python's `s.split(c, 1)` when `c` occurs: the text before and after its first occurrence. */
  function SplitOnce(s: string, c: char): (r: (string, string))
    requires c in s
    ensures r.0 + [c] + r.1 == s && c !in r.0
  {
    var i := IndexOf(s, c);
    assert s[..i] + [c] + s[i + 1..] == s;
    (s[..i], s[i + 1..])
  }

  // ---------------------------------------------------------------------------
  // Whitespace, stripping, replacing
  // ---------------------------------------------------------------------------

  /** The ASCII characters Python's `str.isspace()` accepts. */
  predicate IsSpace(c: char)
  {
    // space, \t \n \x0b \x0c \r, and the separators \x1c to \x1f
    c == ' ' || 9 <= c as int <= 13 || 28 <= c as int <= 31
  }

  /** Python's `s.lstrip(chars)`. */
  function TrimStart(s: string, chars: set<char>): (r: string)
    ensures |r| <= |s| && r == s[|s| - |r|..]
    ensures |r| > 0 ==> r[0] !in chars
    decreases |s|
  {
    if |s| > 0 && s[0] in chars then TrimStart(s[1..], chars) else s
  }

  /** Python's `s.rstrip(chars)`. */
  function TrimEnd(s: string, chars: set<char>): (r: string)
    ensures |r| <= |s| && r == s[..|r|]
    ensures |r| > 0 ==> r[|r| - 1] !in chars
    decreases |s|
  {
    if |s| > 0 && s[|s| - 1] in chars then TrimEnd(s[..|s| - 1], chars) else s
  }

  function TrimSpaceStart(s: string): (r: string)
    ensures |r| > 0 ==> !IsSpace(r[0])
    decreases |s|
  {
    if |s| > 0 && IsSpace(s[0]) then TrimSpaceStart(s[1..]) else s
  }

  function TrimSpaceEnd(s: string): (r: string)
    ensures |r| > 0 ==> !IsSpace(r[|r| - 1])
    decreases |s|
  {
    if |s| > 0 && IsSpace(s[|s| - 1]) then TrimSpaceEnd(s[..|s| - 1]) else s
  }

  /** Python's `s.strip()`. */
  function Strip(s: string): string
  {
    TrimSpaceEnd(TrimSpaceStart(s))
  }

  /** `strip()` changes nothing when both ends are already non-blank. */
  lemma StripUnchanged(s: string)
    requires |s| > 0 && !IsSpace(s[0]) && !IsSpace(s[|s| - 1])
    ensures Strip(s) == s
  {
  }

  /** `strip()` keeps a leading part that starts and ends with a non-blank character. */
  lemma StripKeepsHead(p: string, s: string)
    requires |p| > 0 && !IsSpace(p[0]) && !IsSpace(p[|p| - 1])
    ensures p <= Strip(p + s)
  {
    assert TrimSpaceStart(p + s) == p + s;
    TrimSpaceEndKeeps(p + s, |p|);
  }

  /** A result text that opens with a header line keeps that header when stripped. */
  lemma StripJoinHead(header: string, rest: seq<string>)
    requires |header| > 0 && !IsSpace(header[0]) && !IsSpace(header[|header| - 1])
    ensures header <= Strip(Join([header + "\n"] + rest, "\n"))
  {
    var text := Join([header + "\n"] + rest, "\n");
    JoinHead(header, "\n", rest, "\n");
    StripKeepsHead(header, text[|header|..]);
    assert header + text[|header|..] == text;
  }

  /** `strip()` leaves nothing exactly when every character is blank. */
  lemma StripBlank(s: string)
    ensures Strip(s) == "" <==> forall i :: 0 <= i < |s| ==> IsSpace(s[i])
  {
    TrimSpaceStartBlank(s);
    var t := TrimSpaceStart(s);
    if t != "" {
      TrimSpaceEndKeeps(t, 1);
    }
  }

  lemma {:induction false} TrimSpaceStartBlank(s: string)
    ensures TrimSpaceStart(s) == "" <==> forall i :: 0 <= i < |s| ==> IsSpace(s[i])
    decreases |s|
  {
    if |s| > 0 {
      TrimSpaceStartBlank(s[1..]);
      if IsSpace(s[0]) {
        assert forall i :: 1 <= i < |s| ==> s[i] == s[1..][i - 1];
      }
    }
  }

  lemma {:induction false} TrimSpaceEndKeeps(s: string, k: nat)
    requires 0 < k <= |s| && !IsSpace(s[k - 1])
    ensures s[..k] <= TrimSpaceEnd(s)
    decreases |s|
  {
    if IsSpace(s[|s| - 1]) {
      TrimSpaceEndKeeps(s[..|s| - 1], k);
      assert s[..|s| - 1][..k] == s[..k];
    }
  }

  /** Python's `s.split()`: the maximal runs of non-blank characters. */
  function Words(s: string): (r: seq<string>)
    ensures |s| > 0 && !IsSpace(s[0]) ==> |r| > 0 && |r[0]| > 0 && r[0][0] == s[0]
    ensures forall i :: 0 <= i < |r| ==> |r[i]| > 0
    decreases |s|
  {
    if |s| == 0 then []
    else if IsSpace(s[0]) then Words(s[1..])
    else
      var rest := Words(s[1..]);
      if |s| > 1 && !IsSpace(s[1]) then [[s[0]] + rest[0]] + rest[1..] else [[s[0]]] + rest
  }

  /** Python's `s.replace(pat, repl)`: left to right, non-overlapping. */
  function ReplaceAll(s: string, pat: string, repl: string): string
    requires |pat| > 0
    decreases |s|
  {
    if |s| == 0 then ""
    else if pat <= s then repl + ReplaceAll(s[|pat|..], pat, repl)
    else [s[0]] + ReplaceAll(s[1..], pat, repl)
  }

  /** Removing a single character distributes over concatenation. */
  lemma {:induction false} RemoveCharAppend(a: string, b: string, c: char)
    ensures ReplaceAll(a + b, [c], "") == ReplaceAll(a, [c], "") + ReplaceAll(b, [c], "")
    decreases |a|
  {
    if |a| > 0 {
      assert (a + b)[1..] == a[1..] + b;
      RemoveCharAppend(a[1..], b, c);
    } else {
      assert a + b == b;
    }
  }

  lemma {:induction false} RemoveCharAbsent(s: string, c: char)
    requires c !in s
    ensures ReplaceAll(s, [c], "") == s
    decreases |s|
  {
    if |s| > 0 {
      assert s[0] != c;
      assert !([c] <= s);
      assert c !in s[1..];
      RemoveCharAbsent(s[1..], c);
    }
  }

  /** Python's `s[:n]`, including its meaning for a negative `n`. */
  function Take<T>(s: seq<T>, n: int): (r: seq<T>)
    ensures |r| <= |s| && r == s[..|r|]
    ensures n >= 0 ==> |r| == if n < |s| then n else |s|
  {
    if n >= 0 then (if n < |s| then s[..n] else s)
    else if |s| + n > 0 then s[..|s| + n] else []
  }

  /** The server's `text[:n] + "..." if len(text) > n else text`. */
  function Truncate(s: string, n: nat): (r: string)
    ensures |s| <= n ==> r == s
    ensures |s| > n ==> |r| == n + 3 && r[..n] == s[..n]
  {
    if |s| > n then s[..n] + "..." else s
  }

  // ---------------------------------------------------------------------------
  // Ordering
  // ---------------------------------------------------------------------------

  /** Python's `a <= b` on strings: lexicographic by code point. */
  predicate StrLe(a: string, b: string)
    decreases |a|
  {
    if |a| == 0 then true
    else if |b| == 0 then false
    else if a[0] != b[0] then a[0] < b[0]
    else StrLe(a[1..], b[1..])
  }

  lemma {:induction false} StrLeTotal(a: string, b: string)
    ensures StrLe(a, b) || StrLe(b, a)
    decreases |a|
  {
    if |a| > 0 && |b| > 0 && a[0] == b[0] {
      StrLeTotal(a[1..], b[1..]);
    }
  }

  lemma {:induction false} StrLeTrans(a: string, b: string, c: string)
    requires StrLe(a, b) && StrLe(b, c)
    ensures StrLe(a, c)
    decreases |a|
  {
    if |a| > 0 && |b| > 0 && |c| > 0 && a[0] == b[0] && b[0] == c[0] {
      StrLeTrans(a[1..], b[1..], c[1..]);
    }
  }

  lemma {:induction false} StrLeAntisym(a: string, b: string)
    requires StrLe(a, b) && StrLe(b, a)
    ensures a == b
    decreases |a|
  {
    if |a| > 0 && |b| > 0 {
      StrLeAntisym(a[1..], b[1..]);
      assert a == [a[0]] + a[1..] && b == [b[0]] + b[1..];
    }
  }

  /** `StrLe` is a total order on strings. */
  lemma StrLeOrder()
    ensures forall a, b :: StrLe(a, b) || StrLe(b, a)
    ensures forall a, b, c :: StrLe(a, b) && StrLe(b, c) ==> StrLe(a, c)
  {
    forall a, b ensures StrLe(a, b) || StrLe(b, a) { StrLeTotal(a, b); }
    forall a, b, c | StrLe(a, b) && StrLe(b, c) ensures StrLe(a, c) { StrLeTrans(a, b, c); }
  }

  import opened Wrappers
}
