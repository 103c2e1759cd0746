/** The Python string operations the maintenance tool relies on: `strip`,
    `split`, `join`, `startswith`, `in`, `lower`/`upper` and integer rendering,
    with the lemmas that the rest of the model uses about them. */
module Text {
  import opened Wrappers

  /** Python's `str.isspace` for one character. */
  predicate IsSpace(c: char) {
    c == ' ' || ('\t' <= c <= '\r') || ('\U{1C}' <= c <= '\U{1F}')
    || c == '\U{85}' || c == '\U{A0}' || c == '\U{1680}'
    || ('\U{2000}' <= c <= '\U{200A}') || c == '\U{2028}' || c == '\U{2029}'
    || c == '\U{202F}' || c == '\U{205F}' || c == '\U{3000}'
  }

  predicate AllSpace(s: string) {
    forall i :: 0 <= i < |s| ==> IsSpace(s[i])
  }

  predicate NoSpace(s: string) {
    forall i :: 0 <= i < |s| ==> !IsSpace(s[i])
  }

  /** A non-empty run of non-whitespace characters, as `split()` produces. */
  predicate IsWord(w: string) {
    w != [] && NoSpace(w)
  }

  lemma NoSpaceAppend(a: string, b: string)
    requires NoSpace(a) && NoSpace(b)
    ensures NoSpace(a + b)
  {
    forall i | 0 <= i < |a + b| ensures !IsSpace((a + b)[i]) {
      if i >= |a| {
        assert (a + b)[i] == b[i - |a|];
      }
    }
  }

  /** Word lists put together are word lists. */
  lemma AllWordsAppend(a: seq<string>, b: seq<string>)
    requires forall k :: 0 <= k < |a| ==> IsWord(a[k])
    requires forall k :: 0 <= k < |b| ==> IsWord(b[k])
    ensures forall k :: 0 <= k < |a + b| ==> IsWord((a + b)[k])
  {
    forall k | 0 <= k < |a + b| ensures IsWord((a + b)[k]) {
      if k >= |a| {
        assert (a + b)[k] == b[k - |a|];
      }
    }
  }

  /** The number of leading whitespace characters. */
  function LeadingSpace(s: string): (n: nat)
    ensures n <= |s| && AllSpace(s[..n]) && (n < |s| ==> !IsSpace(s[n]))
  {
    if s != [] && IsSpace(s[0]) then
      var m := LeadingSpace(s[1..]);
      1 + m
    else 0
  }

  /** The number of trailing whitespace characters. */
  function TrailingSpace(s: string): (n: nat)
    ensures n <= |s| && AllSpace(s[|s| - n..]) && (n < |s| ==> !IsSpace(s[|s| - n - 1]))
  {
    if s != [] && IsSpace(s[|s| - 1]) then
      var m := TrailingSpace(s[..|s| - 1]);
      1 + m
    else 0
  }

  /** `s.lstrip()`. */
  function LStrip(s: string): string {
    s[LeadingSpace(s)..]
  }

  /** `s.rstrip()`. */
  function RStrip(s: string): string {
    s[..|s| - TrailingSpace(s)]
  }

  /** `s.strip()`: both ends, whitespace only. */
  function Strip(s: string): string {
    RStrip(LStrip(s))
  }

  /** A stripped string has no whitespace at either end, so stripping it again
      changes nothing. */
  lemma StripIdempotent(s: string)
    ensures var t := Strip(s); t == [] || (!IsSpace(t[0]) && !IsSpace(t[|t| - 1]))
    ensures Strip(Strip(s)) == Strip(s)
  {
    var l := LStrip(s);
    var t := RStrip(l);
    if t != [] {
      assert t[0] == l[0];
    }
    StripOfTrimmed(t);
  }

  /** A string without whitespace at either end is its own strip. */
  lemma StripOfTrimmed(t: string)
    requires t == [] || (!IsSpace(t[0]) && !IsSpace(t[|t| - 1]))
    ensures LStrip(t) == t && RStrip(t) == t
    ensures Strip(t) == t
  {
  }

  /** `s.strip(c)` for a single character `c`. */
  function StripChar(s: string, c: char): (r: string)
    ensures r != [] ==> r[0] != c && r[|r| - 1] != c
  {
    RStripChar(LStripChar(s, c), c)
  }

  /** The number of leading copies of `c`. */
  function LeadingChar(s: string, c: char): (n: nat)
    ensures n <= |s| && (n < |s| ==> s[n] != c)
  {
    if s != [] && s[0] == c then 1 + LeadingChar(s[1..], c) else 0
  }

  /** The number of trailing copies of `c`. */
  function TrailingChar(s: string, c: char): (n: nat)
    ensures n <= |s| && (n < |s| ==> s[|s| - n - 1] != c)
  {
    if s != [] && s[|s| - 1] == c then 1 + TrailingChar(s[..|s| - 1], c) else 0
  }

  /** `s.lstrip(c)` for a single character `c`. */
  function LStripChar(s: string, c: char): string {
    s[LeadingChar(s, c)..]
  }

  /** `s.rstrip(c)` for a single character `c`. */
  function RStripChar(s: string, c: char): string {
    s[..|s| - TrailingChar(s, c)]
  }

  predicate StartsWith(s: string, prefix: string) {
    |prefix| <= |s| && s[..|prefix|] == prefix
  }

  /** Python's `sub in s` on two strings: a substring test. */
  predicate Contains(s: string, sub: string)
    decreases |s|
  {
    StartsWith(s, sub) || (s != [] && Contains(s[1..], sub))
  }

  /** A substring is no longer than the string, uses only its characters, and
      is the whole string when it is as long. */
  lemma {:induction false} ContainsBound(s: string, sub: string)
    requires Contains(s, sub)
    ensures |sub| <= |s|
    ensures forall c :: c in sub ==> c in s
    ensures |sub| == |s| ==> sub == s
    decreases |s|
  {
    if StartsWith(s, sub) {
      forall c | c in sub ensures c in s {
        var i :| 0 <= i < |sub| && sub[i] == c;
        assert s[i] == c;
      }
    } else {
      ContainsBound(s[1..], sub);
      forall c | c in sub ensures c in s {
        assert c in s[1..];
      }
    }
  }

  /** A string does not contain a piece that has a character it lacks, that is
      longer, or that is as long and different. */
  lemma NotContains(s: string, sub: string, c: char)
    requires (c in sub && c !in s) || |sub| > |s| || (|sub| == |s| && sub != s)
    ensures !Contains(s, sub)
  {
    if Contains(s, sub) {
      ContainsBound(s, sub);
      assert false;
    }
  }

  /** Every string contains itself. */
  lemma ContainsSelf(s: string)
    ensures Contains(s, s)
  {
    assert s[..|s|] == s;
  }

  /** The index of the first occurrence of `c` in `s`, as `s.find(c)` when found. */
  function IndexOf(s: string, c: char): (r: Option<nat>)
    ensures r.Some? ==> r.value < |s| && s[r.value] == c && c !in s[..r.value]
    ensures r.None? ==> c !in s
  {
    if s == [] then None
    else if s[0] == c then Some(0)
    else match IndexOf(s[1..], c)
      case None => None
      case Some(i) => Some(i + 1)
  }

  /** The first occurrence is the one `IndexOf` finds. */
  lemma {:induction false} IndexOfFirst(s: string, c: char, j: nat)
    requires j < |s| && s[j] == c && c !in s[..j]
    ensures IndexOf(s, c) == Some(j)
  {
    if j > 0 {
      assert s[0] == s[..j][0];
      assert s[1..][..j - 1] == s[..j][1..];
      IndexOfFirst(s[1..], c, j - 1);
    }
  }

  /** `s.split(c)` for a one-character separator: never empty, pieces hold no `c`. */
  function SplitOn(s: string, c: char): (r: seq<string>)
    ensures |r| >= 1
    ensures forall k :: 0 <= k < |r| ==> c !in r[k]
    decreases |s|
  {
    match IndexOf(s, c)
    case None => [s]
    case Some(i) => [s[..i]] + SplitOn(s[i + 1..], c)
  }

  /** `sep.join(parts)`. */
  function Join(sep: string, parts: seq<string>): string
    decreases |parts|
  {
    if parts == [] then ""
    else if |parts| == 1 then parts[0]
    else parts[0] + sep + Join(sep, parts[1..])
  }

  /** Joining one more part appends the separator and the part. */
  lemma {:induction false} JoinSnoc(sep: string, parts: seq<string>, x: string)
    requires parts != []
    ensures Join(sep, parts + [x]) == Join(sep, parts) + sep + x
    decreases |parts|
  {
    if |parts| > 1 {
      assert (parts + [x])[1..] == parts[1..] + [x];
      JoinSnoc(sep, parts[1..], x);
    } else {
      assert parts + [x] == [parts[0], x];
      assert [parts[0], x][1..] == [x];
    }
  }

  /** Joining the pieces of a split with the same separator gives back the string. */
  lemma {:induction false} JoinSplitOn(s: string, c: char)
    ensures Join([c], SplitOn(s, c)) == s
    decreases |s|
  {
    match IndexOf(s, c)
    case None =>
    case Some(i) =>
      var tail := SplitOn(s[i + 1..], c);
      var parts := SplitOn(s, c);
      assert parts == [s[..i]] + tail;
      assert |parts| >= 2 && parts[0] == s[..i] && parts[1..] == tail;
      assert Join([c], parts) == s[..i] + [c] + Join([c], tail);
      JoinSplitOn(s[i + 1..], c);
      assert s == s[..i] + [c] + s[i + 1..];
  }

  /** Splitting a join of separator-free pieces gives the pieces back. */
  lemma {:induction false} SplitOnJoin(parts: seq<string>, c: char)
    requires parts != []
    requires forall k :: 0 <= k < |parts| ==> c !in parts[k]
    ensures SplitOn(Join([c], parts), c) == parts
    decreases |parts|
  {
    if |parts| == 1 {
      assert IndexOf(parts[0], c).None?;
    } else {
      var s := Join([c], parts);
      var rest := Join([c], parts[1..]);
      assert s == parts[0] + [c] + rest;
      assert s[|parts[0]|] == c;
      assert s[..|parts[0]|] == parts[0];
      assert IndexOf(s, c) == Some(|parts[0]|);
      assert s[|parts[0]| + 1..] == rest;
      SplitOnJoin(parts[1..], c);
    }
  }

  /** The line boundaries of `str.splitlines`: line feed, carriage return,
      vertical tab, form feed, the file, group and record separators, next
      line, and the line and paragraph separators. */
  predicate IsLineBreak(c: char) {
    c == '\n' || c == '\r' || c == '\U{b}' || c == '\U{c}' || c == '\U{1c}' ||
    c == '\U{1d}' || c == '\U{1e}' || c == '\U{85}' || c == '\U{2028}' || c == '\U{2029}'
  }

  predicate NoLineBreak(s: string) {
    forall i :: 0 <= i < |s| ==> !IsLineBreak(s[i])
  }

  /** The length of the leading run of characters that are not line boundaries. */
  function LineLength(s: string): (n: nat)
    ensures n <= |s| && NoLineBreak(s[..n])
    ensures n < |s| ==> IsLineBreak(s[n])
  {
    if s == [] || IsLineBreak(s[0]) then 0
    else
      var n := 1 + LineLength(s[1..]);
      assert s[..n] == [s[0]] + s[1..][..n - 1];
      n
  }

  /** `s.splitlines()`: the text cut at every line boundary, a carriage return
      followed by a line feed counting as one; no lines for the empty string,
      and a final line boundary does not start an empty line. */
  function SplitLines(s: string): (r: seq<string>)
    ensures forall k :: 0 <= k < |r| ==> NoLineBreak(r[k])
    ensures s == [] <==> r == []
    decreases |s|
  {
    if s == [] then []
    else
      var n := LineLength(s);
      if n == |s| then [s]
      else
        var skip := if s[n] == '\r' && n + 1 < |s| && s[n + 1] == '\n' then 2 else 1;
        [s[..n]] + SplitLines(s[n + skip..])
  }

  /** A non-empty text without line boundaries is one line. */
  lemma SplitLinesOne(s: string)
    requires s != [] && NoLineBreak(s)
    ensures SplitLines(s) == [s]
  {
  }

  /** The first line of a text runs up to its first line boundary. */
  lemma {:induction false} LineLengthOf(line: string, b: char, rest: string)
    requires NoLineBreak(line) && IsLineBreak(b)
    ensures LineLength(line + [b] + rest) == |line|
    decreases |line|
  {
    var s := line + [b] + rest;
    if line != [] {
      assert s[1..] == line[1..] + [b] + rest;
      LineLengthOf(line[1..], b, rest);
    }
  }

  /** A line ended by a boundary other than a carriage return comes out as the
      first line, and the lines after it are those of the rest. */
  lemma SplitLinesCons(line: string, b: char, rest: string)
    requires NoLineBreak(line) && IsLineBreak(b) && b != '\r'
    ensures SplitLines(line + [b] + rest) == [line] + SplitLines(rest)
  {
    var s := line + [b] + rest;
    LineLengthOf(line, b, rest);
    assert s[..|line|] == line;
    assert s[|line| + 1..] == rest;
  }

  /** The maximal leading run of non-whitespace characters. */
  function TakeWord(s: string): (w: string)
    ensures |w| <= |s| && w == s[..|w|] && NoSpace(w)
    ensures |w| < |s| ==> IsSpace(s[|w|])
  {
    if s == [] || IsSpace(s[0]) then [] else [s[0]] + TakeWord(s[1..])
  }

  /** `s.split()` with no argument: the non-empty whitespace-free words, in order. */
  function Words(s: string): (r: seq<string>)
    ensures forall k :: 0 <= k < |r| ==> IsWord(r[k])
    decreases |s|
  {
    var t := LStrip(s);
    if t == [] then []
    else
      var w := TakeWord(t);
      [w] + Words(t[|w|..])
  }

  /** `line.split(None, 1)`: at most two pieces, the first word and the rest of
      the line after the whitespace that follows it (trailing whitespace kept). */
  function SplitFirstWord(line: string): (r: seq<string>)
    ensures |r| <= 2
    ensures r != [] ==> IsWord(r[0])
    ensures |r| == 2 ==> r[1] != [] && !IsSpace(r[1][0])
  {
    var t := LStrip(line);
    if t == [] then []
    else
      var w := TakeWord(t);
      var rest := LStrip(t[|w|..]);
      if rest == [] then [w] else [w, rest]
  }

  /** Stripping leading whitespace leaves the words alone. */
  lemma WordsLStrip(s: string)
    ensures Words(LStrip(s)) == Words(s)
    ensures Words(s) == [] <==> LStrip(s) == []
  {
    var t := LStrip(s);
    assert LStrip(t) == t by {
      if t != [] { assert LeadingSpace(t) == 0; }
    }
  }

  /** The one-split takes its first piece from the words of the line, and has a
      second piece exactly when the line holds a second word, the rest then
      holding every remaining word. */
  lemma SplitFirstWordWords(line: string)
    ensures var r := SplitFirstWord(line);
      (r == [] <==> Words(line) == []) &&
      (r != [] ==> r[0] == Words(line)[0]) &&
      (|r| == 2 <==> |Words(line)| >= 2) &&
      (|r| == 2 ==> Words(r[1]) == Words(line)[1..])
  {
    var t := LStrip(line);
    WordsLStrip(line);
    if t != [] {
      var w := TakeWord(t);
      WordsLStrip(t[|w|..]);
      assert Words(line) == [w] + Words(t[|w|..]);
    }
  }

  /** Splitting the joined words of `pre`, one more word and `post` gives them back. */
  lemma WordsOfJoinAround(pre: seq<string>, w: string, post: seq<string>)
    requires forall k :: 0 <= k < |pre| ==> IsWord(pre[k])
    requires IsWord(w)
    requires forall k :: 0 <= k < |post| ==> IsWord(post[k])
    ensures Words(Join(" ", pre + [w] + post)) == pre + [w] + post
  {
    AllWordsAppend(pre, [w]);
    AllWordsAppend(pre + [w], post);
    WordsOfJoin(pre + [w] + post);
  }

  lemma {:induction false} WordsOfJoin(ws: seq<string>)
    requires forall k :: 0 <= k < |ws| ==> IsWord(ws[k])
    ensures Words(Join(" ", ws)) == ws
    decreases |ws|
  {
    if ws == [] {
    } else if |ws| == 1 {
      WordsCons(ws[0], "");
      assert ws[0] + "" == ws[0];
    } else {
      var t := Join(" ", ws[1..]);
      WordsOfJoin(ws[1..]);
      WordsConsSpace(ws[0], t);
      assert Join(" ", ws) == ws[0] + " " + t;
    }
  }

  lemma WordsConsSpace(w: string, t: string)
    requires IsWord(w)
    ensures Words(w + " " + t) == [w] + Words(t)
  {
    assert w + " " + t == w + (" " + t);
    WordsCons(w, " " + t);
    LStripSpace(t);
  }

  /** A word followed by nothing or by whitespace is split off first. */
  lemma WordsCons(w: string, rest: string)
    requires IsWord(w)
    requires rest == [] || IsSpace(rest[0])
    ensures Words(w + rest) == [w] + Words(rest)
  {
    var s := w + rest;
    assert s[0] == w[0];
    assert LStrip(s) == s;
    TakeWordOf(w, rest);
    assert s[|w|..] == rest;
  }

  lemma TakeWordOf(w: string, rest: string)
    requires NoSpace(w)
    requires rest == [] || IsSpace(rest[0])
    ensures TakeWord(w + rest) == w
    decreases |w|
  {
    var s := w + rest;
    if w == [] {
      assert s == rest;
    } else {
      assert s[0] == w[0] && !IsSpace(w[0]);
      assert s[1..] == w[1..] + rest;
      assert NoSpace(w[1..]) by {
        forall i | 0 <= i < |w[1..]| ensures !IsSpace(w[1..][i]) {
          assert w[1..][i] == w[i + 1];
        }
      }
      TakeWordOf(w[1..], rest);
      assert TakeWord(s) == [w[0]] + w[1..];
      assert [w[0]] + w[1..] == w;
    }
  }

  lemma LStripSpace(t: string)
    ensures Words(" " + t) == Words(t)
  {
    assert (" " + t)[1..] == t;
    assert LStrip(" " + t) == LStrip(t);
  }

  function LowerChar(c: char): char {
    if 'A' <= c <= 'Z' then (c as int + 32) as char else c
  }

  function UpperChar(c: char): char {
    if 'a' <= c <= 'z' then (c as int - 32) as char else c
  }

  /** `s.lower()`, ASCII letters only. */
  function Lower(s: string): (r: string)
    ensures |r| == |s|
    ensures forall i :: 0 <= i < |s| ==> r[i] == LowerChar(s[i])
    ensures forall i :: 0 <= i < |r| ==> !('A' <= r[i] <= 'Z')
  {
    seq(|s|, i requires 0 <= i < |s| => LowerChar(s[i]))
  }

  /** Lower-casing ignores the case of the input: upper-casing first changes nothing. */
  lemma LowerOfUpper(s: string)
    ensures Lower(Upper(s)) == Lower(s)
  {
    forall i | 0 <= i < |s| ensures Lower(Upper(s))[i] == Lower(s)[i] {
      var c := s[i];
      assert Upper(s)[i] == UpperChar(c);
      if 'a' <= c <= 'z' {
        assert LowerChar(UpperChar(c)) == c;
      }
    }
  }

  /** Lower-casing twice is lower-casing once. */
  lemma LowerIdempotent(s: string)
    ensures Lower(Lower(s)) == Lower(s)
  {
    forall i | 0 <= i < |s| ensures Lower(Lower(s))[i] == Lower(s)[i] {
      assert Lower(s)[i] == LowerChar(s[i]);
    }
  }

  /** `s.upper()`, ASCII letters only. */
  function Upper(s: string): (r: string)
    ensures |r| == |s|
    ensures forall i :: 0 <= i < |s| ==> r[i] == UpperChar(s[i])
  {
    seq(|s|, i requires 0 <= i < |s| => UpperChar(s[i]))
  }

  predicate IsDigit(c: char) {
    '0' <= c <= '9'
  }

  function DigitChar(d: nat): char
    requires d < 10
  {
    ('0' as int + d) as char
  }

  function DigitValue(c: char): nat
    requires IsDigit(c)
  {
    c as int - '0' as int
  }

  /** `str(n)` for a non-negative integer. */
  function NatToString(n: nat): (r: string)
    ensures r != [] && forall i :: 0 <= i < |r| ==> IsDigit(r[i])
  {
    if n < 10 then [DigitChar(n)] else NatToString(n / 10) + [DigitChar(n % 10)]
  }

  /** `str(i)` for any integer. */
  function IntToString(i: int): string {
    if i < 0 then "-" + NatToString(-i) else NatToString(i)
  }

  /** The value of a string of decimal digits. */
  function DigitsValue(s: string): nat
    requires forall i :: 0 <= i < |s| ==> IsDigit(s[i])
  {
    if s == [] then 0
    else DigitsValue(s[..|s| - 1]) * 10 + DigitValue(s[|s| - 1])
  }

  /** Rendering a number and reading its digits back gives the number. */
  lemma {:induction false} NatToStringValue(n: nat)
    ensures DigitsValue(NatToString(n)) == n
  {
    if n >= 10 {
      NatToStringValue(n / 10);
      var s := NatToString(n);
      assert s[..|s| - 1] == NatToString(n / 10);
    }
  }

  /** Python's `f"{n:02d}"`: zero-padded to at least two digits. */
  function Pad2(n: nat): string {
    if n < 10 then "0" + NatToString(n) else NatToString(n)
  }

  /** The padded rendering is at least two digits long and still reads back as `n`. */
  lemma Pad2Value(n: nat)
    ensures |Pad2(n)| >= 2 && forall i :: 0 <= i < |Pad2(n)| ==> IsDigit(Pad2(n)[i])
    ensures DigitsValue(Pad2(n)) == n
  {
    NatToStringValue(n);
    if n < 10 {
      var s := Pad2(n);
      assert s[..|s| - 1] == "0";
      assert DigitsValue("0") == DigitsValue([]) * 10 + 0;
    } else {
      assert NatToString(n) == NatToString(n / 10) + [DigitChar(n % 10)];
    }
  }
}
