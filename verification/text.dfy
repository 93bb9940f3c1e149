/** The JavaScript string primitives the storefront relies on: `trim`, `toLowerCase`,
    `includes`, `split`, `join`, `length`, and the decimal rendering of a count. A
    character is one code point; `length` counts UTF-16 code units as JavaScript does,
    and case folding covers the ASCII letters only. */
module Text {
  import opened Common

  /** The characters that `trim` strips and the regex class `\s` matches: the
      ECMAScript white space and line terminators. */
  const Spaces: set<char> := {
    ' ', '\t', '\n', '\r', '\U{0B}', '\U{0C}', '\U{A0}', '\U{1680}',
    '\U{2000}', '\U{2001}', '\U{2002}', '\U{2003}', '\U{2004}', '\U{2005}',
    '\U{2006}', '\U{2007}', '\U{2008}', '\U{2009}', '\U{200A}',
    '\U{2028}', '\U{2029}', '\U{202F}', '\U{205F}', '\U{3000}', '\U{FEFF}'}

  predicate IsSpace(c: char) {
    c in Spaces
  }

  /** A string that is empty or whitespace only; `!s.trim()` holds exactly for these. */
  predicate IsBlank(s: string) {
    forall i :: 0 <= i < |s| ==> IsSpace(s[i])
  }

  /** A string with no whitespace at either end. */
  predicate IsTrimmed(s: string) {
    |s| == 0 || (!IsSpace(s[0]) && !IsSpace(s[|s| - 1]))
  }

  /** The code units one character takes in UTF-16: two outside the Basic Multilingual
      Plane. */
  function Units(c: char): nat {
    if c as int >= 0x10000 then 2 else 1
  }

  /** JavaScript's `s.length`: the number of UTF-16 code units. */
  function CodeUnits(s: string): (n: nat)
    ensures |s| <= n <= 2 * |s|
    ensures n == 0 <==> s == ""
  {
    if |s| == 0 then 0 else Units(s[0]) + CodeUnits(s[1..])
  }

  /** Within the Basic Multilingual Plane `length` is the number of characters. */
  lemma {:induction false} CodeUnitsBasicPlane(s: string)
    requires forall i :: 0 <= i < |s| ==> s[i] as int < 0x10000
    ensures CodeUnits(s) == |s|
  {
    if |s| > 0 {
      CodeUnitsBasicPlane(s[1..]);
    }
  }

  /** A character outside the Basic Multilingual Plane, such as U+1F600, counts twice. */
  lemma CodeUnitsOfEmoji()
    ensures CodeUnits("a\U{1F600}") == 3
    ensures CodeUnits("\U{1F600}\U{1F600}\U{1F600}") == 6
  {
    assert "a\U{1F600}"[1..] == "\U{1F600}";
    assert "\U{1F600}\U{1F600}\U{1F600}"[1..] == "\U{1F600}\U{1F600}";
    assert "\U{1F600}\U{1F600}"[1..] == "\U{1F600}";
  }

  /** Length of the longest whitespace prefix. */
  function LeadingSpaces(s: string): (k: nat)
    ensures k <= |s|
    ensures forall i :: 0 <= i < k ==> IsSpace(s[i])
    ensures k < |s| ==> !IsSpace(s[k])
    decreases |s|
  {
    if |s| > 0 && IsSpace(s[0]) then 1 + LeadingSpaces(s[1..]) else 0
  }

  /** Length of the longest whitespace suffix. */
  function TrailingSpaces(s: string): (k: nat)
    ensures k <= |s|
    ensures forall i :: |s| - k <= i < |s| ==> IsSpace(s[i])
    ensures k < |s| ==> !IsSpace(s[|s| - k - 1])
    decreases |s|
  {
    if |s| > 0 && IsSpace(s[|s| - 1]) then 1 + TrailingSpaces(s[..|s| - 1]) else 0
  }

  /** `s.trim()`: the middle of `s` left once the whitespace at both ends is cut off. */
  function Trim(s: string): (r: string)
    ensures IsTrimmed(r)
    ensures r == [] <==> IsBlank(s)
    ensures exists i :: 0 <= i && i + |r| <= |s| && r == s[i..i + |r|]
                        && IsBlank(s[..i]) && IsBlank(s[i + |r|..])
    ensures forall c :: c in r ==> c in s
  {
    var a := LeadingSpaces(s);
    var b := TrailingSpaces(s[a..]);
    assert forall i :: |s| - b <= i < |s| ==> s[i] == s[a..][i - a];
    assert b < |s| - a ==> s[|s| - b - 1] == s[a..][|s| - a - b - 1];
    CutAtSpaces(s, a, b);
    TrimCutEnds(s, a, b);
    TrimCutMiddle(s, a, b);
    TrimCutEmpty(s, a, b);
    s[a..][..|s| - a - b]
  }

  /** `a` white space characters at the front and `b` at the back, with a visible
      character right after the front ones and right before the back ones, unless the
      front ones are the whole string. */
  predicate Cut(s: string, a: nat, b: nat) {
    && a + b <= |s|
    && (forall i :: 0 <= i < a ==> IsSpace(s[i]))
    && (forall i :: |s| - b <= i < |s| ==> IsSpace(s[i]))
    && (a < |s| ==> a + b < |s| && !IsSpace(s[a]) && !IsSpace(s[|s| - b - 1]))
  }

  lemma CutAtSpaces(s: string, a: nat, b: nat)
    requires a <= |s| && (forall i :: 0 <= i < a ==> IsSpace(s[i])) && (a < |s| ==> !IsSpace(s[a]))
    requires b <= |s| - a && (forall i :: |s| - b <= i < |s| ==> IsSpace(s[i]))
    requires b < |s| - a ==> !IsSpace(s[|s| - b - 1])
    ensures Cut(s, a, b)
  {
    if a < |s| {
      assert b < |s| - a;
    }
  }

  /** What `trim` cuts off is white space, and what it keeps is a slice of `s`. */
  lemma TrimCutEnds(s: string, a: nat, b: nat)
    requires Cut(s, a, b)
    ensures var r := s[a..][..|s| - a - b];
            && a + |r| <= |s| && r == s[a..a + |r|]
            && IsBlank(s[..a]) && IsBlank(s[a + |r|..])
            && forall c :: c in r ==> c in s
  {
    var r := s[a..][..|s| - a - b];
    assert r == s[a..a + |r|];
  }

  /** What `trim` keeps starts and ends with a visible character. */
  lemma TrimCutMiddle(s: string, a: nat, b: nat)
    requires Cut(s, a, b)
    ensures IsTrimmed(s[a..][..|s| - a - b])
  {
    var r := s[a..][..|s| - a - b];
    if |r| > 0 {
      assert r[0] == s[a] && r[|r| - 1] == s[|s| - b - 1];
    }
  }

  /** It is empty only for a blank string. */
  lemma TrimCutEmpty(s: string, a: nat, b: nat)
    requires Cut(s, a, b)
    ensures s[a..][..|s| - a - b] == [] <==> IsBlank(s)
  {
  }

  /** Trimming leaves an already trimmed string alone. */
  lemma TrimTrimmed(s: string)
    requires IsTrimmed(s)
    ensures Trim(s) == s
  {
    if |s| > 0 {
      assert LeadingSpaces(s) == 0;
      assert TrailingSpaces(s) == 0;
    }
  }

  /** Leading whitespace never survives `trim`. */
  lemma {:induction false} TrimPadded(pad: string, s: string)
    requires IsBlank(pad)
    requires IsTrimmed(s)
    ensures Trim(pad + s) == s
  {
    var t := pad + s;
    if |s| == 0 {
      assert t == pad;
      assert IsBlank(t);
    } else {
      LeadingSpacesOfPadded(pad, s);
      assert t[|pad|..] == s;
      TrimTrimmed(s);
    }
  }

  lemma {:induction false} LeadingSpacesOfPadded(pad: string, s: string)
    requires IsBlank(pad)
    requires |s| > 0 && !IsSpace(s[0])
    ensures LeadingSpaces(pad + s) == |pad|
    decreases |pad|
  {
    if |pad| == 0 {
      assert pad + s == s;
    } else {
      assert (pad + s)[1..] == pad[1..] + s;
      LeadingSpacesOfPadded(pad[1..], s);
    }
  }

  /** `c.toLowerCase()` for an ASCII character; everything else is left as is. */
  function LowerChar(c: char): char {
    if 'A' <= c <= 'Z' then (c as int + 32) as char else c
  }

  predicate IsUpper(c: char) {
    'A' <= c <= 'Z'
  }

  /** `s.toLowerCase()`. */
  function Lower(s: string): (r: string)
    ensures |r| == |s|
    ensures forall i :: 0 <= i < |s| ==> r[i] == LowerChar(s[i])
  {
    seq(|s|, i requires 0 <= i < |s| => LowerChar(s[i]))
  }

  /** Lowering leaves no upper-case letter and is idempotent. */
  lemma LowerIsLower(s: string)
    ensures forall i :: 0 <= i < |s| ==> !IsUpper(Lower(s)[i])
    ensures Lower(Lower(s)) == Lower(s)
  {
  }

  predicate OccursAt(s: string, t: string, i: int) {
    0 <= i && i + |t| <= |s| && s[i..i + |t|] == t
  }

  /** `s.includes(t)`: `t` occurs somewhere in `s` as a contiguous piece. */
  predicate Contains(s: string, t: string) {
    exists i | 0 <= i <= |s| - |t| :: OccursAt(s, t, i)
  }

  /** Every string contains the empty string, so an empty search term rejects nothing. */
  lemma ContainsEmpty(s: string)
    ensures Contains(s, "")
  {
    assert OccursAt(s, "", 0);
  }

  /** Index of the first occurrence of `c`. */
  function IndexOf(s: string, c: char): (r: Option<nat>)
    ensures r.Some? ==> r.value < |s| && s[r.value] == c && c !in s[..r.value]
    ensures r.Some? ==> forall i :: 0 <= i < r.value ==> s[i] != c
    ensures r.None? <==> c !in s
    decreases |s|
  {
    if |s| == 0 then None
    else if s[0] == c then Some(0)
    else match IndexOf(s[1..], c)
      case None => None
      case Some(i) => assert s[1..][..i] == s[1..i + 1]; Some(i + 1)
  }

  /** `s.split(sep)` for a one-character separator: always at least one piece, and
      no piece contains the separator. */
  function Split(s: string, sep: char): (r: seq<string>)
    ensures |r| >= 1
    ensures forall k :: 0 <= k < |r| ==> sep !in r[k]
    decreases |s|
  {
    match IndexOf(s, sep)
    case None => [s]
    case Some(i) => [s[..i]] + Split(s[i + 1..], sep)
  }

  /** `xs.join(sep)`. */
  function Join(xs: seq<string>, sep: string): string
    decreases |xs|
  {
    if |xs| == 0 then ""
    else if |xs| == 1 then xs[0]
    else xs[0] + sep + Join(xs[1..], sep)
  }

  /** Joining the pieces of a split restores the string, for every string. */
  lemma {:induction false} JoinSplit(s: string, sep: char)
    ensures Join(Split(s, sep), [sep]) == s
    decreases |s|
  {
    match IndexOf(s, sep)
    case None =>
    case Some(i) =>
      JoinSplit(s[i + 1..], sep);
      var tail := Split(s[i + 1..], sep);
      assert Split(s, sep) == [s[..i]] + tail;
      assert ([s[..i]] + tail)[1..] == tail;
      assert s == s[..i] + [sep] + s[i + 1..];
  }

  /** Splitting a join of separator-free pieces gives the pieces back. */
  lemma {:induction false} SplitJoin(xs: seq<string>, sep: char)
    requires |xs| >= 1
    requires forall k :: 0 <= k < |xs| ==> sep !in xs[k]
    ensures Split(Join(xs, [sep]), sep) == xs
    decreases |xs|
  {
    if |xs| == 1 {
      assert Join(xs, [sep]) == xs[0];
    } else {
      var rest := Join(xs[1..], [sep]);
      var s := xs[0] + [sep] + rest;
      assert Join(xs, [sep]) == s;
      assert s[..|xs[0]|] == xs[0];
      assert s[|xs[0]|] == sep;
      assert IndexOf(s, sep) == Some(|xs[0]|);
      assert s[|xs[0]| + 1..] == rest;
      SplitJoin(xs[1..], sep);
    }
  }

  /** Character of one decimal digit. */
  function DigitChar(d: nat): (c: char)
    requires d < 10
    ensures '0' <= c <= '9'
  {
    ('0' as int + d) as char
  }

  predicate IsDigits(s: string) {
    forall i :: 0 <= i < |s| ==> '0' <= s[i] <= '9'
  }

  /** The number a string of decimal digits denotes. */
  function DigitsValue(s: string): nat
    requires IsDigits(s)
    decreases |s|
  {
    if |s| == 0 then 0
    else DigitsValue(s[..|s| - 1]) * 10 + (s[|s| - 1] as int - '0' as int)
  }

  /** The decimal text JavaScript renders for a non-negative integer: digits only,
      never empty, and no leading zero. */
  function NatToString(n: nat): (r: string)
    ensures |r| >= 1 && IsDigits(r)
    ensures |r| > 1 ==> r[0] != '0'
    decreases n
  {
    if n < 10 then [DigitChar(n)] else NatToString(n / 10) + [DigitChar(n % 10)]
  }

  /** Reading the rendered digits back yields the number. */
  lemma {:induction false} NatToStringValue(n: nat)
    ensures DigitsValue(NatToString(n)) == n
    decreases n
  {
    if n >= 10 {
      NatToStringValue(n / 10);
      var s := NatToString(n);
      assert s[..|s| - 1] == NatToString(n / 10);
    }
  }

  /** Distinct numbers render to distinct text. */
  lemma NatToStringInjective(m: nat, n: nat)
    requires NatToString(m) == NatToString(n)
    ensures m == n
  {
    NatToStringValue(m);
    NatToStringValue(n);
  }
}
