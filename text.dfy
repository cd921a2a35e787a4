/** Reference definitions over strings (sequences of Unicode code points):
    character classes, ASCII case mapping, whitespace trimming, decimal
    rendering and parsing of integers, splitting at a separator, whitespace
    fields, repetition and substring search.
 */
module Text {
  import MathSpecs

  // ----- Character classes -----

  predicate IsAsciiUpper(c: char) { 'A' <= c <= 'Z' }
  predicate IsAsciiLower(c: char) { 'a' <= c <= 'z' }
  predicate IsAsciiLetter(c: char) { IsAsciiUpper(c) || IsAsciiLower(c) }
  predicate IsAsciiDigit(c: char) { '0' <= c <= '9' }

  /** The class [a-zA-Z0-9] of a regular expression. */
  predicate IsAsciiAlnum(c: char) { IsAsciiLetter(c) || IsAsciiDigit(c) }

  /** The characters for which Python's str.isspace() holds: the ASCII controls
      \t \n \v \f \r and \x1c-\x1f, the space, and the Unicode separators. */
  predicate IsPyWhitespace(c: char)
  {
    c == ' ' || ('\t' <= c <= '\r') || ('\U{1c}' <= c <= '\U{1f}')
    || c == '\U{85}' || c == '\U{a0}' || c == '\U{1680}'
    || ('\U{2000}' <= c <= '\U{200a}')
    || c == '\U{2028}' || c == '\U{2029}' || c == '\U{202f}' || c == '\U{205f}' || c == '\U{3000}'
  }

  /** The characters for which Go's unicode.IsSpace holds: \t \n \v \f \r, the
      space, U+0085, U+00A0 and the Unicode White_Space separators. */
  predicate IsGoSpace(c: char)
  {
    c == ' ' || ('\t' <= c <= '\r')
    || c == '\U{85}' || c == '\U{a0}' || c == '\U{1680}'
    || ('\U{2000}' <= c <= '\U{200a}')
    || c == '\U{2028}' || c == '\U{2029}' || c == '\U{202f}' || c == '\U{205f}' || c == '\U{3000}'
  }

  // ----- ASCII case mapping -----

  function AsciiLowerChar(c: char): (r: char)
    ensures IsAsciiUpper(c) ==> IsAsciiLower(r)
    ensures !IsAsciiUpper(c) ==> r == c
  {
    if IsAsciiUpper(c) then (c as int + 32) as char else c
  }

  function AsciiUpperChar(c: char): (r: char)
    ensures IsAsciiLower(c) ==> IsAsciiUpper(r)
    ensures !IsAsciiLower(c) ==> r == c
  {
    if IsAsciiLower(c) then (c as int - 32) as char else c
  }

  /** Lower-casing of ASCII letters, every other character unchanged. */
  function Lower(s: string): (r: string)
    ensures |r| == |s|
    ensures forall k :: 0 <= k < |s| ==> r[k] == AsciiLowerChar(s[k])
  {
    seq(|s|, k requires 0 <= k < |s| => AsciiLowerChar(s[k]))
  }

  /** Upper-casing of ASCII letters, every other character unchanged. */
  function Upper(s: string): (r: string)
    ensures |r| == |s|
    ensures forall k :: 0 <= k < |s| ==> r[k] == AsciiUpperChar(s[k])
  {
    seq(|s|, k requires 0 <= k < |s| => AsciiUpperChar(s[k]))
  }

  /** Lower-casing twice is lower-casing once. */
  lemma LowerIdempotent(s: string)
    ensures Lower(Lower(s)) == Lower(s)
  {
  }

  /** Upper-casing forgets an earlier lower-casing. */
  lemma UpperAfterLower(s: string)
    ensures Upper(Lower(s)) == Upper(s)
  {
    forall k | 0 <= k < |s|
      ensures Upper(Lower(s))[k] == Upper(s)[k]
    {
      if IsAsciiUpper(s[k]) {
        assert (s[k] as int + 32 - 32) as char == s[k];
      }
    }
  }

  // ----- Trimming -----

  /** The number of leading characters of s that satisfy ws. */
  function LeadLen(s: string, ws: char -> bool): (n: nat)
    ensures n <= |s|
    ensures forall k :: 0 <= k < n ==> ws(s[k])
    ensures n < |s| ==> !ws(s[n])
  {
    if s == [] || !ws(s[0]) then 0 else 1 + LeadLen(s[1..], ws)
  }

  /** The number of trailing characters of s that satisfy ws. */
  function TrailLen(s: string, ws: char -> bool): (n: nat)
    ensures n <= |s|
    ensures forall k :: |s| - n <= k < |s| ==> ws(s[k])
    ensures n < |s| ==> !ws(s[|s| - 1 - n])
  {
    if s == [] || !ws(s[|s| - 1]) then 0 else 1 + TrailLen(s[..|s| - 1], ws)
  }

  /** s without its leading and trailing characters that satisfy ws
      (Python str.strip(), Go strings.TrimSpace). */
  function Strip(s: string, ws: char -> bool): (r: string)
  {
    var l := LeadLen(s, ws);
    s[l..][..|s[l..]| - TrailLen(s[l..], ws)]
  }

  /** What Strip keeps: a contiguous middle part of s, with only ws characters
      removed on either side, which neither starts nor ends with one. */
  lemma StripBounds(s: string, ws: char -> bool)
    ensures var l := LeadLen(s, ws);
            l + |Strip(s, ws)| <= |s| && Strip(s, ws) == s[l..l + |Strip(s, ws)|]
            && (forall k :: 0 <= k < l ==> ws(s[k]))
            && (forall k :: l + |Strip(s, ws)| <= k < |s| ==> ws(s[k]))
    ensures Strip(s, ws) != [] ==> !ws(Strip(s, ws)[0]) && !ws(Strip(s, ws)[|Strip(s, ws)| - 1])
  {
    var l := LeadLen(s, ws);
    var t := s[l..];
    var n := TrailLen(t, ws);
    assert Strip(s, ws) == t[..|t| - n];
    forall k | l + |t| - n <= k < |s|
      ensures ws(s[k])
    {
      assert s[k] == t[k - l];
    }
    if |t| - n > 0 {
      assert t[0] == s[l];
    }
  }

  /** Strip keeps nothing exactly when every character satisfies ws. */
  lemma StripEmptyIffAllWs(s: string, ws: char -> bool)
    ensures Strip(s, ws) == [] <==> forall k :: 0 <= k < |s| ==> ws(s[k])
  {
    StripBounds(s, ws);
  }

  /** Stripping twice is stripping once. */
  lemma StripIdempotent(s: string, ws: char -> bool)
    ensures Strip(Strip(s, ws), ws) == Strip(s, ws)
  {
    var r := Strip(s, ws);
    StripBounds(s, ws);
    if r != [] {
      assert LeadLen(r, ws) == 0;
      assert TrailLen(r, ws) == 0;
      assert r[0..] == r;
    }
  }

  // ----- Decimal integers -----

  /** The decimal digit character of a value below ten. */
  function DigitChar(d: nat): (c: char)
    requires d < 10
    ensures IsAsciiDigit(c)
  {
    ('0' as int + d) as char
  }

  /** The value of a decimal digit character. */
  function DigitValue(c: char): (d: nat)
    requires IsAsciiDigit(c)
    ensures d < 10
  {
    c as int - '0' as int
  }

  /** s is a non-empty string of ASCII decimal digits. */
  predicate AllDigits(s: string)
  {
    |s| > 0 && forall k :: 0 <= k < |s| ==> IsAsciiDigit(s[k])
  }

  /** The decimal rendering of a natural number, without leading zeros. */
  function NatToString(n: nat): (r: string)
    ensures AllDigits(r)
    ensures |r| > 1 ==> r[0] != '0'
  {
    if n < 10 then [DigitChar(n)] else NatToString(n / 10) + [DigitChar(n % 10)]
  }

  /** Python's str() of an int: an optional minus sign, then the digits. */
  function IntToString(i: int): (r: string)
    ensures |r| > 0
  {
    if i < 0 then "-" + NatToString(-i) else NatToString(i)
  }

  /** The value of a string of decimal digits, as Python's int() reads it
      (leading zeros allowed). */
  function ParseNat(s: string): (n: nat)
    requires forall k :: 0 <= k < |s| ==> IsAsciiDigit(s[k])
  {
    if s == [] then 0 else 10 * ParseNat(s[..|s| - 1]) + DigitValue(s[|s| - 1])
  }

  /** Parsing a rendered number gives the number back. */
  lemma {:induction false} ParseNatToString(n: nat)
    ensures ParseNat(NatToString(n)) == n
  {
    if n >= 10 {
      ParseNatToString(n / 10);
      var s := NatToString(n);
      assert s[..|s| - 1] == NatToString(n / 10);
    }
  }

  // ----- Splitting at a separator -----

  /** s split at every occurrence of sep, as Python's str.split(sep): always at
      least one part, and empty parts between adjacent separators. */
  function Split(s: string, sep: char): (parts: seq<string>)
    ensures |parts| >= 1
  {
    if s == [] then [[]]
    else
      var init := Split(s[..|s| - 1], sep);
      if s[|s| - 1] == sep then init + [[]]
      else init[..|init| - 1] + [init[|init| - 1] + [s[|s| - 1]]]
  }

  /** One more character either starts a new part or extends the last one. */
  lemma SplitSnoc(s: string, c: char, sep: char)
    ensures var ps := Split(s, sep);
            Split(s + [c], sep) == if c == sep then ps + [[]] else ps[..|ps| - 1] + [ps[|ps| - 1] + [c]]
  {
    assert (s + [c])[..|s|] == s;
  }

  /** The parts glued back together with sep between them. */
  function Join(parts: seq<string>, sep: char): string
    requires |parts| >= 1
  {
    if |parts| == 1 then parts[0] else Join(parts[..|parts| - 1], sep) + [sep] + parts[|parts| - 1]
  }

  /** No part of a split contains the separator. */
  lemma {:induction false} SplitPartsHaveNoSep(s: string, sep: char)
    ensures forall i :: 0 <= i < |Split(s, sep)| ==> sep !in Split(s, sep)[i]
  {
    if s != [] {
      SplitPartsHaveNoSep(s[..|s| - 1], sep);
    }
  }

  /** Joining the parts of a split gives the original string back. */
  lemma {:induction false} JoinSplit(s: string, sep: char)
    ensures Join(Split(s, sep), sep) == s
  {
    if s != [] {
      var init := s[..|s| - 1];
      JoinSplit(init, sep);
      assert init + [s[|s| - 1]] == s;
      if s[|s| - 1] == sep {
        JoinSplitSep(s, sep);
      } else {
        JoinSplitChar(s, sep);
      }
    }
  }

  /** The step of JoinSplit for a final separator, which starts an empty part. */
  lemma JoinSplitSep(s: string, sep: char)
    requires s != [] && s[|s| - 1] == sep
    requires Join(Split(s[..|s| - 1], sep), sep) == s[..|s| - 1]
    ensures Join(Split(s, sep), sep) == s[..|s| - 1] + [sep]
  {
    var ps := Split(s[..|s| - 1], sep);
    var ps' := ps + [[]];
    assert Split(s, sep) == ps';
    assert ps'[..|ps'| - 1] == ps;
    assert Join(ps', sep) == Join(ps, sep) + [sep] + [];
  }

  /** The step of JoinSplit for a final ordinary character, which extends the
      last part. */
  lemma JoinSplitChar(s: string, sep: char)
    requires s != [] && s[|s| - 1] != sep
    requires Join(Split(s[..|s| - 1], sep), sep) == s[..|s| - 1]
    ensures Join(Split(s, sep), sep) == s[..|s| - 1] + [s[|s| - 1]]
  {
    var ps := Split(s[..|s| - 1], sep);
    var n := |ps|;
    assert Split(s, sep) == ps[..n - 1] + [ps[n - 1] + [s[|s| - 1]]];
    JoinExtendLast(ps, [s[|s| - 1]], sep);
  }

  /** Extending the last part extends the joined string by the same text. */
  lemma JoinExtendLast(ps: seq<string>, x: string, sep: char)
    requires |ps| >= 1
    ensures Join(ps[..|ps| - 1] + [ps[|ps| - 1] + x], sep) == Join(ps, sep) + x
  {
    var n := |ps|;
    var last := ps[n - 1];
    var ps' := ps[..n - 1] + [last + x];
    assert |ps'| == n && ps'[n - 1] == last + x;
    if n == 1 {
      assert Join(ps, sep) == last;
      assert Join(ps', sep) == last + x;
    } else {
      var front := Join(ps[..n - 1], sep);
      assert ps'[..n - 1] == ps[..n - 1];
      assert Join(ps, sep) == front + [sep] + last;
      assert Join(ps', sep) == front + [sep] + (last + x);
      assert front + [sep] + (last + x) == (front + [sep] + last) + x;
    }
  }

  /** A string without the separator is a single part. */
  lemma {:induction false} SplitNoSep(s: string, sep: char)
    requires sep !in s
    ensures Split(s, sep) == [s]
  {
    if s != [] {
      var init := s[..|s| - 1];
      assert sep !in init by {
        forall k | 0 <= k < |init| ensures init[k] != sep { assert init[k] == s[k]; }
      }
      SplitNoSep(init, sep);
      assert init + [s[|s| - 1]] == s;
    }
  }

  /** A separator followed by a separator-free y appends y as a new last part. */
  lemma {:induction false} SplitAppendPart(x: string, y: string, sep: char)
    requires sep !in y
    ensures Split(x + [sep] + y, sep) == Split(x, sep) + [y]
    decreases |y|
  {
    var s := x + [sep] + y;
    if y == [] {
      assert s[..|s| - 1] == x;
    } else {
      var y' := y[..|y| - 1];
      assert sep !in y' by {
        forall k | 0 <= k < |y'| ensures y'[k] != sep { assert y'[k] == y[k]; }
      }
      SplitAppendPart(x, y', sep);
      assert s[..|s| - 1] == x + [sep] + y';
      assert y' + [y[|y| - 1]] == y;
    }
  }

  // ----- Whitespace fields -----

  /** The maximal runs of non-ws characters of s, in order (Go strings.Fields). */
  function Fields(s: string, ws: char -> bool): (r: seq<string>)
    ensures |s| > 0 && !ws(s[|s| - 1]) ==> |r| > 0
  {
    if s == [] then []
    else
      var init := s[..|s| - 1];
      var c := s[|s| - 1];
      var f := Fields(init, ws);
      if ws(c) then f
      else if init == [] || ws(init[|init| - 1]) then f + [[c]]
      else f[..|f| - 1] + [f[|f| - 1] + [c]]
  }

  /** The reference count of words: positions where a run of non-ws characters
      starts. */
  function RunStarts(s: string, ws: char -> bool): nat
  {
    if s == [] then 0
    else
      var init := s[..|s| - 1];
      RunStarts(init, ws)
        + (if !ws(s[|s| - 1]) && (init == [] || ws(init[|init| - 1])) then 1 else 0)
  }

  /** Every field is non-empty and free of ws characters, and there are exactly as
      many fields as runs. */
  lemma {:induction false} FieldsAreRuns(s: string, ws: char -> bool)
    ensures |Fields(s, ws)| == RunStarts(s, ws)
    ensures forall i :: 0 <= i < |Fields(s, ws)| ==>
              |Fields(s, ws)[i]| > 0 && forall k :: 0 <= k < |Fields(s, ws)[i]| ==> !ws(Fields(s, ws)[i][k])
  {
    if s != [] {
      FieldsAreRuns(s[..|s| - 1], ws);
    }
  }

  /** There is no run exactly when every character is ws. */
  lemma {:induction false} RunStartsZeroIffAllWs(s: string, ws: char -> bool)
    ensures RunStarts(s, ws) == 0 <==> forall k :: 0 <= k < |s| ==> ws(s[k])
  {
    if s != [] {
      var init := s[..|s| - 1];
      RunStartsZeroIffAllWs(init, ws);
      assert forall k :: 0 <= k < |init| ==> init[k] == s[k];
      if !ws(s[|s| - 1]) && init != [] && !ws(init[|init| - 1]) {
        assert RunStarts(init, ws) != 0;
      }
    }
  }

  // ----- Repetition and substrings -----

  /** s repeated n times (Python s * n); empty for n <= 0. */
  function Repeat(s: string, n: int): (r: string)
    ensures n <= 0 ==> r == []
    ensures n > 0 ==> |r| == n * |s|
    decreases n
  {
    if n <= 0 then [] else Repeat(s, n - 1) + s
  }

  /** Position p of a repetition holds the character at p modulo |s|. */
  lemma {:induction false} RepeatAt(s: string, n: int, p: int)
    requires 0 <= p < |Repeat(s, n)|
    ensures |s| > 0 && Repeat(s, n)[p] == s[p % |s|]
    decreases n
  {
    var init := Repeat(s, n - 1);
    assert Repeat(s, n) == init + s;
    assert |init| == (n - 1) * |s|;
    if p < |init| {
      RepeatAt(s, n - 1, p);
    } else {
      MathSpecs.ModOfBlock(n - 1, |s|, p - |init|);
    }
  }

  /** Every position of a repetition, at once. */
  lemma RepeatAll(s: string, n: int)
    ensures forall p :: 0 <= p < |Repeat(s, n)| ==> |s| > 0 && Repeat(s, n)[p] == s[p % |s|]
  {
    var r := Repeat(s, n);
    forall p | 0 <= p < |r|
      ensures |s| > 0 && r[p] == s[p % |s|]
    {
      RepeatAt(s, n, p);
    }
  }

  /** needle occurs in hay starting at position i. */
  predicate OccursAt(needle: string, hay: string, i: nat)
  {
    i + |needle| <= |hay| && hay[i..i + |needle|] == needle
  }

  /** Python's `needle in hay` for two strings: needle occurs somewhere, the empty
      string everywhere. */
  function Contains(hay: string, needle: string): (b: bool)
    ensures b <==> exists i :: 0 <= i <= |hay| && OccursAt(needle, hay, i)
    decreases |hay|
  {
    if |needle| > |hay| then false
    else if hay[..|needle|] == needle then
      assert OccursAt(needle, hay, 0);
      true
    else
      var r := Contains(hay[1..], needle);
      ContainsShift(hay, needle);
      r
  }

  /** An occurrence past position 0 is an occurrence in hay[1..], and back. */
  lemma ContainsShift(hay: string, needle: string)
    requires |needle| <= |hay| && hay[..|needle|] != needle
    ensures (exists i :: 0 <= i <= |hay| && OccursAt(needle, hay, i))
        <==> (exists i :: 0 <= i <= |hay[1..]| && OccursAt(needle, hay[1..], i))
  {
    if exists i :: 0 <= i <= |hay| && OccursAt(needle, hay, i) {
      var i :| 0 <= i <= |hay| && OccursAt(needle, hay, i);
      OccursShiftDown(hay, needle, i);
    }
    if exists i :: 0 <= i <= |hay[1..]| && OccursAt(needle, hay[1..], i) {
      var i :| 0 <= i <= |hay[1..]| && OccursAt(needle, hay[1..], i);
      OccursShiftUp(hay, needle, i);
    }
  }

  /** An occurrence at a position i > 0 of hay is one at i - 1 of hay[1..]. */
  lemma OccursShiftDown(hay: string, needle: string, i: int)
    requires 0 < i <= |hay| && OccursAt(needle, hay, i)
    ensures OccursAt(needle, hay[1..], i - 1)
  {
    assert hay[1..][i - 1..i - 1 + |needle|] == hay[i..i + |needle|];
  }

  /** An occurrence at position i of hay[1..] is one at i + 1 of hay. */
  lemma OccursShiftUp(hay: string, needle: string, i: int)
    requires hay != [] && 0 <= i <= |hay| - 1 && OccursAt(needle, hay[1..], i)
    ensures OccursAt(needle, hay, i + 1)
  {
    assert hay[1..][i..i + |needle|] == hay[i + 1..i + 1 + |needle|];
  }
}
