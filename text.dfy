// Character classes and the small string operations the extractors use:
// JavaScript's trim(), decimal digit strings, padStart, toLowerCase and
// split(/\r?\n/).

module Text {

  predicate IsDigit(c: char) { '0' <= c <= '9' }

  /** The characters JavaScript's `\s` and `String.prototype.trim` treat as
      white space (WhiteSpace and LineTerminator). */
  predicate IsSpace(c: char) {
    c == ' ' || ('\t' <= c <= '\r') || c == '\U{00A0}' || c == '\U{1680}'
    || ('\U{2000}' <= c <= '\U{200A}') || c == '\U{2028}' || c == '\U{2029}'
    || c == '\U{202F}' || c == '\U{205F}' || c == '\U{3000}' || c == '\U{FEFF}'
  }

  /** The characters of the regular-expression class `\w`. */
  predicate IsWord(c: char) {
    ('a' <= c <= 'z') || ('A' <= c <= 'Z') || IsDigit(c) || c == '_'
  }

  predicate AllDigits(s: string) { forall i :: 0 <= i < |s| ==> IsDigit(s[i]) }

  predicate AllSpace(s: string) { forall i :: 0 <= i < |s| ==> IsSpace(s[i]) }

  // ---------------------------------------------------------------------------
  // trim()

  function TrimStart(s: string): (r: string)
    ensures |r| <= |s| && r == s[|s| - |r|..]
    ensures forall k :: 0 <= k < |s| - |r| ==> IsSpace(s[k])
    ensures r == [] || !IsSpace(r[0])
  {
    if s != [] && IsSpace(s[0]) then
      var r := TrimStart(s[1..]);
      assert s[1..][|s| - 1 - |r|..] == s[|s| - |r|..];
      assert forall k :: 1 <= k < |s| - |r| ==> s[k] == s[1..][k - 1];
      r
    else s
  }

  /** The end of `s[..e]` once its trailing white space is dropped. */
  function TrimEndIndex(s: string, e: nat): (r: nat)
    requires e <= |s|
    ensures r <= e
    ensures forall k :: r <= k < e ==> IsSpace(s[k])
    ensures r == 0 || !IsSpace(s[r - 1])
    decreases e
  {
    if e > 0 && IsSpace(s[e - 1]) then TrimEndIndex(s, e - 1) else e
  }

  /** JavaScript's `trim()`: the longest slice without white space at either end. */
  function Trim(s: string): (r: string)
    ensures |r| <= |s|
    ensures r == [] || (!IsSpace(r[0]) && !IsSpace(r[|r| - 1]))
    ensures r == [] <==> AllSpace(s)
  {
    var a := SkipSpaces(s, 0);
    if a == |s| then [] else s[a..TrimEndIndex(s, |s|)]
  }

  /** A string that already starts and ends with a non-space is its own trim. */
  lemma TrimOfTrimmed(s: string)
    requires s != [] && !IsSpace(s[0]) && !IsSpace(s[|s| - 1])
    ensures Trim(s) == s
  {
  }

  /** Trimming twice is trimming once. */
  lemma TrimIdempotent(s: string)
    ensures Trim(Trim(s)) == Trim(s)
  {
    if Trim(s) != [] {
      TrimOfTrimmed(Trim(s));
    }
  }

  // ---------------------------------------------------------------------------
  // Decimal digit strings

  function DigitValue(c: char): (d: nat)
    requires IsDigit(c)
    ensures d < 10
  {
    (c - '0') as nat
  }

  function DigitChar(d: nat): (c: char)
    requires d < 10
    ensures IsDigit(c) && DigitValue(c) == d
  {
    ('0' as int + d) as char
  }

  function Pow10(k: nat): (p: nat)
    ensures p >= 1
  {
    if k == 0 then 1 else 10 * Pow10(k - 1)
  }

  /** The number a string of decimal digits denotes (what `parseInt(s, 10)`
      gives for an all-digit string). */
  function DigitsValue(s: string): (n: nat)
    requires AllDigits(s)
    ensures n < Pow10(|s|)
  {
    if s == [] then 0 else DigitsValue(s[..|s| - 1]) * 10 + DigitValue(s[|s| - 1])
  }

  lemma {:induction false} DigitsValueAppend(a: string, b: string)
    requires AllDigits(a) && AllDigits(b)
    ensures AllDigits(a + b)
    ensures DigitsValue(a + b) == DigitsValue(a) * Pow10(|b|) + DigitsValue(b)
  {
    if b == [] {
      assert a + b == a;
    } else {
      var b' := b[..|b| - 1];
      assert (a + b)[..|a + b| - 1] == a + b';
      assert (a + b)[|a + b| - 1] == b[|b| - 1];
      DigitsValueAppend(a, b');
      var va, vb', d := DigitsValue(a), DigitsValue(b'), DigitValue(b[|b| - 1]);
      var p' := Pow10(|b'|);
      assert DigitsValue(a + b) == DigitsValue(a + b') * 10 + d;
      assert DigitsValue(b) == vb' * 10 + d;
      ShiftDigit(DigitsValue(a + b), va, vb', d, p', Pow10(|b|), DigitsValue(b));
    }
  }

  /** The arithmetic of appending one digit: `x` is `a + b' + [d]` read
      whole, `q` is the weight of `b' + [d]` and `z` its value. */
  lemma ShiftDigit(x: int, va: int, vb: int, d: int, p: int, q: int, z: int)
    requires x == (va * p + vb) * 10 + d && q == p * 10 && z == vb * 10 + d
    ensures x == va * q + z
  {
    MulAssoc10(va, p);
  }

  lemma MulAssoc10(x: int, y: int)
    ensures (x * y) * 10 == x * (y * 10)
  {
  }

  /** Leading zeros do not change the value. */
  lemma {:induction false} DigitsValueLeadingZeros(z: string, s: string)
    requires forall i :: 0 <= i < |z| ==> z[i] == '0'
    requires AllDigits(s)
    ensures AllDigits(z + s) && DigitsValue(z + s) == DigitsValue(s)
  {
    if z == [] {
      assert z + s == s;
    } else {
      assert z + s == [z[0]] + (z[1..] + s);
      DigitsValueLeadingZeros(z[1..], s);
      DigitsValueAppend([z[0]], z[1..] + s);
    }
  }

  /** `String(n)` for a natural number: its decimal rendering, no leading zeros. */
  function NatToString(n: nat): (s: string)
    ensures AllDigits(s) && 1 <= |s|
    ensures s[0] != '0' || s == "0"
  {
    if n < 10 then [DigitChar(n)] else NatToString(n / 10) + [DigitChar(n % 10)]
  }

  /** NatToString is a right inverse of DigitsValue. */
  lemma {:induction false} NatToStringValue(n: nat)
    ensures DigitsValue(NatToString(n)) == n
  {
    if n >= 10 {
      NatToStringValue(n / 10);
      var s := NatToString(n);
      assert s[..|s| - 1] == NatToString(n / 10);
    }
  }

  /** ... and on canonical digit strings (no leading zero) a left inverse too. */
  lemma {:induction false} ValueNatToString(s: string)
    requires AllDigits(s) && 1 <= |s| && (s[0] != '0' || |s| == 1)
    ensures NatToString(DigitsValue(s)) == s
  {
    if |s| > 1 {
      var p := s[..|s| - 1];
      assert p[0] == s[0];
      ValueNatToString(p);
      ValueAtLeast(p);
      assert DigitsValue(s) / 10 == DigitsValue(p);
      assert DigitsValue(s) % 10 == DigitValue(s[|s| - 1]);
    }
  }

  /** A canonical digit string of length >= 2 denotes at least 10. */
  lemma {:induction false} ValueAtLeast(s: string)
    requires AllDigits(s) && 1 <= |s| && s[0] != '0'
    ensures DigitsValue(s) >= Pow10(|s| - 1)
  {
    if |s| > 1 {
      var p := s[..|s| - 1];
      assert p[0] == s[0];
      ValueAtLeast(p);
    }
  }

  /** The length of the run of decimal digits that starts at `p`. */
  function DigitRun(s: string, p: nat): (n: nat)
    requires p <= |s|
    ensures p + n <= |s|
    ensures forall k :: p <= k < p + n ==> IsDigit(s[k])
    ensures p + n == |s| || !IsDigit(s[p + n])
    decreases |s| - p
  {
    if p < |s| && IsDigit(s[p]) then 1 + DigitRun(s, p + 1) else 0
  }

  /** The end of the run of white space that starts at `p` (what `\s*` consumes). */
  function SkipSpaces(s: string, p: nat): (q: nat)
    requires p <= |s|
    ensures p <= q <= |s|
    ensures forall k :: p <= k < q ==> IsSpace(s[k])
    ensures q == |s| || !IsSpace(s[q])
    decreases |s| - p
  {
    if p < |s| && IsSpace(s[p]) then SkipSpaces(s, p + 1) else p
  }

  /** A `\b` before position `p` whose character is a word character. */
  predicate BoundaryBefore(s: string, p: nat)
    requires p <= |s|
  {
    p == 0 || !IsWord(s[p - 1])
  }

  /** A `\b` at position `q` after a word character. */
  predicate BoundaryAfter(s: string, q: nat)
    requires q <= |s|
  {
    q == |s| || !IsWord(s[q])
  }

  /** `s.padStart(3, '0')`. */
  function PadStart3(s: string): (r: string)
    ensures |r| == if |s| >= 3 then |s| else 3
    ensures r[|r| - |s|..] == s
    ensures forall i :: 0 <= i < |r| - |s| ==> r[i] == '0'
  {
    if |s| >= 3 then s else seq(3 - |s|, _ => '0') + s
  }

  // ---------------------------------------------------------------------------
  // toLowerCase and case-insensitive comparison

  function LowerChar(c: char): char {
    if 'A' <= c <= 'Z' then (c as int + 32) as char else c
  }

  /** `toLowerCase()` on the ASCII letters. */
  function ToLower(s: string): (r: string)
    ensures |r| == |s|
    ensures forall i :: 0 <= i < |s| ==> r[i] == LowerChar(s[i])
  {
    seq(|s|, i requires 0 <= i < |s| => LowerChar(s[i]))
  }

  /** The case folding a non-Unicode `/i` regular expression applies, on the
      ASCII and Latin-1 letters. */
  function FoldChar(c: char): char {
    if 'a' <= c <= 'z' then (c as int - 32) as char
    else if '\U{00E0}' <= c <= '\U{00FE}' && c != '\U{00F7}' then (c as int - 32) as char
    else c
  }

  /** `t` occurs at position `p` of `s`, letters compared case-insensitively. */
  predicate MatchesFoldedAt(s: string, p: nat, t: string) {
    p + |t| <= |s| && forall i :: 0 <= i < |t| ==> FoldChar(s[p + i]) == FoldChar(t[i])
  }

  // ---------------------------------------------------------------------------
  // split(/\r?\n/)

  /** The index of the first `c` in `s`, or `|s|` when there is none. */
  function IndexOf(s: string, c: char): (i: nat)
    ensures i <= |s|
    ensures i < |s| ==> s[i] == c
    ensures forall k :: 0 <= k < i ==> s[k] != c
  {
    if s == [] then 0 else if s[0] == c then 0 else 1 + IndexOf(s[1..], c)
  }

  function DropCR(s: string): string {
    if s != [] && s[|s| - 1] == '\r' then s[..|s| - 1] else s
  }

  /** `text.split(/\r?\n/)`: cut at every line feed, a carriage return just
      before it belonging to the separator. Never empty: "" gives [""]. */
  function SplitLines(text: string): (lines: seq<string>)
    ensures |lines| >= 1
    ensures forall i :: 0 <= i < |lines| ==> '\n' !in lines[i]
    decreases |text|
  {
    var i := IndexOf(text, '\n');
    if i == |text| then [text] else [DropCR(text[..i])] + SplitLines(text[i + 1..])
  }

  function JoinLines(lines: seq<string>): string
    requires |lines| >= 1
  {
    if |lines| == 1 then lines[0] else lines[0] + "\n" + JoinLines(lines[1..])
  }

  /** Splitting undoes joining with "\n", for lines that hold no line feed and
      (except the last) do not end in a carriage return. */
  lemma {:induction false} SplitJoin(lines: seq<string>)
    requires |lines| >= 1
    requires forall i :: 0 <= i < |lines| ==> '\n' !in lines[i]
    requires forall i :: 0 <= i < |lines| - 1 ==> DropCR(lines[i]) == lines[i]
    ensures SplitLines(JoinLines(lines)) == lines
  {
    if |lines| == 1 {
      assert IndexOf(lines[0], '\n') == |lines[0]|;
    } else {
      var tail := lines[1..];
      assert JoinLines(lines) == lines[0] + "\n" + JoinLines(tail);
      SplitFirst(lines[0], JoinLines(tail));
      assert forall i :: 0 <= i < |tail| ==> tail[i] == lines[i + 1];
      SplitJoin(tail);
      assert lines == [lines[0]] + tail;
    }
  }

  /** A first line without a line feed is cut off whole, its carriage
      return dropped. */
  lemma SplitFirst(l: string, rest: string)
    requires '\n' !in l
    ensures SplitLines(l + "\n" + rest) == [DropCR(l)] + SplitLines(rest)
  {
    var text := l + "\n" + rest;
    assert text[|l|] == '\n';
    assert forall k :: 0 <= k < |l| ==> text[k] == l[k];
    assert IndexOf(text, '\n') == |l|;
    assert text[..|l|] == l;
    assert text[|l| + 1..] == rest;
  }
}
