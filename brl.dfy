// parseBRL (src/core/prefeitura/parseBRL.ts): pt-BR money text such as
// "1.234,56" to an amount, here in whole cents. JavaScript's parseFloat is
// modelled by its decimal-literal prefix rule, Math.round(x * 100) by exact
// rounding of the decimal value, halves going up.

module Brl {
  import opened Domain
  import opened Text

  predicate IsQuote(c: char) { c == '"' || c == '\'' }

  /** `replace(/^["']|["']$/g, '')`: drop one leading and one trailing quote
      (a lone quote character is the leading one). */
  function StripQuotes(s: string): (r: string)
    ensures |r| <= |s|
    ensures s != [] && !IsQuote(s[0]) && !IsQuote(s[|s| - 1]) ==> r == s
  {
    var t := if s != [] && IsQuote(s[0]) then s[1..] else s;
    if t != [] && IsQuote(t[|t| - 1]) then t[..|t| - 1] else t
  }

  /** `replace(/\./g, '')`. */
  function RemoveDots(s: string): (r: string)
    ensures |r| <= |s|
  {
    if s == [] then []
    else RemoveDots(s[..|s| - 1]) + (if s[|s| - 1] == '.' then [] else [s[|s| - 1]])
  }

  lemma {:induction false} RemoveDotsAppend(a: string, b: string)
    ensures RemoveDots(a + b) == RemoveDots(a) + RemoveDots(b)
  {
    if b == [] {
      assert a + b == a;
    } else {
      assert (a + b)[..|a + b| - 1] == a + b[..|b| - 1];
      RemoveDotsAppend(a, b[..|b| - 1]);
    }
  }

  /** No point survives ... */
  lemma {:induction false} RemoveDotsNoDot(s: string)
    ensures '.' !in RemoveDots(s)
  {
    if s != [] {
      RemoveDotsNoDot(s[..|s| - 1]);
    }
  }

  /** ... and text without points is left as it is. */
  lemma {:induction false} RemoveDotsIdentity(s: string)
    requires '.' !in s
    ensures RemoveDots(s) == s
  {
    if s != [] {
      assert s == s[..|s| - 1] + [s[|s| - 1]];
      RemoveDotsIdentity(s[..|s| - 1]);
    }
  }

  lemma DigitsHaveNoDot(s: string)
    requires AllDigits(s)
    ensures RemoveDots(s) == s
  {
    assert forall k :: 0 <= k < |s| ==> s[k] != '.';
    RemoveDotsIdentity(s);
  }

  lemma RemoveDotsSingle(c: char)
    ensures RemoveDots([c]) == if c == '.' then [] else [c]
  {
    assert [c][..0] == [];
  }

  /** `replace(',', '.')`: only the first comma. */
  function ReplaceFirstComma(s: string): (r: string)
    ensures |r| == |s|
    ensures ',' !in s ==> r == s
  {
    var i := IndexOf(s, ',');
    if i == |s| then s else s[..i] + "." + s[i + 1..]
  }

  /** A decimal number `mantissa / 10^scale`. */
  datatype Decimal = Decimal(mantissa: int, scale: nat)

  /** parseFloat: skip leading white space, read an optional sign, digits, an
      optional point and digits; the longest such prefix is the number, and
      there is none when no digit is read. */
  function ParseFloatPrefix(s: string): (r: Option<Decimal>)
  {
    var t := TrimStart(s);
    if t != [] && t[0] == '-' then
      match ParseUnsigned(t[1..])
      case None => None
      case Some(d) => Some(Decimal(-d.mantissa, d.scale))
    else if t != [] && t[0] == '+' then ParseUnsigned(t[1..])
    else ParseUnsigned(t)
  }

  /** Digits, then optionally a point and digits; None when no digit is read. */
  function ParseUnsigned(u: string): (r: Option<Decimal>)
    ensures r.Some? ==> r.value.mantissa >= 0
  {
    var a := DigitRun(u, 0);
    var b := if a < |u| && u[a] == '.' then DigitRun(u, a + 1) else 0;
    if a + b == 0 then None
    else Some(Decimal(Mantissa(u, a, b), b))
  }

  /** The digits before the point at `a` followed by the `b` digits after it,
      read as one number. */
  function Mantissa(u: string, a: nat, b: nat): nat
    requires a <= |u| && (b == 0 || a + b < |u|)
    requires forall k :: 0 <= k < a ==> IsDigit(u[k])
    requires forall k :: a < k <= a + b ==> IsDigit(u[k])
  {
    DigitsValue(PointDigits(u, a, b))
  }

  /** The `a` digits before the point at `a` and the `b` digits after it. */
  function PointDigits(u: string, a: nat, b: nat): (ds: string)
    requires a <= |u| && (b == 0 || a + b < |u|)
    requires forall k :: 0 <= k < a ==> IsDigit(u[k])
    requires forall k :: a < k <= a + b ==> IsDigit(u[k])
    ensures AllDigits(ds)
  {
    u[..a] + (if b == 0 then [] else u[a + 1..a + 1 + b])
  }

  /** Math.round(value * 100) on the exact value: the nearest whole number of
      cents, a half going up. */
  function RoundCents(d: Decimal): (c: int)
    ensures var den: int := Pow10(d.scale);
      -den <= 200 * d.mantissa - 2 * den * c < den
  {
    (200 * d.mantissa + Pow10(d.scale)) / (2 * Pow10(d.scale))
  }

  /** The amount in cents that pt-BR money text denotes, or None. */
  function ParseBRL(input: string): (r: Option<int>)
    ensures AllSpace(input) ==> r.None?
  {
    if input == [] then None
    else
      var cleaned := StripQuotes(Trim(input));
      if cleaned == [] then None
      else
        ParseBRLTail(ReplaceFirstComma(RemoveDots(cleaned)))
  }

  /** `Math.round(parseFloat(normalized) * 100)`, or None when parseFloat gives NaN. */
  function ParseBRLTail(normalized: string): (r: Option<int>)
    ensures r.Some? <==> ParseFloatPrefix(normalized).Some?
  {
    match ParseFloatPrefix(normalized)
    case None => None
    case Some(d) => Some(RoundCents(d))
  }

  // ---------------------------------------------------------------------------
  // The money shape the reports use, and the formatting that produces it

  /** Digits and thousands points, then a comma and two decimal digits, the
      first character a digit (e.g. "1.234,56", "400,49"). */
  predicate IsMoneyText(t: string) {
    |t| >= 4 && IsDigit(t[0])
    && (forall i :: 0 <= i < |t| - 3 ==> IsDigit(t[i]) || t[i] == '.')
    && t[|t| - 3] == ',' && IsDigit(t[|t| - 2]) && IsDigit(t[|t| - 1])
  }

  /** The integer part of money text with its points removed. */
  function MoneyWhole(t: string): (w: string)
    requires IsMoneyText(t)
    ensures AllDigits(w) && w != []
  {
    var w := RemoveDots(t[..|t| - 3]);
    assert AllDigits(w) by { DotsAndDigits(t[..|t| - 3]); }
    assert w != [] by {
      assert t[..|t| - 3] == [t[0]] + t[1..|t| - 3];
      RemoveDotsAppend([t[0]], t[1..|t| - 3]);
    }
    w
  }

  lemma {:induction false} DotsAndDigits(s: string)
    requires forall i :: 0 <= i < |s| ==> IsDigit(s[i]) || s[i] == '.'
    ensures AllDigits(RemoveDots(s))
  {
    if s != [] {
      DotsAndDigits(s[..|s| - 1]);
    }
  }

  /** What money text denotes in cents: 100 times its whole part plus its
      two decimals. */
  function MoneyCents(t: string): (c: nat)
    requires IsMoneyText(t)
  {
    100 * DigitsValue(MoneyWhole(t)) + DigitsValue(t[|t| - 2..])
  }

  /** parseBRL reads money text as the amount it denotes. */
  lemma MoneyTextValue(t: string)
    requires IsMoneyText(t)
    ensures ParseBRL(t) == Some(MoneyCents(t))
  {
    MoneyReadsAsPoint(t);
    MoneyPointValue(t);
  }

  /** parseBRL reduces money text to parseFloat of "<whole>.<decimals>". */
  lemma MoneyReadsAsPoint(t: string)
    requires IsMoneyText(t)
    ensures ParseBRL(t) == ParseBRLTail(MoneyWhole(t) + ("." + t[|t| - 2..]))
  {
    MoneyIsClean(t);
    MoneyNormalized(t);
  }
  /** ... which reads as the amount the text denotes. */
  lemma MoneyPointValue(t: string)
    requires IsMoneyText(t)
    ensures ParseBRLTail(MoneyWhole(t) + ("." + t[|t| - 2..])) == Some(MoneyCents(t))
  {
    ParseWholeDotTwo(MoneyWhole(t), t[|t| - 2..]);
  }
  /** Trimming and quote stripping leave money text alone. */
  lemma MoneyIsClean(t: string)
    requires IsMoneyText(t)
    ensures StripQuotes(Trim(t)) == t
  {
    TrimOfTrimmed(t);
  }

  /** Removing the points and turning the comma into a decimal point gives
      "<whole>.<decimals>". */
  lemma MoneyNormalized(t: string)
    requires IsMoneyText(t)
    ensures ReplaceFirstComma(RemoveDots(t)) == MoneyWhole(t) + ("." + t[|t| - 2..])
  {
    var ip, cc := t[..|t| - 3], t[|t| - 2..];
    var w := MoneyWhole(t);
    SplitAround(t, |t| - 3);
    assert [t[|t| - 3]] == ",";
    assert AllDigits(cc) by {
      assert cc == [t[|t| - 2], t[|t| - 1]];
    }
    CommaBetween(ip, cc);
    assert RemoveDots(t) == w + ("," + cc);
    FirstCommaAfterDigits(w, cc);
  }

  lemma SplitAround(s: string, k: nat)
    requires k < |s|
    ensures s == s[..k] + ([s[k]] + s[k + 1..])
  {
  }

  lemma CommaBetween(a: string, b: string)
    requires AllDigits(b)
    ensures RemoveDots(a + ("," + b)) == RemoveDots(a) + ("," + b)
  {
    RemoveDotsAppend(a, "," + b);
    RemoveDotsAppend(",", b);
    RemoveDotsSingle(',');
    DigitsHaveNoDot(b);
  }

  lemma FirstCommaAfterDigits(w: string, cc: string)
    requires AllDigits(w)
    ensures ReplaceFirstComma(w + ("," + cc)) == w + ("." + cc)
  {
    var nd := w + ("," + cc);
    assert nd[|w|] == ',';
    assert forall k :: 0 <= k < |w| ==> nd[k] == w[k];
    assert IndexOf(nd, ',') == |w|;
    assert nd[..|w|] == w;
    assert nd[|w| + 1..] == cc;
  }

  /** parseFloat reads "<digits>.<two digits>" whole, and Math.round(x * 100)
      is then exact. */
  lemma ParseWholeDotTwo(w: string, cc: string)
    requires AllDigits(w) && w != []
    requires AllDigits(cc) && |cc| == 2
    ensures ParseBRLTail(w + ("." + cc)) == Some(DigitsValue(w + cc))
    ensures DigitsValue(w + cc) == 100 * DigitsValue(w) + DigitsValue(cc)
  {
    ParseFloatPointNumber(w, cc);
    TailOfTwoPlaces(w + ("." + cc), DigitsValue(w + cc));
    WholeAndCents(w, cc);
  }

  lemma WholeAndCents(w: string, cc: string)
    requires AllDigits(w) && AllDigits(cc) && |cc| == 2
    ensures AllDigits(w + cc)
    ensures DigitsValue(w + cc) == 100 * DigitsValue(w) + DigitsValue(cc)
  {
    DigitsValueAppend(w, cc);
    Pow10Two();
  }

  lemma TailOfTwoPlaces(normalized: string, m: int)
    requires ParseFloatPrefix(normalized) == Some(Decimal(m, 2))
    ensures ParseBRLTail(normalized) == Some(m)
  {
    RoundTwoPlaces(m);
  }

  lemma Pow10Two()
    ensures Pow10(2) == 100
  {
    assert Pow10(1) == 10;
  }

  /** A value with two decimals is a whole number of cents already. */
  lemma RoundTwoPlaces(m: int)
    ensures RoundCents(Decimal(m, 2)) == m
  {
    Pow10Two();
    var c := RoundCents(Decimal(m, 2));
    assert -100 <= 200 * m - 200 * c < 100;
  }

  /** parseFloat reads "<digits>.<digits>" whole. */
  lemma ParseFloatPointNumber(w: string, f: string)
    requires AllDigits(w) && w != [] && AllDigits(f) && f != []
    ensures AllDigits(w + f)
    ensures ParseFloatPrefix(w + ("." + f)) == Some(Decimal(DigitsValue(w + f), |f|))
  {
    PointNumberRuns(w, f);
    ParsePointed(w + ("." + f), |w|, |f|);
    MantissaOfPoint(w, f);
  }

  /** "<w>.<f>" starts with a digit, and its digit runs are `w` and `f`. */
  lemma PointNumberRuns(w: string, f: string)
    requires AllDigits(w) && w != [] && AllDigits(f) && f != []
    ensures var u := w + ("." + f);
      && IsDigit(u[0]) && u[|w|] == '.'
      && DigitRun(u, 0) == |w| && DigitRun(u, |w| + 1) == |f|
  {
    var u := w + ("." + f);
    RunOfDigitsThen(w, "." + f);
    assert u[|w| + 1..] == f;
    DigitRunAll(u, |w| + 1);
  }

  /** parseFloat of text that starts with a digit and has the digit run `b`
      after the point that ends the first run `a` reads `a + b` digits. */
  lemma ParsePointed(u: string, a: nat, b: nat)
    requires 0 < a < |u| && IsDigit(u[0]) && u[a] == '.'
    requires DigitRun(u, 0) == a && DigitRun(u, a + 1) == b
    ensures ParseFloatPrefix(u) == Some(Decimal(Mantissa(u, a, b), b))
  {
    UnsignedStart(u);
  }

  /** Text that starts with a digit has no white space or sign to skip. */
  lemma UnsignedStart(u: string)
    requires u != [] && IsDigit(u[0])
    ensures ParseFloatPrefix(u) == ParseUnsigned(u)
  {
    assert !IsSpace(u[0]);
    assert TrimStart(u) == u;
    assert u[0] != '-' && u[0] != '+';
  }

  /** The digits of "<w>.<f>" around its point are those of `w` then `f`. */
  lemma MantissaOfPoint(w: string, f: string)
    requires AllDigits(w) && AllDigits(f) && f != []
    ensures var u := w + ("." + f);
      && (forall k :: 0 <= k < |w| ==> IsDigit(u[k]))
      && (forall k :: |w| < k <= |w| + |f| ==> IsDigit(u[k]))
      && PointDigits(u, |w|, |f|) == w + f
  {
    var u := w + ("." + f);
    forall k | 0 <= k < |w|
      ensures IsDigit(u[k])
    {
      assert u[k] == w[k];
    }
    forall k | |w| < k <= |w| + |f|
      ensures IsDigit(u[k])
    {
      assert u[k] == f[k - |w| - 1];
    }
    assert u[..|w|] == w;
    assert u[|w| + 1..|w| + 1 + |f|] == f;
  }

  lemma {:induction false} DigitRunAll(s: string, p: nat)
    requires p <= |s| && forall k :: p <= k < |s| ==> IsDigit(s[k])
    ensures DigitRun(s, p) == |s| - p
    decreases |s| - p
  {
    if p < |s| {
      DigitRunAll(s, p + 1);
    }
  }

  lemma {:induction false} RunOfDigitsThen(w: string, rest: string)
    requires AllDigits(w)
    requires rest != [] && !IsDigit(rest[0])
    ensures DigitRun(w + rest, 0) == |w|
  {
    var s := w + rest;
    assert forall k :: 0 <= k < |w| ==> IsDigit(s[k]);
    assert !IsDigit(s[|w|]);
  }

  lemma DotBetween(a: string, b: string)
    ensures RemoveDots(a + ("." + b)) == RemoveDots(a) + RemoveDots(b)
  {
    RemoveDotsAppend(a, "." + b);
    RemoveDotsAppend(".", b);
    RemoveDotsSingle('.');
  }

  /** Thousands grouping: a point before every group of three digits from the right. */
  function GroupThousands(ds: string): (g: string)
    requires AllDigits(ds)
    ensures |g| >= |ds|
    ensures ds != [] ==> g != [] && g[0] == ds[0]
    ensures forall i :: 0 <= i < |g| ==> IsDigit(g[i]) || g[i] == '.'
    ensures RemoveDots(g) == ds
    decreases |ds|
  {
    if |ds| <= 3 then
      DigitsHaveNoDot(ds);
      ds
    else
      var head, tail := ds[..|ds| - 3], ds[|ds| - 3..];
      var gh := GroupThousands(head);
      var g := gh + ("." + tail);
      DotBetween(gh, tail);
      DigitsHaveNoDot(tail);
      assert head + tail == ds;
      assert forall i :: 0 <= i < |g| ==> IsDigit(g[i]) || g[i] == '.' by {
        forall i | 0 <= i < |g| ensures IsDigit(g[i]) || g[i] == '.' {
          if i >= |gh| + 1 {
            assert g[i] == tail[i - |gh| - 1];
          }
        }
      }
      g
  }

  /** Two decimal digits, zero-padded. */
  function TwoDigits(n: nat): (s: string)
    requires n < 100
    ensures |s| == 2 && AllDigits(s) && DigitsValue(s) == n
  {
    var s := [DigitChar(n / 10), DigitChar(n % 10)];
    assert s[..1] == [DigitChar(n / 10)];
    s
  }

  /** An amount of cents written the pt-BR way: "1.234,56". */
  function FormatBRL(cents: nat): (t: string)
    ensures IsMoneyText(t)
  {
    var whole := NatToString(cents / 100);
    GroupThousands(whole) + ("," + TwoDigits(cents % 100))
  }

  /** Points-and-digits, a comma and two digits make money text, worth 100
      times the digits before the comma plus the two decimals. */
  lemma MoneyOfParts(ip: string, cc: string)
    requires ip != [] && IsDigit(ip[0])
    requires forall i :: 0 <= i < |ip| ==> IsDigit(ip[i]) || ip[i] == '.'
    requires AllDigits(cc) && |cc| == 2
    ensures IsMoneyText(ip + ("," + cc))
    ensures AllDigits(RemoveDots(ip))
    ensures MoneyCents(ip + ("," + cc)) == 100 * DigitsValue(RemoveDots(ip)) + DigitsValue(cc)
  {
    var t := ip + ("," + cc);
    assert t[..|t| - 3] == ip;
    assert t[|t| - 2..] == cc;
    DotsAndDigits(ip);
  }

  /** parseBRL reads back every amount written the pt-BR way. */
  lemma FormatParses(cents: nat)
    ensures ParseBRL(FormatBRL(cents)) == Some(cents)
  {
    FormatDenotes(cents);
    MoneyTextValue(FormatBRL(cents));
  }

  /** The pt-BR rendering of an amount denotes that amount. */
  lemma FormatDenotes(cents: nat)
    ensures MoneyCents(FormatBRL(cents)) == cents
  {
    var whole := NatToString(cents / 100);
    var g := GroupThousands(whole);
    var cc := TwoDigits(cents % 100);
    MoneyOfParts(g, cc);
    NatToStringValue(cents / 100);
  }

  /** "<digits>,<two digits>" is 100 * digits + decimals: "0,00" is 0, "100,00" is 10000. */
  lemma WholeCommaCents(whole: string, cc: string)
    requires AllDigits(whole) && whole != []
    requires AllDigits(cc) && |cc| == 2
    ensures ParseBRL(whole + ("," + cc)).Some?
    ensures ParseBRL(whole + ("," + cc)).value == 100 * DigitsValue(whole) + DigitsValue(cc)
  {
    DigitsHaveNoDot(whole);
    MoneyOfParts(whole, cc);
    MoneyTextValue(whole + ("," + cc));
  }

  /** One quote at each end is ignored: "\"400,49\"" reads as "400,49". */
  lemma QuotesIgnored(q1: char, s: string, q2: char)
    requires IsQuote(q1) && IsQuote(q2)
    requires s != [] && !IsSpace(s[0]) && !IsSpace(s[|s| - 1])
    requires !IsQuote(s[0]) && !IsQuote(s[|s| - 1])
    ensures ParseBRL([q1] + s + [q2]) == ParseBRL(s)
  {
    var t := [q1] + s + [q2];
    TrimOfTrimmed(t);
    TrimOfTrimmed(s);
    assert t[1..] == s + [q2];
    assert (s + [q2])[..|s|] == s;
    assert StripQuotes(Trim(t)) == s == StripQuotes(Trim(s));
  }

  /** Text whose first character cannot begin a number reads as null ("abc"). */
  lemma NoNumericPrefix(s: string)
    requires s != [] && !IsSpace(s[0]) && !IsQuote(s[0]) && !IsDigit(s[0])
    requires s[0] != '+' && s[0] != '-' && s[0] != '.' && s[0] != ','
    ensures ParseBRL(s) == None
  {
    assert SkipSpaces(s, 0) == 0;
    var tr := Trim(s);
    assert tr != [] && tr[0] == s[0];
    var cleaned := StripQuotes(tr);
    assert cleaned != [] && cleaned[0] == s[0];
    assert cleaned == [cleaned[0]] + cleaned[1..];
    RemoveDotsAppend([cleaned[0]], cleaned[1..]);
    var nd := RemoveDots(cleaned);
    assert nd[0] == s[0];
    var normalized := ReplaceFirstComma(nd);
    assert normalized[0] == s[0];
    assert TrimStart(normalized) == normalized;
    assert DigitRun(normalized, 0) == 0;
  }
}
