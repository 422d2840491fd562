/** The confidence value the diagnosis handler reports, and its text form
    `f"{confidence}%"` (app.py:126, app.py:134). */
module Percent {
  import opened Decimal
  import opened Outcome

  /** A confidence percentage. The symptom fallback uses the integer literal
      75 (`Whole`); image mode uses `round(p * 100, 2)`, a float with at most
      two decimals, held here exactly as a whole number of hundredths. */
  datatype Confidence = Whole(n: nat) | Hundredths(h: nat)

  /** The confidence counted in hundredths of a percent. */
  function InHundredths(c: Confidence): nat
  {
    match c
    case Whole(n) => 100 * n
    case Hundredths(h) => h
  }

  /** The number the severity thresholds compare against. */
  function Value(c: Confidence): real
  {
    InHundredths(c) as real / 100.0
  }

  /** `round(p * 100, 2)` for a class probability `p`, in hundredths of a
      percent: the nearest whole number of hundredths. */
  function ScaledProbability(p: real): (h: nat)
    requires 0.0 <= p
    ensures h as real - 0.5 <= p * 10000.0 < h as real + 0.5
  {
    (p * 10000.0 + 0.5).Floor
  }

  /** Rounding never reverses the order of two probabilities. */
  lemma ScaledMonotone(p: real, q: real)
    requires 0.0 <= p <= q
    ensures ScaledProbability(p) <= ScaledProbability(q)
  {
  }

  /** A probability in [0, 1] gives a percentage in [0, 100]. */
  lemma ScaledInPercentRange(p: real)
    requires 0.0 <= p <= 1.0
    ensures ScaledProbability(p) <= 10000
  {
  }

  /** Digits after the decimal point of Python's float repr for a value with
      at most two decimals: one digit when the second is zero, else two. */
  function Fraction(f: nat): (s: string)
    requires f < 100
    ensures 1 <= |s| <= 2
    ensures AllDigits(s)
  {
    if f % 10 == 0 then [DigitChar(f / 10)] else [DigitChar(f / 10), DigitChar(f % 10)]
  }

  /** `str(confidence)`: an int prints as its digits; a float below 1e16
      with at most two decimals prints as `N.d` or `N.dd`, never without a
      fractional digit (`90.0`). */
  function Render(c: Confidence): (s: string)
    ensures c.Whole? ==> Canonical(s)
    ensures c.Hundredths? ==> FloatText(s)
  {
    match c
    case Whole(n) => NatToString(n)
    case Hundredths(h) =>
      var w, f := NatToString(h / 100), Fraction(h % 100);
      DotAfterDigits(w, f);
      assert (w + "." + f)[..|w|] == w && (w + "." + f)[|w| + 1..] == f;
      w + "." + f
  }

  /** The shape of Python's float repr for a value below 1e16 with at most
      two decimals: a canonical integer part, a '.', then one digit, or two
      digits of which the last is not 0. */
  predicate FloatText(s: string)
  {
    var i := DotIndex(s);
    && i < |s|
    && Canonical(s[..i])
    && var f := s[i + 1..];
       AllDigits(f) && (|f| == 1 || (|f| == 2 && f[1] != '0'))
  }

  /** A number followed by '%', the number spelt as `str` spells an int or
      a float with at most two decimals. */
  predicate PercentShape(s: string)
  {
    |s| >= 1 && s[|s| - 1] == '%' && (Canonical(s[..|s| - 1]) || FloatText(s[..|s| - 1]))
  }

  /** The confidence text shown to the user and stored in history. */
  function PercentText(c: Confidence): (s: string)
    ensures PercentShape(s)
    ensures ParsePercent(s) == Some(c)
  {
    var s := Render(c) + "%";
    assert s[..|s| - 1] == Render(c);
    RenderRoundTrip(c);
    s
  }

  /** Position of the first '.' in `s`, or `|s|` when there is none. */
  function DotIndex(s: string): (i: nat)
    ensures i <= |s|
    ensures i < |s| ==> s[i] == '.'
    ensures forall j :: 0 <= j < i ==> s[j] != '.'
  {
    if |s| == 0 || s[0] == '.' then 0 else 1 + DotIndex(s[1..])
  }

  function FractionValue(s: string): nat
    requires 1 <= |s| <= 2 && AllDigits(s)
  {
    if |s| == 1 then 10 * DigitValue(s[0]) else StringToNat(s)
  }

  /** Reads a number written by `Render`. */
  function ParseNumber(s: string): Option<Confidence>
  {
    var i := DotIndex(s);
    if i == |s| then
      if |s| > 0 && AllDigits(s) then Some(Whole(StringToNat(s))) else None
    else
      var whole, frac := s[..i], s[i + 1..];
      if |whole| > 0 && AllDigits(whole) && 1 <= |frac| <= 2 && AllDigits(frac)
      then Some(Hundredths(100 * StringToNat(whole) + FractionValue(frac)))
      else None
  }

  /** Reads a confidence text `<number>%`. */
  function ParsePercent(s: string): Option<Confidence>
  {
    if |s| == 0 || s[|s| - 1] != '%' then None else ParseNumber(s[..|s| - 1])
  }

  lemma {:induction false} DigitsHaveNoDot(s: string)
    requires AllDigits(s)
    ensures DotIndex(s) == |s|
  {
    if |s| > 0 {
      assert forall i :: 0 <= i < |s[1..]| ==> s[1..][i] == s[i + 1];
      DigitsHaveNoDot(s[1..]);
    }
  }

  lemma DotAfterDigits(w: string, f: string)
    requires AllDigits(w)
    ensures DotIndex(w + "." + f) == |w|
  {
    var s := w + "." + f;
    assert s[|w|] == '.';
    assert forall j :: 0 <= j < |w| ==> s[j] == w[j] && s[j] != '.';
  }

  lemma FractionRoundTrip(f: nat)
    requires f < 100
    ensures FractionValue(Fraction(f)) == f
  {
    var s := Fraction(f);
    if f % 10 != 0 {
      assert s[..1] == [s[0]];
      assert StringToNat(s[..1]) == DigitValue(s[0]);
    }
  }

  /** Reading back the number `Render` wrote gives the confidence again. */
  lemma {:induction false} RenderRoundTrip(c: Confidence)
    ensures ParseNumber(Render(c)) == Some(c)
  {
    match c
    case Whole(n) =>
      DigitsHaveNoDot(NatToString(n));
      NatRoundTrip(n);
    case Hundredths(h) =>
      var w, f := NatToString(h / 100), Fraction(h % 100);
      DotAfterDigits(w, f);
      var r := w + "." + f;
      assert r[..|w|] == w && r[|w| + 1..] == f;
      NatRoundTrip(h / 100);
      FractionRoundTrip(h % 100);
  }

  lemma FractionCanonical(f: string)
    requires AllDigits(f) && (|f| == 1 || (|f| == 2 && f[1] != '0'))
    ensures FractionValue(f) < 100
    ensures Fraction(FractionValue(f)) == f
  {
    assert DigitChar(DigitValue(f[0])) == f[0];
    if |f| == 2 {
      assert f[..1] == [f[0]];
      assert StringToNat(f[..1]) == DigitValue(f[0]);
      assert DigitChar(DigitValue(f[1])) == f[1];
    }
  }

  /** Python never prints a confidence two ways: a text of the shape `str`
      gives, read back as `c`, is exactly the text of `c`. So `90.0%` is the
      only text for ninety percent as a float, and `90.00%` or `090.0%` never
      appear. */
  lemma PercentTextCanonical(s: string, c: Confidence)
    requires PercentShape(s)
    requires ParsePercent(s) == Some(c)
    ensures s == PercentText(c)
  {
    var t := s[..|s| - 1];
    assert ParseNumber(t) == Some(c);
    NumberCanonical(t, c);
    assert s == t + "%";
  }

  lemma NumberCanonical(t: string, c: Confidence)
    requires Canonical(t) || FloatText(t)
    requires ParseNumber(t) == Some(c)
    ensures t == Render(c)
  {
    if Canonical(t) {
      DigitsHaveNoDot(t);
      CanonicalRoundTrip(t);
    } else {
      FloatCanonical(t, c);
    }
  }

  lemma FloatCanonical(t: string, c: Confidence)
    requires FloatText(t)
    requires ParseNumber(t) == Some(c)
    ensures t == Render(c)
  {
    var i := DotIndex(t);
    var w, f := t[..i], t[i + 1..];
    CanonicalRoundTrip(w);
    FractionCanonical(f);
    var h := 100 * StringToNat(w) + FractionValue(f);
    assert c == Hundredths(h);
    assert h / 100 == StringToNat(w) && h % 100 == FractionValue(f);
    assert t == w + "." + f;
  }

  lemma PercentTextInjective(c: Confidence, d: Confidence)
    requires PercentText(c) == PercentText(d)
    ensures c == d
  {
    assert ParsePercent(PercentText(c)) == Some(c);
    assert ParsePercent(PercentText(d)) == Some(d);
  }
}
