/** Decimal numbers as text: JavaScript's `parseFloat` on the page side and Python's `:.2f` formatting with
    round-half-to-even on the exporter side. Values are exact rationals (see README, "Left out"). */
module Decimal {
  import opened Wrappers
  import opened Text

  function Pow10(n: nat): (p: nat)
    ensures p >= 1
  {
    if n == 0 then 1 else 10 * Pow10(n - 1)
  }

  /** A run of `k` digits is worth less than `10^k`. */
  lemma {:induction false} DigitsValueBound(ds: string)
    requires AllDigits(ds)
    ensures DigitsValue(ds) < Pow10(|ds|)
  {
    if ds != [] {
      DigitsValueBound(ds[..|ds| - 1]);
    }
  }

  /** `s` with its leading white space removed, as `parseFloat` skips it. */
  function SkipSpace(s: string): (r: string)
    ensures |r| <= |s|
    ensures r == [] || !IsJsSpace(r[0])
  {
    if s != [] && IsJsSpace(s[0]) then SkipSpace(s[1..]) else s
  }

  /** The text after an optional sign. */
  function Unsigned(t: string): string {
    if t != [] && (t[0] == '-' || t[0] == '+') then t[1..] else t
  }

  /** A decimal literal can be read at the front of `body`: a digit, or a point followed by a digit. */
  predicate StartsNumber(body: string) {
    (body != [] && IsDigit(body[0])) || (|body| >= 2 && body[0] == '.' && IsDigit(body[1]))
  }

  /** The number read from the front of unsigned text: a run of digits, then optionally a point and a
      further run of digits, with at least one digit in all; `None` when there is no such number. */
  function ParseUnsigned(body: string): (r: Option<real>)
    ensures r.Some? <==> StartsNumber(body)
    ensures r.Some? ==> r.value >= 0.0
  {
    var n := DigitRun(body);
    if n < |body| && body[n] == '.' then
      var frac := body[n + 1..];
      var m := DigitRun(frac);
      if n == 0 && m == 0 then None
      else Some(DigitsValue(body[..n]) as real + Fraction(frac[..m]))
    else if n == 0 then None
    else Some(DigitsValue(body[..n]) as real)
  }

  /** JavaScript's `parseFloat(s)` for plain decimal literals: white space, an optional sign, digits, an
      optional fraction; whatever follows the longest such prefix is ignored. `None` is `NaN`. */
  function ParseFloat(s: string): (r: Option<real>)
    ensures r.Some? <==> StartsNumber(Unsigned(SkipSpace(s)))
  {
    var t := SkipSpace(s);
    match ParseUnsigned(Unsigned(t))
    case None => None
    case Some(v) => Some(if t != [] && t[0] == '-' then -v else v)
  }

  /** The value of the digits after a decimal point. */
  function Fraction(fs: string): (v: real)
    requires AllDigits(fs)
    ensures 0.0 <= v
  {
    Ratio(DigitsValue(fs), Pow10(|fs|))
  }

  function Ratio(a: nat, b: nat): (v: real)
    requires b > 0
    ensures 0.0 <= v
  {
    a as real / b as real
  }

  /** `x || 0` applied to `parseFloat`: `NaN` (and zero) become 0. */
  function ParseFloatOrZero(s: string): real {
    ParseFloat(s).GetOr(0.0)
  }

  /** The integer nearest to `num / den`, ties to the even one, as Python rounds. */
  function RoundHalfEven(num: nat, den: nat): (q: nat)
    requires den > 0
    ensures q == num / den || q == num / den + 1
    ensures 2 * (num % den) < den ==> q == num / den
    ensures 2 * (num % den) > den ==> q == num / den + 1
    ensures 2 * (num % den) == den ==> q % 2 == 0
  {
    var q, r := num / den, num % den;
    if 2 * r < den then q
    else if 2 * r > den then q + 1
    else if q % 2 == 0 then q
    else q + 1
  }

  /** The rounded value is within half a unit of the exact quotient `num / den`. */
  lemma RoundNearest(num: nat, den: nat)
    requires den > 0
    ensures var q := RoundHalfEven(num, den);
      2 * (q * den - num) <= den && 2 * (num - q * den) <= den
  {
    var d, r := num / den, num % den;
    assert num == d * den + r;
    assert (d + 1) * den == d * den + den;
  }

  lemma DivMonotone(a: nat, b: nat, den: nat)
    requires den > 0 && a <= b
    ensures a / den <= b / den
    ensures a / den == b / den ==> a % den <= b % den
  {
    var da, db := a / den, b / den;
    assert a == da * den + a % den;
    assert b == db * den + b % den;
    MulStep(db, da, den);
  }

  /** A strictly larger factor gives a product larger by at least `k`. */
  lemma MulStep(x: nat, y: nat, k: nat)
    ensures x < y ==> x * k + k <= y * k
  {
    if x < y {
      var d := y - x - 1;
      assert y * k == x * k + k + d * k by {
        assert y == x + 1 + d;
      }
      assert d * k >= 0;
    }
  }

  /** Rounding is monotone: a larger quotient never rounds to a smaller integer. */
  lemma RoundMonotone(a: nat, b: nat, den: nat)
    requires den > 0 && a <= b
    ensures RoundHalfEven(a, den) <= RoundHalfEven(b, den)
  {
    DivMonotone(a, b, den);
  }

  /** A quotient that is already an integer is left alone. */
  lemma RoundExact(k: nat, den: nat)
    requires den > 0
    ensures RoundHalfEven(k * den, den) == k
  {
    var n := k * den;
    assert n == (n / den) * den + n % den;
    MulStep(n / den, k, den);
    MulStep(k, n / den, den);
  }

  /** Python's `f"{x:.2f}"` for a non-negative value already rounded to `h` hundredths. */
  function FormatFixed2(h: nat): (r: string)
    ensures |r| >= 4 && r[|r| - 3] == '.'
    ensures AllDigits(r[..|r| - 3]) && AllDigits(r[|r| - 2..])
  {
    var cents := h % 100;
    NatToDigits(h / 100) + "." + [DigitChar(cents / 10), DigitChar(cents % 10)]
  }

  /** `parseFloat` of text that starts with the digits `ds`, a point, and the digits `fs` that end the
      literal. */
  lemma ParseAtDigit(s: string, ds: string, fs: string)
    requires ds != [] && AllDigits(ds) && AllDigits(fs)
    requires DigitRun(s) == |ds| < |s| && s[..|ds|] == ds && s[|ds|] == '.'
    requires DigitRun(s[|ds| + 1..]) == |fs| && s[|ds| + 1..][..|fs|] == fs
    ensures ParseFloat(s) == Some(DigitsValue(ds) as real + Fraction(fs))
  {
    assert s[0] == ds[0];
    assert SkipSpace(s) == s;
    assert Unsigned(s) == s;
  }

  /** `parseFloat` of an unsigned literal with a fraction, followed by text that cannot continue it. */
  lemma ParseFraction(ds: string, fs: string, rest: string)
    requires ds != [] && AllDigits(ds) && AllDigits(fs)
    requires rest == [] || !IsDigit(rest[0])
    ensures ParseFloat(ds + "." + fs + rest) == Some(DigitsValue(ds) as real + Fraction(fs))
  {
    var s := ds + "." + fs + rest;
    LiteralPieces(ds, fs, rest);
    DigitRunOfDigitsThenOther(ds, "." + fs + rest);
    DigitRunOfDigitsThenOther(fs, rest);
    ParseAtDigit(s, ds, fs);
  }

  /** Where the pieces of `ds + "." + fs + rest` sit. */
  lemma LiteralPieces(ds: string, fs: string, rest: string)
    ensures var s := ds + "." + fs + rest;
      && s == ds + ("." + fs + rest) && s[..|ds|] == ds && s[|ds|] == '.'
      && s[|ds| + 1..] == fs + rest && s[|ds| + 1..][..|fs|] == fs
  {
    var s := ds + "." + fs + rest;
    assert s == (ds + ".") + (fs + rest);
  }

  /** `parseFloat` reads back exactly the value `:.2f` wrote, whatever text (such as a unit) follows it. */
  lemma ParseFormatFixed2(h: nat, rest: string)
    requires rest == [] || !IsDigit(rest[0])
    ensures ParseFloat(FormatFixed2(h) + rest) == Some(h as real / 100.0)
  {
    var ds := NatToDigits(h / 100);
    var cents := h % 100;
    var fs := [DigitChar(cents / 10), DigitChar(cents % 10)];
    FixedPieces(h, rest);
    CentsFraction(cents);
    ParseFraction(ds, fs, rest);
    NatToDigitsValue(h / 100);
    HundredthsValue(h / 100, cents, h);
  }

  /** The whole digits, the point and the two cent digits of a `.2f` text. */
  lemma FixedPieces(h: nat, rest: string)
    ensures FormatFixed2(h) + rest
      == NatToDigits(h / 100) + "." + [DigitChar(h % 100 / 10), DigitChar(h % 100 % 10)] + rest
  {
  }

  /** The two digits written for the cents read back as that many hundredths. */
  lemma CentsFraction(cents: nat)
    requires cents < 100
    ensures var fs := [DigitChar(cents / 10), DigitChar(cents % 10)];
      AllDigits(fs) && Fraction(fs) == cents as real / 100.0
  {
    var fs := [DigitChar(cents / 10), DigitChar(cents % 10)];
    assert fs[..1] == [fs[0]] && [fs[0]][..0] == [];
    assert DigitsValue([fs[0]]) == cents / 10;
    assert DigitsValue(fs) == cents;
    assert Pow10(2) == 100;
  }

  lemma HundredthsValue(w: nat, f: nat, h: nat)
    requires h == w * 100 + f
    ensures w as real + f as real / 100.0 == h as real / 100.0
  {
  }
}
