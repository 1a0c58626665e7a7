/** The eight-decimal printer `_format_exact` and the canonical decimal reader `_fraction`. */
module FixedPoint {
  import opened Basics
  import opened Rounding

  const PLACES := 8

  predicate IsDigit(c: char) { '0' <= c <= '9' }
  predicate AllDigits(s: string) { forall c :: c in s ==> IsDigit(c) }
  function DigitChar(d: int): char
    requires 0 <= d < 10
  {
    '0' + d as char
  }
  function DigitValue(c: char): (d: int)
    requires IsDigit(c)
    ensures 0 <= d < 10
  {
    c as int - '0' as int
  }

  function Pow10(k: nat): (p: int)
    ensures p >= 1
  {
    if k == 0 then 1 else 10 * Pow10(k - 1)
  }

  /** The number a digit string denotes. */
  function Value(s: string): (v: int)
    requires AllDigits(s)
    ensures 0 <= v < Pow10(|s|)
  {
    if s == [] then 0 else 10 * Value(s[..|s| - 1]) + DigitValue(s[|s| - 1])
  }

  /** `{n:0kd}` for a number that fits in `k` digits. */
  function Pad(n: int, k: nat): (s: string)
    requires 0 <= n < Pow10(k)
    ensures |s| == k && AllDigits(s)
  {
    if k == 0 then [] else Pad(n / 10, k - 1) + [DigitChar(n % 10)]
  }

  /** `{n}` for a natural number. */
  function Decimal(n: int): (s: string)
    requires n >= 0
    ensures |s| >= 1 && AllDigits(s)
  {
    if n < 10 then [DigitChar(n)] else Decimal(n / 10) + [DigitChar(n % 10)]
  }

  /** No leading zero, except for zero itself. */
  predicate CanonicalWhole(s: string) {
    s != [] && AllDigits(s) && (|s| == 1 || s[0] != '0')
  }

  /** Position of the decimal point, or the length. */
  function Dot(s: string): (k: nat)
    ensures k <= |s| && (k < |s| ==> s[k] == '.') && forall i :: 0 <= i < k ==> s[i] != '.'
  {
    if s == [] then 0 else if s[0] == '.' then 0 else Dot(s[1..]) + 1
  }

  datatype Fraction = Fraction(num: int, den: int)

  function Body(s: string): string {
    if s != [] && s[0] == '-' then s[1..] else s
  }

  predicate Canonical(s: string) {
    var body := Body(s);
    var k := Dot(body);
    && CanonicalWhole(body[..k])
    && (k < |body| ==> body[k + 1..] != [] && AllDigits(body[k + 1..]))
  }

  /** `_fraction`: an exact value, or nothing for a string that is not canonical. */
  function Parse(s: string): Option<Fraction> {
    if !Canonical(s) then None
    else
      var body := Body(s);
      var k := Dot(body);
      var decimals := if k < |body| then body[k + 1..] else [];
      var magnitude := Value(body[..k]) * Pow10(|decimals|) + Value(decimals);
      Some(Fraction(if s[0] == '-' then -magnitude else magnitude, Pow10(|decimals|)))
  }

  /** `_format_exact` of a whole number of quanta. */
  function Print(units: int): string {
    var magnitude := if units < 0 then -units else units;
    FractionFits(magnitude);
    (if units < 0 then "-" else "") + Decimal(magnitude / QUANTA) + "." + Pad(magnitude % QUANTA, PLACES)
  }

  /** `_format_exact` of any exact value. */
  function Format(f: Fraction): string
    requires f.den > 0
  {
    Print(RoundHalfEven(f.num * QUANTA, f.den))
  }

  lemma {:induction false} FractionFits(m: int)
    requires m >= 0
    ensures Pow10(PLACES) == QUANTA && 0 <= m % QUANTA < Pow10(PLACES)
  {
    assert Pow10(4) == 10000 by { assert Pow10(2) == 100; }
    assert Pow10(6) == 1000000;
    assert Pow10(8) == 100000000;
  }

  // ---------------------------------------------------------------- digit strings

  lemma {:induction false} DigitRoundTrip(d: int, c: char)
    ensures 0 <= d < 10 ==> IsDigit(DigitChar(d)) && DigitValue(DigitChar(d)) == d
    ensures IsDigit(c) ==> DigitChar(DigitValue(c)) == c
  {}

  lemma {:induction false} ValueOfPad(n: int, k: nat)
    requires 0 <= n < Pow10(k)
    ensures Value(Pad(n, k)) == n
  {
    if k > 0 {
      ValueOfPad(n / 10, k - 1);
      var s := Pad(n, k);
      assert s[..|s| - 1] == Pad(n / 10, k - 1);
      DigitRoundTrip(n % 10, '0');
    }
  }

  lemma {:induction false} DropDigit(a: int, d: int)
    requires a >= 0 && 0 <= d < 10
    ensures (10 * a + d) / 10 == a && (10 * a + d) % 10 == d
  {}

  lemma {:induction false} PadAppend(a: int, d: int, k: nat)
    requires 0 <= a < Pow10(k) && 0 <= d < 10
    ensures 10 * a + d < Pow10(k + 1) && Pad(10 * a + d, k + 1) == Pad(a, k) + [DigitChar(d)]
  {
    DropDigit(a, d);
  }

  lemma {:induction false} PadOfValue(s: string)
    requires AllDigits(s)
    ensures Pad(Value(s), |s|) == s
    decreases |s|
  {
    hide Pad, Pow10;
    if s == [] {
    } else {
      var init, last := s[..|s| - 1], s[|s| - 1];
      PadOfValue(init);
      DigitRoundTrip(0, last);
      PadAppend(Value(init), DigitValue(last), |init|);
      assert s == init + [last];
    }
  }

  lemma {:induction false} ValueOfDecimal(n: int)
    requires n >= 0
    ensures Value(Decimal(n)) == n && CanonicalWhole(Decimal(n))
    ensures n > 0 ==> Decimal(n)[0] != '0'
  {
    if n >= 10 {
      ValueOfDecimal(n / 10);
      var s := Decimal(n);
      assert s[..|s| - 1] == Decimal(n / 10);
    }
    DigitRoundTrip(n % 10, '0');
  }

  lemma {:induction false} ValuePositive(s: string)
    requires CanonicalWhole(s) && s[0] != '0'
    ensures Value(s) > 0
    decreases |s|
  {
    if |s| > 1 {
      ValuePositive(s[..|s| - 1]);
    } else {
      DigitRoundTrip(0, s[0]);
      assert Value(s[..0]) == 0;
    }
  }

  lemma {:induction false} DecimalOfValue(s: string)
    requires CanonicalWhole(s)
    ensures Decimal(Value(s)) == s
    decreases |s|
  {
    var init, last := s[..|s| - 1], s[|s| - 1];
    DigitRoundTrip(0, last);
    assert s == init + [last];
    if |s| > 1 {
      DecimalOfValue(init);
      ValuePositive(init);
      DropDigit(Value(init), DigitValue(last));
    } else {
      assert Value(init) == 0;
    }
  }

  lemma {:induction false} DotAt(whole: string, decimals: string)
    requires AllDigits(whole)
    ensures Dot(whole + "." + decimals) == |whole|
  {
    var s := whole + "." + decimals;
    assert s[|whole|] == '.';
    assert forall i :: 0 <= i < |whole| ==> s[i] == whole[i] && whole[i] in whole && IsDigit(whole[i]);
    hide Dot;
  }

  // ------------------------------------------------------------------ round trips

  /** What the reader makes of a sign, a whole part and eight decimals. */
  lemma {:induction false} ParseShape(negative: bool, whole: string, decimals: string)
    requires CanonicalWhole(whole) && AllDigits(decimals) && decimals != []
    ensures var m := Value(whole) * Pow10(|decimals|) + Value(decimals);
      Parse((if negative then "-" else "") + whole + "." + decimals) ==
        Some(Fraction(if negative then -m else m, Pow10(|decimals|)))
  {
    hide Dot, Value, Pow10, Body, CanonicalWhole, AllDigits;
    var body := whole + "." + decimals;
    var s := (if negative then "-" else "") + whole + "." + decimals;
    BodyOfShape(negative, whole, decimals);
    DotAt(whole, decimals);
    assert body[..|whole|] == whole && body[|whole| + 1..] == decimals;
    assert Canonical(s);
    hide Canonical;
  }

  lemma {:induction false} BodyOfShape(negative: bool, whole: string, decimals: string)
    requires CanonicalWhole(whole)
    ensures AllDigits(whole)
    ensures var s := (if negative then "-" else "") + whole + "." + decimals;
      Body(s) == whole + "." + decimals && (s[0] == '-' <==> negative)
  {
    var body := whole + "." + decimals;
    assert body[0] == whole[0] && whole[0] in whole && IsDigit(body[0]);
    assert (if negative then "-" else "") + whole + "." + decimals == (if negative then "-" else "") + body;
  }

  /** A decimal in canonical form: a sign, a whole part with no leading zero, and the decimals with
      their point unless there are none. */
  ghost predicate Spells(s: string, negative: bool, whole: string, decimals: string) {
    && s == (if negative then "-" else "") + whole + (if decimals == [] then "" else "." + decimals)
    && whole != [] && (whole[0] == '0' ==> |whole| == 1)
    && forall c :: c in whole || c in decimals ==> '0' <= c <= '9'
  }

  lemma {:induction false} ValueConcat(s: string, t: string)
    requires AllDigits(s) && AllDigits(t)
    ensures AllDigits(s + t) && Value(s + t) == Value(s) * Pow10(|t|) + Value(t)
    decreases |t|
  {
    if t == [] {
      assert s + t == s;
    } else {
      var init, last := t[..|t| - 1], t[|t| - 1];
      assert AllDigits(init) && IsDigit(last);
      ValueConcat(s, init);
      assert (s + t)[..|s + t| - 1] == s + init && (s + t)[|s + t| - 1] == last;
      Shift(Value(s), Pow10(|init|), Value(init), DigitValue(last));
    }
  }

  lemma {:induction false} Shift(v: int, p: int, w: int, d: int)
    ensures 10 * (v * p + w) + d == v * (10 * p) + (10 * w + d)
  {}

  lemma {:induction false} NoDot(s: string)
    requires AllDigits(s)
    ensures Dot(s) == |s|
  {
    var k := Dot(s);
    assert k < |s| ==> s[k] in s && IsDigit(s[k]);
    hide Dot;
  }

  lemma {:induction false} ParseWhole(negative: bool, whole: string)
    requires CanonicalWhole(whole)
    ensures Parse((if negative then "-" else "") + whole) ==
      Some(Fraction(if negative then -Value(whole) else Value(whole), 1))
  {
    var s := (if negative then "-" else "") + whole;
    assert whole[0] in whole && IsDigit(whole[0]);
    assert Body(s) == whole && (s[0] == '-' <==> negative);
    NoDot(whole);
    hide Dot, Body, CanonicalWhole, AllDigits;
    assert whole[..|whole|] == whole;
    assert Canonical(s);
    hide Canonical;
  }

  /** What the reader makes of a canonical decimal: its digits read as one number, over the power of
      ten its decimals call for. */
  lemma {:induction false} ParseMeans(s: string, negative: bool, whole: string, decimals: string)
    requires Spells(s, negative, whole, decimals)
    ensures AllDigits(whole + decimals)
    ensures var v := Value(whole + decimals);
      Parse(s) == Some(Fraction(if negative then -v else v, Pow10(|decimals|)))
  {
    SpelledParts(s, negative, whole, decimals);
    ValueConcat(whole, decimals);
    hide *;
    if decimals == [] {
      assert whole + decimals == whole;
      ParseWhole(negative, whole);
      WholeAlone();
    } else {
      ParseShape(negative, whole, decimals);
    }
  }

  lemma {:induction false} WholeAlone()
    ensures Pow10(0) == 1
  {}

  lemma {:induction false} SpelledParts(s: string, negative: bool, whole: string, decimals: string)
    requires Spells(s, negative, whole, decimals)
    ensures CanonicalWhole(whole) && AllDigits(whole) && AllDigits(decimals)
    ensures s == if decimals == [] then (if negative then "-" else "") + whole
                 else (if negative then "-" else "") + whole + "." + decimals
  {
    var sign := if negative then "-" else "";
    assert sign + whole + "" == sign + whole && sign + whole + ("." + decimals) == sign + whole + "." + decimals;
  }

  /** The reader accepts the canonical decimals and no other string. */
  lemma {:induction false} CanonicalMeans(s: string)
    ensures Parse(s).Some? <==> exists negative, whole, decimals :: Spells(s, negative, whole, decimals)
  {
    if Canonical(s) {
      var body := Body(s);
      var k := Dot(body);
      var negative, whole := s[0] == '-', body[..k];
      var decimals := if k < |body| then body[k + 1..] else [];
      assert body == whole + (if decimals == [] then "" else "." + decimals);
      assert Spells(s, negative, whole, decimals);
    }
    if negative, whole, decimals :| Spells(s, negative, whole, decimals) {
      ParseMeans(s, negative, whole, decimals);
    }
  }

  /** A printed number is a sign, a whole part and eight decimals that denote it. */
  lemma {:induction false} PrintParts(units: int) returns (whole: string, decimals: string)
    ensures CanonicalWhole(whole) && AllDigits(decimals) && |decimals| == 8 && Pow10(8) == QUANTA
    ensures Print(units) == (if units < 0 then "-" else "") + whole + "." + decimals
    ensures Value(whole) * QUANTA + Value(decimals) == if units < 0 then -units else units
  {
    var m := if units < 0 then -units else units;
    FractionFits(m);
    whole, decimals := Decimal(m / QUANTA), Pad(m % QUANTA, PLACES);
    ValueOfDecimal(m / QUANTA);
    ValueOfPad(m % QUANTA, PLACES);
    hide Decimal, Pad, Value, Pow10;
  }

  /** Reading a printed number of quanta returns it exactly. */
  lemma {:induction false} ParsePrint(units: int)
    ensures Parse(Print(units)) == Some(Fraction(units, QUANTA))
  {
    var whole, decimals := PrintParts(units);
    hide *;
    ParseShape(units < 0, whole, decimals);
  }

  /** Reading a printed value returns exactly its rounding. */
  lemma {:induction false} ParseFormat(f: Fraction)
    requires f.den > 0
    ensures Parse(Format(f)) == Some(Fraction(RoundHalfEven(f.num * QUANTA, f.den), QUANTA))
  {
    ParsePrint(RoundHalfEven(f.num * QUANTA, f.den));
  }

  /** The decimals of a canonical string. */
  function Decimals(s: string): string
    requires Canonical(s)
  {
    var body := Body(s);
    if Dot(body) < |body| then body[Dot(body) + 1..] else []
  }

  predicate NegativeZero(s: string)
    requires Canonical(s)
  {
    s[0] == '-' && Parse(s).value.num == 0
  }

  lemma {:induction false} Pow10Injective(j: nat, k: nat)
    requires Pow10(j) == Pow10(k)
    ensures j == k
  {
    if j > 0 && k > 0 {
      Pow10Injective(j - 1, k - 1);
    }
  }

  /** A canonical string with decimals is its sign, whole part, point and decimals. */
  lemma {:induction false} CanonicalShape(s: string)
    requires Canonical(s) && Decimals(s) != []
    ensures var body := Body(s); var whole := body[..Dot(body)];
      && CanonicalWhole(whole) && AllDigits(Decimals(s))
      && s == (if s[0] == '-' then "-" else "") + whole + "." + Decimals(s)
  {
    hide Dot, Value, Pow10;
    var body := Body(s);
    var k := Dot(body);
    assert Decimals(s) == body[k + 1..] && body[k] == '.' && CanonicalWhole(body[..k]) && AllDigits(body[k + 1..])
      && s != [];
    assert s == (if s[0] == '-' then "-" else "") + body;
    hide *;
    PointSplits(body, k);
    Associates(if s[0] == '-' then "-" else "", body[..k], ".", body[k + 1..]);
  }

  lemma {:induction false} PointSplits(s: string, k: nat)
    requires k < |s| && s[k] == '.'
    ensures s == s[..k] + "." + s[k + 1..]
  {}

  lemma {:induction false} Associates(a: string, b: string, c: string, d: string)
    ensures a + (b + c + d) == a + b + c + d
  {}

  lemma {:induction false} SplitUnits(w: int, f: int)
    requires w >= 0 && 0 <= f < QUANTA
    ensures (w * QUANTA + f) / QUANTA == w && (w * QUANTA + f) % QUANTA == f
  {}

  lemma {:induction false} PrintShape(negative: bool, whole: string, decimals: string, units: int)
    requires CanonicalWhole(whole) && AllDigits(decimals) && |decimals| == 8
    requires (if negative then -units else units) == Value(whole) * QUANTA + Value(decimals)
    requires negative <==> units < 0
    ensures Print(units) == (if negative then "-" else "") + whole + "." + decimals
  {
    hide Decimal, Pad, Value, Pow10, CanonicalWhole, AllDigits;
    var m := if units < 0 then -units else units;
    FractionFits(m);
    DecimalOfValue(whole);
    PadOfValue(decimals);
    SplitUnits(Value(whole), Value(decimals));
    assert Decimal(m / QUANTA) == whole && Pad(m % QUANTA, PLACES) == decimals;
  }

  /** Printing what was read gives the string back exactly when it has eight decimals and is not
      a negative zero. */
  lemma {:induction false} FormatParse(s: string)
    requires Canonical(s)
    ensures Parse(s).Some? && Parse(s).value.den > 0
    ensures Format(Parse(s).value) == s <==> |Decimals(s)| == PLACES && !NegativeZero(s)
  {
    var f := Parse(s).value;
    var units := RoundHalfEven(f.num * QUANTA, f.den);
    if |Decimals(s)| == PLACES {
      EightDecimals(s);
    }
    if Print(units) == s {
      ParsePrint(units);
      FractionFits(0);
      Pow10Injective(|Decimals(s)|, PLACES);
      assert f == Fraction(units, QUANTA);
      PrintSign(units);
    }
  }

  lemma {:induction false} PrintSign(units: int)
    ensures Print(units) != [] && (Print(units)[0] == '-' <==> units < 0)
  {
    var m := if units < 0 then -units else units;
    var whole := Decimal(m / QUANTA);
    assert whole[0] in whole && IsDigit(whole[0]);
    hide Decimal, Pad, Pow10;
  }

  lemma {:induction false} EightDecimals(s: string)
    requires Canonical(s) && |Decimals(s)| == PLACES
    ensures !NegativeZero(s) ==> Format(Parse(s).value) == s
  {
    hide Dot, Value, Decimal, Pad;
    FractionFits(0);
    CanonicalShape(s);
    var whole, decimals := Body(s)[..Dot(Body(s))], Decimals(s);
    var m := Value(whole) * QUANTA + Value(decimals);
    var units := if s[0] == '-' then -m else m;
    assert Parse(s) == Some(Fraction(units, QUANTA));
    RoundFixesWhole(units, QUANTA);
    if !NegativeZero(s) {
      hide Canonical, Parse, Print, Body, Decimals, NegativeZero;
      PrintShape(s[0] == '-', whole, decimals, units);
    }
  }
}
