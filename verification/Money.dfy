/**
 Minor units as the decimal text acquirers exchange, on 64-bit integers that wrap.
 */
module Money {
  import opened Decimal
  import opened Wrappers

  const MIN: int := -0x8000_0000_0000_0000
  const MAX: int := 0x7fff_ffff_ffff_ffff

  type int64 = x: int | MIN <= x <= MAX

  function Wrap(x: int): int64 {
    (x - MIN) % 0x1_0000_0000_0000_0000 + MIN
  }

  function Neg(x: int): int64 { Wrap(-x) }

  // Go's division and remainder truncate toward zero.
  function Quo(x: int, y: int): int
    requires y > 0
  {
    if x >= 0 then x / y else -(-x / y)
  }

  function Rem(x: int, y: int): int
    requires y > 0
  {
    x - Quo(x, y) * y
  }

  // --- integer text ---

  /** strconv.FormatInt(x, 10). */
  function FormatInt(x: int): string { if x < 0 then "-" + Digits(-x) else Digits(x) }

  /** fmt.Sprintf("%02d", x): the width counts a sign. */
  function Pad2(x: int): string { if 0 <= x < 10 then "0" + Digits(x) else FormatInt(x) }

  /** strconv.ParseInt(s, 10, 64). */
  function ParseInt(s: string): Option<int64> {
    if s == "" then None
    else
      var digits := if s[0] == '-' || s[0] == '+' then s[1..] else s;
      if digits == "" || !AllDigits(digits) then None
      else
        var v := if s[0] == '-' then 0 - Value(digits) else Value(digits);
        if MIN <= v <= MAX then Some(v) else None
  }

  // --- the two conversions ---

  function MinorToDecimal(minor: int64): string {
    var m := if minor < 0 then Neg(minor) else minor;
    var out := FormatInt(Quo(m, 100)) + "." + Pad2(Rem(m, 100));
    if minor < 0 then "-" + out else out
  }

  predicate IsSpace(c: char) {
    '\t' <= c <= '\r' || c == ' ' || c == '\U{85}' || c == '\U{A0}' || c == '\U{1680}'
    || '\U{2000}' <= c <= '\U{200A}' || c == '\U{2028}' || c == '\U{2029}' || c == '\U{202F}'
    || c == '\U{205F}' || c == '\U{3000}'
  }

  function TrimSpace(s: string): string {
    if s != "" && IsSpace(s[0]) then TrimSpace(s[1..])
    else if s != "" && IsSpace(s[|s| - 1]) then TrimSpace(s[..|s| - 1])
    else s
  }

  /** Where strings.Cut splits: the first point, or the end. */
  function Point(s: string): (i: nat)
    ensures i <= |s| && '.' !in s[..i] && (i < |s| ==> s[i] == '.')
  {
    if s == "" || s[0] == '.' then 0
    else
      var i := 1 + Point(s[1..]);
      assert s[..i] == [s[0]] + s[1..][..i - 1];
      i
  }

  function TwoDigits(frac: string): string {
    if |frac| == 0 then "00" else if |frac| == 1 then frac + "0" else frac[..2]
  }

  function DecimalToMinor(text: string): Option<int64> {
    var t := TrimSpace(text);
    if t == "" then None
    else
      var neg := t[0] == '-';
      var s := if neg then t[1..] else t;
      var i := Point(s);
      Joined(neg, ParseInt(s[..i]), ParseInt(TwoDigits(if i < |s| then s[i + 1..] else "0")))
  }

  function Joined(neg: bool, w: Option<int64>, f: Option<int64>): Option<int64> {
    if w.None? || f.None? then None
    else
      var out := Wrap(w.value * 100 + f.value);
      Some(if neg then Neg(out) else out)
  }

  /** ParseInt undoes FormatInt. */
  lemma ParseUndoesFormat(x: int)
    requires MIN <= x <= MAX
    ensures ParseInt(FormatInt(x)) == Some(x)
  {
    hide Digits, Value;
    if x < 0 {
      DigitsSpell(-x);
      assert FormatInt(x)[1..] == Digits(-x);
    } else {
      DigitsSpell(x);
      assert IsDigit(Digits(x)[0]);
    }
  }

  lemma ParseUndoesPad(x: int)
    requires -100 < x < 100
    ensures ParseInt(Pad2(x)) == Some(x)
  {
    hide Digits, Value;
    if 0 <= x < 10 {
      DigitsSpell(x);
      LeadingZero(Digits(x));
    } else {
      ParseUndoesFormat(x);
    }
  }

  // --- one amount ---

  function Amount(neg: bool, whole: string, frac: string): string {
    (if neg then "-" else "") + whole + "." + frac
  }

  lemma NoPoint(s: string)
    requires AllDigits(s)
    ensures '.' !in s
  {
  }

  lemma DigitText(s: string)
    requires s != "" && AllDigits(s)
    ensures '.' !in s && s[0] != '-' && !IsSpace(s[0]) && !IsSpace(s[|s| - 1])
  {
    NoPoint(s);
    assert IsDigit(s[0]) && IsDigit(s[|s| - 1]);
    hide IsSpace;
    NotSpace(s[0]);
    NotSpace(s[|s| - 1]);
  }

  /** Text without spaces around it, cut at its first point. */
  lemma SplitAmount(neg: bool, whole: string, frac: string)
    requires whole != "" && '.' !in whole
    requires !IsSpace(whole[0]) && (frac != "" ==> !IsSpace(frac[|frac| - 1])) && (!neg ==> whole[0] != '-')
    ensures DecimalToMinor(Amount(neg, whole, frac)) == Joined(neg, ParseInt(whole), ParseInt(TwoDigits(frac)))
  {
    hide ParseInt, Joined, IsSpace, TwoDigits;
    var body := whole + "." + frac;
    var text := Amount(neg, whole, frac);
    NotSpace('-');
    NotSpace('.');
    assert text[|text| - 1] == if frac == "" then '.' else frac[|frac| - 1];
    assert TrimSpace(text) == text;
    assert neg ==> text[1..] == body;
    assert !neg ==> text == body;
    PointOf(whole, frac);
    var i := Point(body);
    assert body[..i] == whole && body[i + 1..] == frac;
  }

  /** Text without a point counts whole units. */
  lemma SplitWhole(neg: bool, whole: string)
    requires whole != "" && AllDigits(whole)
    ensures DecimalToMinor((if neg then "-" else "") + whole) == Joined(neg, ParseInt(whole), ParseInt("00"))
  {
    DigitText(whole);
    hide ParseInt, Joined, IsSpace, Value;
    var text := (if neg then "-" else "") + whole;
    NotSpace('-');
    assert text[|text| - 1] == whole[|whole| - 1];
    assert TrimSpace(text) == text;
    assert neg ==> text[1..] == whole;
    assert !neg ==> text == whole;
    NoPointIn(whole);
    assert whole[..|whole|] == whole;
    assert TwoDigits("0") == "00";
  }

  lemma {:induction false} NoPointIn(s: string)
    requires '.' !in s
    ensures Point(s) == |s|
  {
    if s != "" {
      assert s[0] in s;
      NoPointIn(s[1..]);
    }
  }

  lemma NotSpace(c: char)
    requires c == '-' || c == '.' || IsDigit(c)
    ensures !IsSpace(c)
  {
  }

  lemma WrapNegates(y: int)
    ensures Neg(Wrap(y)) == Neg(y)
  {
    var m := 0x1_0000_0000_0000_0000;
    var q := (y - MIN) / m;
    assert Wrap(y) == y - q * m;
    WrapPeriod(-y, q);
  }

  lemma NegTwice(x: int64)
    ensures Neg(Neg(x)) == x
  {
  }

  lemma WrapPeriod(x: int, q: int)
    ensures Wrap(x + q * 0x1_0000_0000_0000_0000) == Wrap(x)
  {
  }

  lemma WrapExactlyInside(x: int)
    ensures Wrap(x) == x <==> MIN <= x <= MAX
  {
  }

  predicate IsAmount(s: string) {
    var i := Point(s);
    var sign := if s != "" && s[0] == '-' then 1 else 0;
    sign < i && i + 3 == |s| && AllDigits(s[sign..i]) && AllDigits(s[i + 1..])
  }

  /** The hundredths a fraction of any length stands for: further digits are cut off. */
  function Hundredths(frac: string): nat
    requires AllDigits(frac)
  {
    if frac == "" then 0 else if |frac| == 1 then 10 * Value(frac) else Value(frac[..2])
  }

  /**
   An amount, with any number of fraction digits or without a point, is read as its exact
   number of minor units if and only if that number fits in 64 bits; beyond that the text
   is refused or the number wraps.
   */
  lemma AmountIsReadExactlyWhen(neg: bool, whole: string, frac: Option<string>)
    requires whole != "" && AllDigits(whole) && (frac.Some? ==> AllDigits(frac.value))
    ensures
      var text := if frac.Some? then Amount(neg, whole, frac.value) else (if neg then "-" else "") + whole;
      var y := Value(whole) * 100 + if frac.Some? then Hundredths(frac.value) else 0;
      var exact := if neg then 0 - y else y;
      DecimalToMinor(text) == Some(exact) <==> MIN <= exact <= MAX
  {
    hide *;
    ParseDigits(whole);
    var f := if frac.Some? then frac.value else "";
    ParseHundredths(f);
    if frac.Some? {
      DigitText(whole);
      if f != "" { DigitText(f); }
      SplitAmount(neg, whole, f);
    } else {
      SplitWhole(neg, whole);
      NoHundredths();
    }
    JoinedExactlyWhen(neg, Value(whole), Hundredths(f));
  }

  lemma NoHundredths()
    ensures AllDigits("") && Hundredths("") == 0 && TwoDigits("") == "00"
  {
  }

  lemma ParseHundredths(frac: string)
    requires AllDigits(frac)
    ensures Hundredths(frac) < 100 && ParseInt(TwoDigits(frac)) == Some(Hundredths(frac))
  {
    var two := TwoDigits(frac);
    ParseTwoDigits(two);
    if frac == "" {
      assert two[..1] == "0" && two[..1][..0] == "";
    } else if |frac| == 1 {
      assert two[..1] == frac;
    }
  }

  lemma JoinedExactlyWhen(neg: bool, w: nat, f: nat)
    requires f < 100
    ensures
      var exact := if neg then 0 - (w * 100 + f) else w * 100 + f;
      Joined(neg, if w <= MAX then Some(w) else None, Some(f)) == Some(exact)
      <==> MIN <= exact <= MAX
  {
    hide Wrap, Neg;
    SumIsReadExactlyWhen(w, f);
  }

  lemma SumIsReadExactlyWhen(w: nat, f: nat)
    requires f < 100
    ensures w > MAX ==> w * 100 + f > MAX && -(w * 100 + f) < MIN
    ensures Wrap(w * 100 + f) == w * 100 + f <==> w * 100 + f <= MAX
    ensures Neg(Wrap(w * 100 + f)) == -(w * 100 + f) <==> -(w * 100 + f) >= MIN
  {
    hide Wrap;
    WrapNegates(w * 100 + f);
    WrapExactlyInside(w * 100 + f);
    WrapExactlyInside(-(w * 100 + f));
  }

  lemma ParseDigits(s: string)
    requires s != "" && AllDigits(s)
    ensures ParseInt(s) == if Value(s) <= MAX then Some(Value(s)) else None
  {
    hide Value;
    assert IsDigit(s[0]);
  }

  lemma ParseTwoDigits(frac: string)
    requires |frac| == 2 && AllDigits(frac)
    ensures Value(frac) < 100 && ParseInt(frac) == Some(Value(frac))
  {
    ParseDigits(frac);
    assert Value(frac[..1]) == 10 * Value(frac[..1][..0]) + (frac[0] - '0') as nat;
  }


  lemma WholeText(q: int)
    ensures FormatInt(q) != "" && '.' !in FormatInt(q) && !IsSpace(FormatInt(q)[0])
    ensures if q < 0 then FormatInt(q)[0] == '-' else AllDigits(FormatInt(q))
  {
    var n: nat := if q < 0 then -q else q;
    DigitsSpell(n);
    hide Digits, Value, IsSpace;
    NoPoint(Digits(n));
    NotSpace(FormatInt(q)[0]);
  }

  lemma CentsText(r: int)
    requires -10 < r < 100
    ensures |Pad2(r)| == 2 && !IsSpace(Pad2(r)[1])
    ensures if r < 0 then Pad2(r)[0] == '-' else AllDigits(Pad2(r))
  {
    hide IsSpace, Value;
    if r < 0 {
      assert Digits(-r) == [Digit(-r)];
    } else if r < 10 {
      assert Digits(r) == [Digit(r)];
    } else {
      assert Digits(r / 10) == [Digit(r / 10)];
    }
    NotSpace(Pad2(r)[1]);
  }

  /** What is printed: of the magnitude, except that the minimum has none. */
  lemma Magnitude(x: int64)
    ensures
      var m := if x < 0 then Neg(x) else x;
      MIN <= m <= MAX && Quo(m, 100) * 100 + Rem(m, 100) == m && MIN <= Quo(m, 100) <= MAX &&
      if x == MIN then m == MIN && Quo(m, 100) == -92233720368547758 && Rem(m, 100) == -8
      else m == (if x < 0 then -x else x) && Quo(m, 100) >= 0 && 0 <= Rem(m, 100) < 100
  {
  }

  /** decimalToMinor undoes minorToDecimal on every 64-bit integer. */
  lemma RoundTrip(x: int64)
    ensures DecimalToMinor(MinorToDecimal(x)) == Some(x)
  {
    hide IsSpace, Pad2, FormatInt, ParseInt, DecimalToMinor;
    var m := if x < 0 then Neg(x) else x;
    var q, r := Quo(m, 100), Rem(m, 100);
    assert MinorToDecimal(x) == Amount(x < 0, FormatInt(q), Pad2(r));
    Magnitude(x);
    hide *;
    WholeText(q);
    CentsText(r);
    ParseUndoesFormat(q);
    ParseUndoesPad(r);
    FirstDigit(x < 0, q);
    SplitAmount(x < 0, FormatInt(q), Pad2(r));
    assert TwoDigits(Pad2(r)) == Pad2(r) by { TwoAreTwo(Pad2(r)); }
    JoinedMagnitude(x, q, r);
  }

  lemma TwoAreTwo(frac: string)
    requires |frac| == 2
    ensures TwoDigits(frac) == frac
  {
  }

  lemma FirstDigit(neg: bool, q: int)
    requires !neg ==> q >= 0
    ensures !neg ==> FormatInt(q) != "" && FormatInt(q)[0] != '-'
  {
    DigitsSpell(if q < 0 then -q else q);
  }

  lemma JoinedMagnitude(x: int64, q: int64, r: int64)
    requires q * 100 + r == if x < 0 then Neg(x) else x
    ensures Joined(x < 0, Some(q), Some(r)) == Some(x)
  {
    WrapExactlyInside(q * 100 + r);
    NegTwice(x);
    hide Wrap, Neg;
  }

  /**
   The text is a sign, digits, a point and two digits for every amount but the minimum,
   whose magnitude wraps to itself.
   */
  lemma WellFormedExactlyWhen(x: int64)
    ensures IsAmount(MinorToDecimal(x)) <==> x != MIN
  {
    var m := if x < 0 then Neg(x) else x;
    var q, r := Quo(m, 100), Rem(m, 100);
    Magnitude(x);
    WholeText(q);
    CentsText(r);
    assert MinorToDecimal(x) == Amount(x < 0, FormatInt(q), Pad2(r));
    hide *;
    if x == MIN {
      DoubledSign(FormatInt(q), Pad2(r));
    } else {
      WellFormed(x < 0, FormatInt(q), Pad2(r));
    }
  }

  lemma WellFormed(neg: bool, whole: string, frac: string)
    requires whole != "" && AllDigits(whole) && |frac| == 2 && AllDigits(frac)
    ensures IsAmount(Amount(neg, whole, frac))
  {
    hide Value, Point;
    DigitText(whole);
    var sign := if neg then "-" else "";
    var text := Amount(neg, whole, frac);
    PointOf(sign + whole, frac);
    assert text[|sign|..|sign + whole|] == whole && text[|sign + whole| + 1..] == frac;
  }

  lemma DoubledSign(whole: string, frac: string)
    requires whole != "" && whole[0] == '-' && '.' !in whole
    ensures !IsAmount(Amount(true, whole, frac))
  {
    hide Value, Point;
    var text := Amount(true, whole, frac);
    PointOf("-" + whole, frac);
    assert text[1..1 + |whole|][0] == '-';
  }

  lemma {:induction false} PointOf(whole: string, frac: string)
    requires '.' !in whole
    ensures Point(whole + "." + frac) == |whole|
  {
    if whole != "" {
      assert whole[0] in whole;
      PointOf(whole[1..], frac);
      assert (whole + "." + frac)[1..] == whole[1..] + "." + frac;
    }
  }
}
