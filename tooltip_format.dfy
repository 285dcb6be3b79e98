/**
 * The tooltip's `formatValue`: `Number(value)`, then "N/A" for NaN, else
 * `toFixed(2)` with the decimal point replaced by a comma and a `%` added.
 * The number is an exact real; `toFixed` is ECMAScript's
 * Number.prototype.toFixed for values below 10^21.
 */
module TooltipFormat {
  import opened Wrappers
  import opened Decimal
  import opened Rounding

  /** A JavaScript number: NaN, an infinity, or a finite value. */
  datatype JsNumber = NaN | PosInfinity | NegInfinity | Finite(x: real)

  /** The payload values a tooltip entry can carry. */
  datatype TooltipValue = Undefined | Null | Bool(b: bool) | Num(n: JsNumber)

  /** `Number(value)`. */
  function ToNumber(value: TooltipValue): JsNumber {
    match value
    case Undefined => NaN
    case Null => Finite(0.0)
    case Bool(b) => Finite(if b then 1.0 else 0.0)
    case Num(n) => n
  }

  function Zeros(k: nat): (s: string)
    ensures |s| == k && forall i :: 0 <= i < k ==> s[i] == '0'
  {
    if k == 0 then "" else "0" + Zeros(k - 1)
  }

  /**
   * `x.toFixed(2)` for finite `x`: the sign, then the digits of the rounded
   * number of hundredths, left-padded with zeros to three digits, with a
   * point before the last two.
   */
  function ToFixed2(x: real): string {
    var padded := PadDigits(NatToDecimal(HalfUpHundredths(if x < 0.0 then -x else x)));
    Sign(x) + padded[..|padded| - 2] + "." + padded[|padded| - 2..]
  }

  /** Left-pads a string of digits with zeros to at least three characters. */
  function PadDigits(m: string): (r: string)
    ensures |r| >= 3 || |r| == |m|
  {
    if |m| <= 2 then Zeros(3 - |m|) + m else m
  }

  /** `s.replace(from, to)` with one-character strings: only the first occurrence is replaced. */
  function ReplaceFirst(s: string, from: char, to: char): string {
    if s == [] then []
    else if s[0] == from then [to] + s[1..]
    else [s[0]] + ReplaceFirst(s[1..], from, to)
  }

  function FormatValue(value: TooltipValue): string {
    match ToNumber(value)
    case NaN => "N/A"
    case PosInfinity => ReplaceFirst("Infinity", '.', ',') + "%"
    case NegInfinity => ReplaceFirst("-Infinity", '.', ',') + "%"
    case Finite(x) => ReplaceFirst(ToFixed2(x), '.', ',') + "%"
  }

  /** The two last digits of a number of hundredths. */
  function Cents(n: nat): string {
    [DigitChar(n / 10 % 10), DigitChar(n % 10)]
  }

  function Sign(x: real): string {
    if x < 0.0 then "-" else ""
  }

  /** `toFixed(2)` is the sign, the whole part, a point, and exactly two digits. */
  lemma ToFixed2Shape(x: real)
    ensures var n := HalfUpHundredths(if x < 0.0 then -x else x);
      ToFixed2(x) == Sign(x) + NatToDecimal(n / 100) + "." + Cents(n)
  {
    var n := HalfUpHundredths(if x < 0.0 then -x else x);
    PaddedDigits(n);
    SplitLastTwo(PadDigits(NatToDecimal(n)), NatToDecimal(n / 100), Cents(n));
  }

  lemma SplitLastTwo(padded: string, a: string, b: string)
    requires padded == a + b && |b| == 2
    ensures padded[..|padded| - 2] == a && padded[|padded| - 2..] == b
  {
  }

  /** The digits `toFixed` splits: those of n / 100, then the two last digits of n. */
  lemma PaddedDigits(n: nat)
    ensures PadDigits(NatToDecimal(n)) == NatToDecimal(n / 100) + Cents(n)
  {
    var m := NatToDecimal(n);
    if n < 10 {
      UnitsDigits(n);
      assert |m| == 1;
    } else if n < 100 {
      TensDigits(n);
      assert |m| == 2;
    } else {
      HundredsDigits(n);
      assert |m| > 2;
    }
  }

  lemma UnitsDigits(n: nat)
    requires n < 10
    ensures Zeros(2) + NatToDecimal(n) == NatToDecimal(n / 100) + Cents(n)
  {
    assert Zeros(2) == ['0', '0'];
    assert NatToDecimal(n / 100) == ['0'];
    assert Cents(n) == ['0', DigitChar(n)];
  }

  lemma TensDigits(n: nat)
    requires 10 <= n < 100
    ensures |NatToDecimal(n)| == 2
    ensures Zeros(1) + NatToDecimal(n) == NatToDecimal(n / 100) + Cents(n)
  {
    assert NatToDecimal(n) == NatToDecimal(n / 10) + [DigitChar(n % 10)];
    assert NatToDecimal(n / 10) == [DigitChar(n / 10 % 10)];
    assert NatToDecimal(n / 100) == ['0'];
  }

  lemma HundredsDigits(n: nat)
    requires n >= 100
    ensures |NatToDecimal(n)| > 2
    ensures NatToDecimal(n) == NatToDecimal(n / 100) + Cents(n)
  {
    assert NatToDecimal(n) == NatToDecimal(n / 10) + [DigitChar(n % 10)];
    assert NatToDecimal(n / 10) == NatToDecimal(n / 10 / 10) + [DigitChar(n / 10 % 10)];
    assert n / 10 / 10 == n / 100;
  }

  lemma {:induction false} ReplaceFirstAt(a: string, b: string, from: char, to: char)
    requires from !in a
    ensures ReplaceFirst(a + [from] + b, from, to) == a + [to] + b
  {
    if a != [] {
      assert (a + [from] + b)[1..] == a[1..] + [from] + b;
      ReplaceFirstAt(a[1..], b, from, to);
    }
  }

  lemma {:induction false} ReplaceFirstAbsent(s: string, from: char, to: char)
    requires from !in s
    ensures ReplaceFirst(s, from, to) == s
  {
    if s != [] {
      ReplaceFirstAbsent(s[1..], from, to);
    }
  }

  /** The printed text of `n` hundredths after the sign: whole part, a comma, two digits and `%`. */
  function UnsignedText(n: nat): string {
    NatToDecimal(n / 100) + "," + Cents(n) + "%"
  }

  /** A finite value prints as its sign, whole part, a comma, two digits and `%`. */
  lemma FormatFinite(x: real)
    ensures FormatValue(Num(Finite(x))) == Sign(x) + UnsignedText(HalfUpHundredths(if x < 0.0 then -x else x))
  {
    var n := HalfUpHundredths(if x < 0.0 then -x else x);
    var whole := Sign(x) + NatToDecimal(n / 100);
    ToFixed2Shape(x);
    NoPointInWhole(Sign(x), NatToDecimal(n / 100));
    ReplaceFirstAt(whole, Cents(n), '.', ',');
    Regroup(Sign(x), NatToDecimal(n / 100), Cents(n));
  }

  lemma NoPointInWhole(sign: string, digits: string)
    requires sign == "-" || sign == ""
    requires AllDigits(digits)
    ensures '.' !in sign + digits
  {
    var whole := sign + digits;
    assert forall i :: 0 <= i < |whole| ==> whole[i] == '-' || IsDigit(whole[i]);
  }

  lemma Regroup(sign: string, digits: string, cents: string)
    ensures sign + digits + [','] + cents + "%" == sign + (digits + "," + cents + "%")
  {
  }

  /** Reads the unsigned part back: digits, a comma, two digits and `%`. */
  function ParseUnsigned(t: string): Option<nat> {
    if |t| >= 5 && t[|t| - 1] == '%' && t[|t| - 4] == ',' && AllDigits(t[..|t| - 4])
       && IsDigit(t[|t| - 3]) && IsDigit(t[|t| - 2])
    then Some(DecimalToNat(t[..|t| - 4]) * 100 + DigitValue(t[|t| - 3]) * 10 + DigitValue(t[|t| - 2]))
    else None
  }

  /** Reads the hundredths back from a formatted finite value; `None` for any other text. */
  function ParseFormatted(s: string): Option<int> {
    if |s| >= 1 && s[0] == '-' then
      match ParseUnsigned(s[1..])
      case Some(h) => Some(-(h as int))
      case None => None
    else
      match ParseUnsigned(s)
      case Some(h) => Some(h as int)
      case None => None
  }

  /** "N/A" exactly for the values `Number` turns into NaN. */
  lemma FormatNotANumber(value: TooltipValue)
    ensures FormatValue(value) == "N/A" <==> ToNumber(value) == NaN
  {
    match ToNumber(value)
    case PosInfinity => ReplaceFirstAbsent("Infinity", '.', ',');
    case NegInfinity => ReplaceFirstAbsent("-Infinity", '.', ',');
    case Finite(x) => FormatFinite(x);
    case NaN =>
  }

  /**
   * A finite value prints as text that ends in `%`, holds no `.`, and has
   * a single comma followed by exactly two digits.
   */
  lemma FormatFiniteShape(x: real)
    ensures var s := FormatValue(Num(Finite(x)));
      |s| >= 5 && s[|s| - 1] == '%' && s[|s| - 4] == ',' && IsDigit(s[|s| - 3]) && IsDigit(s[|s| - 2]) &&
      '.' !in s && forall i :: 0 <= i < |s| - 4 ==> s[i] != ','
  {
    var n := HalfUpHundredths(if x < 0.0 then -x else x);
    FormatFinite(x);
    TextShape(Sign(x), NatToDecimal(n / 100), Cents(n));
    assert FormatValue(Num(Finite(x))) == Sign(x) + (NatToDecimal(n / 100) + "," + Cents(n) + "%");
  }

  /** The shape of a sign, digits, a comma, two digits and `%`. */
  lemma TextShape(sign: string, digits: string, cents: string)
    requires sign == "-" || sign == ""
    requires |digits| >= 1 && AllDigits(digits) && |cents| == 2 && AllDigits(cents)
    ensures var s := sign + (digits + "," + cents + "%");
      |s| >= 5 && s[|s| - 1] == '%' && s[|s| - 4] == ',' && IsDigit(s[|s| - 3]) && IsDigit(s[|s| - 2]) &&
      '.' !in s && forall i :: 0 <= i < |s| - 4 ==> s[i] != ','
  {
    var s := sign + (digits + "," + cents + "%");
    assert forall i :: 0 <= i < |s| ==> s[i] == '-' || IsDigit(s[i]) || s[i] == ',' || s[i] == '%';
    assert forall i :: 0 <= i < |s| - 4 ==> s[i] == '-' || IsDigit(s[i]);
  }

  lemma DigitCharValue(d: nat)
    requires d < 10
    ensures DigitValue(DigitChar(d)) == d
  {
  }

  /** The unsigned parser on digits, a comma, two digits and `%`. */
  lemma ParseUnsignedParts(digits: string, c1: nat, c2: nat)
    requires |digits| >= 1 && AllDigits(digits) && c1 < 10 && c2 < 10
    ensures ParseUnsigned(digits + [',', DigitChar(c1), DigitChar(c2), '%']) == Some(DecimalToNat(digits) * 100 + c1 * 10 + c2)
  {
    var t := digits + [',', DigitChar(c1), DigitChar(c2), '%'];
    assert t[..|t| - 4] == digits;
    DigitCharValue(c1);
    DigitCharValue(c2);
  }

  lemma ParseNegativeText(t: string)
    requires ParseUnsigned(t).Some?
    ensures ParseFormatted("-" + t) == Some(-(ParseUnsigned(t).value as int))
  {
    assert ("-" + t)[1..] == t;
  }

  lemma ParseNonNegativeText(t: string)
    requires ParseUnsigned(t).Some? && t[0] != '-'
    ensures ParseFormatted(t) == Some(ParseUnsigned(t).value as int)
  {
  }

  /** The unsigned part of the printed text reads back as the number of hundredths. */
  lemma UnsignedRoundTrip(n: nat)
    ensures ParseUnsigned(UnsignedText(n)) == Some(n)
  {
    var digits := NatToDecimal(n / 100);
    assert digits + "," + Cents(n) + "%" == digits + [',', DigitChar(n / 10 % 10), DigitChar(n % 10), '%'];
    ParseUnsignedParts(digits, n / 10 % 10, n % 10);
    DecimalRoundTrip(n / 100);
    HundredsSplit(n);
  }

  lemma HundredsSplit(n: nat)
    ensures (n / 100) * 100 + (n / 10 % 10) * 10 + n % 10 == n
  {
    var q := n / 10;
    assert n == q * 10 + n % 10;
    assert q == (q / 10) * 10 + q % 10;
    assert q / 10 == n / 100;
  }

  /** Parsing the printed text gives back the rounded number of hundredths. */
  lemma FormatRoundTrip(x: real)
    ensures ParseFormatted(FormatValue(Num(Finite(x)))) == Some(RoundHundredths(x))
  {
    FormatFinite(x);
    var n := HalfUpHundredths(if x < 0.0 then -x else x);
    var t := UnsignedText(n);
    UnsignedRoundTrip(n);
    if x < 0.0 {
      ParseNegativeText(t);
      assert RoundHundredths(x) == -(n as int);
    } else {
      assert Sign(x) + t == t;
      assert IsDigit(t[0]);
      ParseNonNegativeText(t);
      assert RoundHundredths(x) == n;
    }
  }

  /** A value given in hundredths is printed so that it reads back unchanged. */
  lemma FormatHundredthsRoundTrip(h: int)
    ensures ParseFormatted(FormatValue(Num(Finite(h as real / 100.0)))) == Some(h)
  {
    var x := h as real / 100.0;
    FormatRoundTrip(x);
    HundredthsRound(h);
    assert RoundHundredths(x) == h;
  }

  lemma HundredthsRound(h: int)
    ensures RoundHundredths(h as real / 100.0) == h
  {
    var x := h as real / 100.0;
    assert x * 100.0 == h as real;
    Round2Fixes(x);
    assert RoundHundredths(x) as real / 100.0 == x;
  }

  /** Distinct numbers of hundredths print differently. */
  lemma FormatHundredthsInjective(a: int, b: int)
    ensures FormatValue(Num(Finite(a as real / 100.0))) == FormatValue(Num(Finite(b as real / 100.0))) ==> a == b
  {
    FormatHundredthsRoundTrip(a);
    FormatHundredthsRoundTrip(b);
  }
}
