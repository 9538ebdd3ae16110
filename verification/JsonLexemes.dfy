/** The texts of numbers and strings, spelled out character by character, and what the reader makes of each of them. */
module JsonLexemes {
  import opened Codec
  import opened JsonText
  import opened JsonGrammar
  import opened Wrappers

  // ---- Texts inside texts.

  predicate At(t: Text, p: nat, x: bytes) {
    p + |x| <= |t| && t[p..p + |x|] == x
  }

  lemma AtSplit(t: Text, p: nat, x: bytes, y: bytes)
    requires At(t, p, x + y)
    ensures At(t, p, x) && At(t, p + |x|, y) && p + |x| + |y| <= |t|
  {
    assert x == (x + y)[..|x|];
    assert y == (x + y)[|x|..];
  }

  lemma AtFirst(t: Text, p: nat, x: bytes)
    requires At(t, p, x) && x != []
    ensures p < |t| && t[p] == x[0]
  {
    assert t[p] == t[p..p + |x|][0];
  }

  lemma AtText(t: Text, p: nat, x: bytes)
    requires At(t, p, x)
    ensures p + |x| <= |t| && t[p..p + |x|] == x
  {}

  lemma AtSlice(t: Text, p: nat, q: nat)
    requires p <= q <= |t|
    ensures At(t, p, t[p..q])
  {}

  lemma AtChar(t: Text, p: nat)
    requires p < |t|
    ensures At(t, p, [t[p]])
  {}

  lemma AtNothing(t: Text, p: nat)
    requires p <= |t|
    ensures At(t, p, [])
  {}

  lemma AtJoined(t: Text, p: nat, x: bytes, y: bytes)
    requires At(t, p, x) && At(t, p + |x|, y)
    ensures At(t, p, x + y)
  {
    assert t[p..p + |x| + |y|] == t[p..p + |x|] + t[p + |x|..p + |x| + |y|];
  }

  // ---- Digits.

  predicate Decimal(x: bytes) {
    forall i | 0 <= i < |x| :: '0' as int <= x[i] <= '9' as int
  }

  /** The number that digits add to n when they are written behind it. */
  function ValueFrom(n: nat, x: bytes): (v: nat)
    requires Decimal(x)
    decreases |x|
  {
    if x == [] then n else ValueFrom(10 * n + (x[0] - '0' as int), x[1..])
  }

  function DecimalValue(x: bytes): nat
    requires Decimal(x)
  {
    ValueFrom(0, x)
  }

  lemma {:induction false} ValueGrows(n: nat, x: bytes)
    requires Decimal(x)
    ensures ValueFrom(n, x) >= n && (x != [] ==> ValueFrom(n, x) >= 10 * n)
    decreases |x|
  {
    if x != [] {
      ValueGrows(10 * n + (x[0] - '0' as int), x[1..]);
    }
  }

  /** Digits are taken as long as their value stays in the bound; otherwise the reader stops before another digit. */
  lemma {:induction false} DigitsRead(t: Text, p: nat, n: nat, x: bytes)
    requires n <= THRESHOLD && Decimal(x) && At(t, p, x) && p + |x| < |t| && !Digit(t[p + |x|])
    ensures var (m, q) := ScanDigits(t, p, n);
            && p <= q <= p + |x|
            && if ValueFrom(n, x) <= MAX_READ then m == ValueFrom(n, x) && q == p + |x| else Digit(t[q])
    decreases |x|
  {
    if x != [] {
      AtFirst(t, p, x);
      AtSplit(t, p, [x[0]], x[1..]) by { assert x == [x[0]] + x[1..]; }
      var m := 10 * n + (x[0] - '0' as int);
      if m <= THRESHOLD {
        DigitsRead(t, p + 1, m, x[1..]);
      } else if x[1..] != [] {
        ValueGrows(m, x[1..]);
        AtFirst(t, p + 1, x[1..]);
      }
    }
  }

  lemma {:induction false} DigitsEnd(t: Text, p: nat, x: bytes, q: nat)
    requires Decimal(x) && At(t, p, x) && p <= q <= p + |x| < |t| && !Digit(t[p + |x|])
    ensures EndOfDigits(t, q) == p + |x|
    decreases p + |x| - q
  {
    if q < p + |x| {
      assert t[q] == t[p..p + |x|][q - p];
      DigitsEnd(t, p, x, q + 1);
    }
  }

  /** The exponent is refused when its digits but the last one already exceed this bound. */
  predicate ExponentFits(x: bytes)
    requires Decimal(x)
  {
    x == [] || DecimalValue(x[..|x| - 1]) <= 214748363
  }

  lemma {:induction false} ValueOfMore(n: nat, x: bytes, y: bytes)
    requires Decimal(x) && Decimal(y)
    ensures Decimal(x + y) && ValueFrom(n, x + y) == ValueFrom(ValueFrom(n, x), y)
    decreases |x|
  {
    if x == [] {
      assert x + y == y;
    } else {
      assert (x + y)[1..] == x[1..] + y;
      ValueOfMore(10 * n + (x[0] - '0' as int), x[1..], y);
    }
  }

  lemma {:induction false} ExponentRead(t: Text, p: nat, e: nat, x: bytes)
    requires Decimal(x) && At(t, p, x) && p + |x| < |t| && !Digit(t[p + |x|])
    ensures var fits := x == [] || ValueFrom(e, x[..|x| - 1]) <= 214748363;
            && (fits ==> ScanExponent(t, p, e) == Ok(ValueFrom(e, x), p + |x|))
            && (!fits ==> ScanExponent(t, p, e).Err? && ScanExponent(t, p, e).error == NumericFailure)
    decreases |x|
  {
    if x != [] {
      AtFirst(t, p, x);
      AtSplit(t, p, [x[0]], x[1..]) by { assert x == [x[0]] + x[1..]; }
      var d, rest := x[0] - '0' as int, x[1..];
      ExponentRead(t, p + 1, 10 * e + d, rest);
      ValueGrows(e, x[..|x| - 1]);
      if rest != [] {
        assert x[..|x| - 1][1..] == rest[..|rest| - 1];
      }
    }
  }

  // ---- Numbers.

  /** The part of a number after its mark 'e' or 'E': a sign, which may be absent, and digits. */
  datatype Exponent = Exponent(mark: byte, sign: bytes, digits: bytes)

  /** A number in writing: a minus, digits, a point with digits, an exponent; of each there may be none. */
  datatype Numeral = Numeral(minus: bool, whole: bytes, fraction: Option<bytes>, exponent: Option<Exponent>)

  /** A character that continues no number. */
  predicate EndsNumber(c: byte) {
    !NumberChar(c) && c != '+' as int && c != '-' as int
  }

  predicate WellExponent(e: Exponent) {
    && (e.mark == 'e' as int || e.mark == 'E' as int)
    && (e.sign == [] || e.sign == ['+' as int] || e.sign == ['-' as int])
    && Decimal(e.digits)
  }

  predicate WellNumeral(x: Numeral) {
    && Decimal(x.whole)
    && (x.fraction.Some? ==> Decimal(x.fraction.value))
    && (x.exponent.Some? ==> WellExponent(x.exponent.value))
    && (x.minus || x.whole != [] || x.fraction.Some?)
  }

  /** A character that does not continue a number: a sign continues it only behind a bare mark. */
  predicate Ends(x: Numeral, c: byte) {
    && !NumberChar(c)
    && (x.exponent.Some? && x.exponent.value.sign == [] && x.exponent.value.digits == [] ==> EndsNumber(c))
  }

  function FractionText(f: Option<bytes>): bytes {
    if f.Some? then ['.' as int] + f.value else []
  }

  function ExponentText(e: Option<Exponent>): bytes {
    if e.Some? then [e.value.mark] + (e.value.sign + e.value.digits) else []
  }

  function NumeralText(x: Numeral): bytes {
    (if x.minus then ['-' as int] else []) + (x.whole + (FractionText(x.fraction) + ExponentText(x.exponent)))
  }

  /** A number without point and exponent is an integer when its digits stay in the bound of the reader. */
  predicate IsInteger(x: Numeral)
    requires WellNumeral(x)
  {
    x.fraction == None && x.exponent == None && DecimalValue(x.whole) <= 9223372036854775799
  }

  /** The power of ten that the digits of a number, read without the point, are to be multiplied with. */
  function Scale(x: Numeral): int
    requires WellNumeral(x)
  {
    (if x.exponent.None? then 0
     else if x.exponent.value.sign == ['-' as int] then 0 - DecimalValue(x.exponent.value.digits)
     else DecimalValue(x.exponent.value.digits))
    - (if x.fraction.Some? then |x.fraction.value| else 0)
  }

  predicate ScaleFits(x: Numeral)
    requires WellNumeral(x)
  {
    && (x.exponent.Some? ==> ExponentFits(x.exponent.value.digits))
    && -2147483648 <= Scale(x) <= 2147483647
  }

  lemma ExponentJoined(e: Exponent, end: byte)
    ensures ExponentText(Some(e)) + [end] == [e.mark] + (e.sign + (e.digits + [end]))
  {}

  lemma SignFirst(e: Exponent, end: byte)
    requires WellExponent(e) && !Digit(end) && (e.sign == [] && e.digits == [] ==> EndsNumber(end))
    ensures var c := (e.sign + (e.digits + [end]))[0];
            (c == '-' as int <==> e.sign == ['-' as int]) && (c == '+' as int <==> e.sign == ['+' as int])
  {}

  /** Where the sign of an exponent is, and where its digits are. */
  lemma ExponentParts(t: Text, p: nat, e: Exponent, end: byte)
    requires WellExponent(e) && At(t, p, ExponentText(Some(e)) + [end]) && !Digit(end)
    requires e.sign == [] && e.digits == [] ==> EndsNumber(end)
    ensures p + 1 < |t| && (t[p] == 'E' as int || t[p] == 'e' as int)
    ensures t[p + 1] == '-' as int <==> e.sign == ['-' as int]
    ensures t[p + 1] == '+' as int <==> e.sign == ['+' as int]
    ensures At(t, p + 1 + |e.sign|, e.digits)
    ensures p + 1 + |e.sign| + |e.digits| < |t| && t[p + 1 + |e.sign| + |e.digits|] == end
  {
    hide At, ExponentText, Decimal;
    var rest := e.digits + [end];
    ExponentJoined(e, end);
    AtSplit(t, p, [e.mark], e.sign + rest);
    AtFirst(t, p, [e.mark]);
    AtFirst(t, p + 1, e.sign + rest);
    SignFirst(e, end);
    AtSplit(t, p + 1, e.sign, rest);
    AtSplit(t, p + 1 + |e.sign|, e.digits, [end]);
    AtFirst(t, p + 1 + |e.sign| + |e.digits|, [end]);
  }

  lemma ExponentLength(e: Option<Exponent>)
    ensures |ExponentText(e)| == if e.Some? then 1 + |e.value.sign| + |e.value.digits| else 0
  {}

  lemma NoExponentScanned(t: Text, p: nat, fraction: nat)
    requires p < |t| && !NumberChar(t[p])
    ensures ScanScale(t, p, fraction) == if fraction <= 2147483648 then Ok((), p) else Err(NumericFailure, p)
  {}

  lemma ScaleScanned(t: Text, p: nat, fraction: nat, q: nat, negative: bool)
    requires p + 1 < |t| && (t[p] == 'E' as int || t[p] == 'e' as int) && (negative <==> t[p + 1] == '-' as int)
    requires q == (if t[p + 1] == '-' as int || t[p + 1] == '+' as int then p + 2 else p + 1) < |t|
    ensures var o, e := ScanScale(t, p, fraction), ScanExponent(t, q, 0);
            && (e.Err? ==> o == Err(e.error, e.pos))
            && (e.Ok? ==>
                  var scale := (if negative then 0 - e.value else e.value) - fraction;
                  o == if -2147483648 <= scale <= 2147483647 then Ok((), e.pos) else Err(NumericFailure, e.pos))
  {
    hide ScanExponent;
  }

  lemma ScaleRead(t: Text, p: nat, x: Numeral)
    requires WellNumeral(x) && At(t, p, ExponentText(x.exponent)) && p + |ExponentText(x.exponent)| < |t|
    requires Ends(x, t[p + |ExponentText(x.exponent)|])
    ensures var o := ScanScale(t, p, if x.fraction.Some? then |x.fraction.value| else 0);
            if ScaleFits(x) then o == Ok((), p + |ExponentText(x.exponent)|) else o.Err? && o.error == NumericFailure
  {
    hide At, ScanExponent, ScanScale, ValueFrom, ExponentText, Decimal;
    var fraction := if x.fraction.Some? then |x.fraction.value| else 0;
    ExponentLength(x.exponent);
    if x.exponent.None? {
      NoExponentScanned(t, p, fraction);
    } else {
      var e, end := x.exponent.value, p + |ExponentText(x.exponent)|;
      AtChar(t, end);
      AtJoined(t, p, ExponentText(x.exponent), [t[end]]);
      ExponentParts(t, p, e, t[end]);
      ExponentRead(t, p + 1 + |e.sign|, 0, e.digits);
      ScaleScanned(t, p, fraction, p + 1 + |e.sign|, e.sign == ['-' as int]);
    }
  }

  lemma FractionRead(t: Text, p: nat, x: Numeral)
    requires WellNumeral(x) && At(t, p, FractionText(x.fraction) + ExponentText(x.exponent))
    requires p + |FractionText(x.fraction) + ExponentText(x.exponent)| < |t|
    requires Ends(x, t[p + |FractionText(x.fraction) + ExponentText(x.exponent)|])
    ensures At(t, p + |FractionText(x.fraction)|, ExponentText(x.exponent))
    ensures p < |t| && !Digit(t[p]) && (t[p] == DOT <==> x.fraction.Some?)
    ensures x.fraction.Some? ==> p + 1 < |t| && EndOfDigits(t, p + 1) == p + |FractionText(x.fraction)|
    ensures NumberChar(t[p]) <==> x.fraction.Some? || x.exponent.Some?
  {
    hide At;
    AtSplit(t, p, FractionText(x.fraction), ExponentText(x.exponent));
    var q := p + |FractionText(x.fraction)|;
    if x.exponent.Some? {
      AtSplit(t, q, [x.exponent.value.mark], x.exponent.value.sign + x.exponent.value.digits);
      AtFirst(t, q, [x.exponent.value.mark]);
    }
    assert q < |t| && !Digit(t[q]) && t[q] != DOT;
    if x.fraction.Some? {
      AtSplit(t, p, ['.' as int], x.fraction.value);
      AtFirst(t, p, ['.' as int]);
      DigitsEnd(t, p + 1, x.fraction.value, p + 1);
    }
  }

  /** Where the digits of a number end and where its exponent starts. */
  function AfterWhole(p: nat, x: Numeral): nat {
    p + (if x.minus then 1 else 0) + |x.whole|
  }

  function AfterFraction(p: nat, x: Numeral): nat {
    AfterWhole(p, x) + |FractionText(x.fraction)|
  }

  lemma NumeralParts(t: Text, p: nat, x: Numeral)
    requires WellNumeral(x) && At(t, p, NumeralText(x)) && p + |NumeralText(x)| < |t|
    requires Ends(x, t[p + |NumeralText(x)|])
    ensures At(t, if x.minus then p + 1 else p, x.whole)
    ensures At(t, AfterWhole(p, x), FractionText(x.fraction) + ExponentText(x.exponent))
    ensures AfterWhole(p, x) + |FractionText(x.fraction) + ExponentText(x.exponent)| == p + |NumeralText(x)|
    ensures AfterFraction(p, x) + |ExponentText(x.exponent)| == p + |NumeralText(x)|
  {
    hide At, FractionText, ExponentText;
    var sign: bytes := if x.minus then ['-' as int] else [];
    AtSplit(t, p, sign, x.whole + (FractionText(x.fraction) + ExponentText(x.exponent)));
    AtSplit(t, p + |sign|, x.whole, FractionText(x.fraction) + ExponentText(x.exponent));
  }

  /** Every number in writing that no further character of a number follows: it is read as the integer its digits stand
      for when it is one, and otherwise as a number known by its text, unless its scale does not fit. */
  lemma NumeralRead(t: Text, p: nat, x: Numeral)
    requires WellNumeral(x) && At(t, p, NumeralText(x)) && p + |NumeralText(x)| < |t|
    requires Ends(x, t[p + |NumeralText(x)|])
    ensures p < |t| && (Digit(t[p]) || t[p] == MINUS || t[p] == DOT)
    ensures var o := ScanNumber(t, p);
            if IsInteger(x) then
              o == Ok(Whole(if x.minus then 0 - DecimalValue(x.whole) else DecimalValue(x.whole)), p + |NumeralText(x)|)
            else if ScaleFits(x) then o == Ok(Real(NumeralText(x)), p + |NumeralText(x)|)
            else o.Err? && o.error == NumericFailure
  {
    hide At, ScanDigits, EndOfDigits, ScanScale, ScanNumber, NumberChar;
    hide ValueFrom, FractionText, ExponentText, NumeralText, ScaleFits;
    NumeralStarts(t, p, x);
    NumeralParts(t, p, x);
    var q: nat := if x.minus then p + 1 else p;
    var r := AfterWhole(p, x);
    FractionRead(t, r, x);
    DigitsRead(t, q, 0, x.whole);
    var (m, s) := ScanDigits(t, q, 0);
    if IsInteger(x) {
      NoMore(x);
      WholeScanned(t, p, m, s);
    } else {
      MoreFollows(t, x, r, s);
      DigitsEnd(t, q, x.whole, s);
      FractionLength(x);
      ScaleRead(t, AfterFraction(p, x), x);
      AtText(t, p, NumeralText(x));
      RealScanned(t, p, s, r, AfterFraction(p, x), if x.fraction.Some? then |x.fraction.value| else 0);
    }
  }

  lemma MoreFollows(t: Text, x: Numeral, r: nat, s: nat)
    requires WellNumeral(x) && !IsInteger(x) && r < |t| && s < |t|
    requires NumberChar(t[r]) <==> x.fraction.Some? || x.exponent.Some?
    requires if DecimalValue(x.whole) <= MAX_READ then s == r else Digit(t[s])
    ensures NumberChar(t[s])
  {
    hide ValueFrom;
  }

  lemma FractionLength(x: Numeral)
    ensures |FractionText(x.fraction)| == if x.fraction.Some? then 1 + |x.fraction.value| else 0
  {}

  lemma NoMore(x: Numeral)
    requires x.fraction == None && x.exponent == None
    ensures FractionText(x.fraction) == [] && ExponentText(x.exponent) == []
  {}

  lemma WholeScanned(t: Text, p: nat, m: nat, s: nat)
    requires p < |t| && (Digit(t[p]) || t[p] == MINUS || t[p] == DOT) && m <= MAX_READ
    requires (m, s) == ScanDigits(t, if t[p] == MINUS then p + 1 else p, 0) && !NumberChar(t[s])
    ensures ScanNumber(t, p) == Ok(Whole(if t[p] == MINUS then 0 - m else m), s)
  {
    hide ScanDigits;
  }

  lemma RealScanned(t: Text, p: nat, s: nat, r: nat, e: nat, fraction: nat)
    requires p < |t| && (Digit(t[p]) || t[p] == MINUS || t[p] == DOT)
    requires s == ScanDigits(t, if t[p] == MINUS then p + 1 else p, 0).1 && NumberChar(t[s]) && EndOfDigits(t, s) == r
    requires r <= e < |t|
    requires if t[r] == DOT then e == EndOfDigits(t, r + 1) && fraction == e - r - 1 else e == r && fraction == 0
    ensures var o := ScanScale(t, e, fraction);
            match o
            case Ok(_, end) => ScanNumber(t, p) == Ok(Real(t[p..end]), end)
            case Err(x, end) => ScanNumber(t, p) == Err(x, end)
            case Overrun => true
  {
    hide ScanDigits, EndOfDigits, ScanScale;
  }

  lemma NumeralStarts(t: Text, p: nat, x: Numeral)
    requires WellNumeral(x) && At(t, p, NumeralText(x))
    ensures p < |t| && (Digit(t[p]) || t[p] == MINUS || t[p] == DOT) && (t[p] == MINUS <==> x.minus)
  {
    assert NumeralText(x) != [];
    AtFirst(t, p, NumeralText(x));
  }

  lemma {:induction false} DigitsTaken(t: Text, p: nat, n: nat)
    requires p < |t| && n <= THRESHOLD
    ensures var (m, q) := ScanDigits(t, p, n);
            Decimal(t[p..q]) && m == ValueFrom(n, t[p..q])
    decreases |t| - p
  {
    if Digit(t[p]) {
      var m := 10 * n + (t[p] - 0x30);
      if m <= THRESHOLD {
        DigitsTaken(t, p + 1, m);
      } else {
        assert t[p + 1..p + 1] == [];
      }
      var q := ScanDigits(t, p, n).1;
      assert t[p..q] == [t[p]] + t[p + 1..q];
    }
  }

  lemma {:induction false} DigitsRun(t: Text, p: nat)
    requires p < |t|
    ensures Decimal(t[p..EndOfDigits(t, p)])
    decreases |t| - p
  {
    if Digit(t[p]) {
      DigitsRun(t, p + 1);
      assert t[p..EndOfDigits(t, p)] == [t[p]] + t[p + 1..EndOfDigits(t, p)];
    }
  }

  lemma {:induction false} ExponentRun(t: Text, p: nat, e: nat)
    requires p < |t| && ScanExponent(t, p, e).Ok?
    ensures Decimal(t[p..ScanExponent(t, p, e).pos])
    decreases |t| - p
  {
    if Digit(t[p]) {
      var q := ScanExponent(t, p, e).pos;
      ExponentRun(t, p + 1, 10 * e + (t[p] - 0x30));
      SliceHead(t, p, q);
    }
  }

  lemma SliceHead(t: Text, p: nat, q: nat)
    requires p < q <= |t|
    ensures t[p..q] == [t[p]] + t[p + 1..q] && t[p..q][1..] == t[p + 1..q]
  {}

  lemma SignTaken(t: Text, p: nat, q: nat)
    requires p < |t| && q == if t[p] == '-' as int || t[p] == '+' as int then p + 1 else p
    ensures t[p..q] == [] || t[p..q] == ['+' as int] || t[p..q] == ['-' as int]
  {}

  /** The exponent that was read, if there is one. */
  lemma ExponentOnly(t: Text, p: nat, fraction: nat) returns (e: Option<Exponent>)
    requires p < |t| && ScanScale(t, p, fraction).Ok?
    ensures e.Some? ==> WellExponent(e.value)
    ensures At(t, p, ExponentText(e)) && p + |ExponentText(e)| == ScanScale(t, p, fraction).pos
  {
    hide ScanExponent, At;
    if t[p] == 0x45 || t[p] == 0x65 {
      var q := if t[p + 1] == '-' as int || t[p + 1] == '+' as int then p + 2 else p + 1;
      var r := ScanScale(t, p, fraction).pos;
      ExponentRun(t, q, 0);
      e := Some(Exponent(t[p], t[p + 1..q], t[q..r]));
      AtChar(t, p);
      AtSlice(t, p + 1, q);
      AtSlice(t, q, r);
      AtJoined(t, p + 1, t[p + 1..q], t[q..r]);
      AtJoined(t, p, [t[p]], t[p + 1..q] + t[q..r]);
      SignTaken(t, p + 1, q);
    } else {
      e := None;
      AtNothing(t, p);
    }
  }

  lemma Digits(t: Text, q: nat, s: nat) returns (r: nat)
    requires q < |t| && s == ScanDigits(t, q, 0).1
    ensures r == EndOfDigits(t, s) && q <= s <= r < |t| && Decimal(t[q..r])
    ensures Digit(t[q]) ==> r > q
  {
    hide ValueFrom;
    DigitsTaken(t, q, 0);
    r := EndOfDigits(t, s);
    DigitsRun(t, s);
    assert t[q..r] == t[q..s] + t[s..r];
  }

  /** The fraction that was read, if there is one. */
  lemma FractionOnly(t: Text, r: nat) returns (f: Option<bytes>)
    requires r < |t|
    ensures f.Some? ==> Decimal(f.value)
    ensures f.Some? <==> t[r] == DOT
    ensures At(t, r, FractionText(f))
    ensures r + |FractionText(f)| == if t[r] == DOT then EndOfDigits(t, r + 1) else r
  {
    if t[r] == DOT {
      var e := EndOfDigits(t, r + 1);
      DigitsRun(t, r + 1);
      f := Some(t[r + 1..e]);
      assert t[r..e] == [t[r]] + t[r + 1..e];
    } else {
      f := None;
    }
  }

  /** The steps of the reader, with the end of the fraction named. */
  lemma NumberSteps(t: Text, p: nat, q: nat, s: nat, r: nat, e: nat)
    requires p < |t| && (Digit(t[p]) || t[p] == MINUS || t[p] == DOT) && ScanNumber(t, p).Ok?
    requires q == (if t[p] == MINUS then p + 1 else p) < |t| && s == ScanDigits(t, q, 0).1 && r == EndOfDigits(t, s)
    requires e == if t[r] == DOT then EndOfDigits(t, r + 1) else r
    ensures !NumberChar(t[s]) ==> ScanNumber(t, p).pos == s == r == e
    ensures NumberChar(t[s]) ==>
              var n: nat := if t[r] == DOT then e - r - 1 else 0;
              ScanScale(t, e, n).Ok? && ScanScale(t, e, n).pos == ScanNumber(t, p).pos
  {
    hide ScanDigits, ScanScale;
  }

  /** Whatever is read as a number is one in writing. */
  lemma NumeralOnly(t: Text, p: nat) returns (x: Numeral)
    requires p < |t| && (Digit(t[p]) || t[p] == MINUS || t[p] == DOT) && ScanNumber(t, p).Ok?
    ensures WellNumeral(x) && At(t, p, NumeralText(x)) && p + |NumeralText(x)| == ScanNumber(t, p).pos
  {
    hide At, ScanNumber, ScanScale, ScanDigits, EndOfDigits, FractionText, ExponentText, NumeralText;
    var sign: bytes := if t[p] == MINUS then [MINUS] else [];
    AtSlice(t, p, p + 1);
    assert t[p..p + 1] == [t[p]];
    AtNothing(t, p);
    var q := p + |sign|;
    var s := ScanDigits(t, q, 0).1;
    var r := Digits(t, q, s);
    AtSlice(t, q, r);
    var f := FractionOnly(t, r);
    var e := r + |FractionText(f)|;
    NumberSteps(t, p, q, s, r, e);
    var k := None;
    if NumberChar(t[s]) {
      k := ExponentOnly(t, e, if t[r] == DOT then e - r - 1 else 0);
    } else {
      NoMore(Numeral(false, [], None, None));
      AtNothing(t, e);
    }
    x := Numeral(t[p] == MINUS, t[q..r], f, k);
    NumeralAt(t, p, x, sign);
  }

  lemma NumeralAt(t: Text, p: nat, x: Numeral, sign: bytes)
    requires sign == if x.minus then ['-' as int] else []
    requires At(t, p, sign) && At(t, p + |sign|, x.whole) && At(t, p + |sign| + |x.whole|, FractionText(x.fraction))
    requires At(t, p + |sign| + |x.whole| + |FractionText(x.fraction)|, ExponentText(x.exponent))
    ensures At(t, p, NumeralText(x))
    ensures |NumeralText(x)| == |sign| + |x.whole| + |FractionText(x.fraction)| + |ExponentText(x.exponent)|
  {
    hide At, FractionText, ExponentText;
    AtJoined(t, p + |sign| + |x.whole|, FractionText(x.fraction), ExponentText(x.exponent));
    AtJoined(t, p + |sign|, x.whole, FractionText(x.fraction) + ExponentText(x.exponent));
    AtJoined(t, p, sign, x.whole + (FractionText(x.fraction) + ExponentText(x.exponent)));
  }

  /** Integers come from texts of a sign and digits only, with the value of the digits. */
  lemma WholeOnly(t: Text, p: nat)
    requires p < |t| && (Digit(t[p]) || t[p] == MINUS || t[p] == DOT) && ScanNumber(t, p).Ok?
    requires ScanNumber(t, p).value.Whole?
    ensures var q, s := ScanNumber(t, p).pos, if t[p] == '-' as int then p + 1 else p;
            && s <= q && Decimal(t[s..q]) && !NumberChar(t[q])
            && ScanNumber(t, p).value.n ==
               if t[p] == '-' as int then 0 - DecimalValue(t[s..q]) else DecimalValue(t[s..q])
  {
    hide ScanDigits, EndOfDigits, ScanScale, ValueFrom;
    DigitsTaken(t, if t[p] == MINUS then p + 1 else p, 0);
  }

  // ---- Strings.

  predicate IsHex(c: byte) {
    '0' as int <= c <= '9' as int || 'a' as int <= c <= 'f' as int || 'A' as int <= c <= 'F' as int
  }

  function HexOf(c: byte): (h: nat)
    requires IsHex(c)
    ensures h < 16
  {
    if c <= '9' as int then c - '0' as int
    else if c <= 'F' as int then c - 'A' as int + 10
    else c - 'a' as int + 10
  }

  /** A piece of a string in writing: a character, a backslash with a character, or a code of four digits. */
  datatype Piece = Plain(c: byte) | Escape(c: byte) | Code(d: bytes)

  predicate WellPiece(x: Piece) {
    match x
    case Plain(c) => c != 0 && c != 10 && c != 13 && c != '"' as int && c != '\\' as int
    case Escape(c) => c != 0 && c != 'u' as int
    case Code(d) => |d| == 4 && forall i | 0 <= i < 4 :: IsHex(d[i])
  }

  function PieceText(x: Piece): (b: bytes)
    ensures |b| > 0
  {
    match x
    case Plain(c) => [c]
    case Escape(c) => ['\\' as int, c]
    case Code(d) => ['\\' as int, 'u' as int] + d
  }

  /** The bytes a piece stands for; a character that needs no backslash keeps it, and a code is written in UTF-8, zero
      in two bytes. */
  function PieceValue(x: Piece): bytes
    requires WellPiece(x)
  {
    match x
    case Plain(c) => [c]
    case Escape(c) =>
      if c == 'b' as int then [8]
      else if c == 't' as int then [9]
      else if c == 'n' as int then [10]
      else if c == 'f' as int then [12]
      else if c == 'r' as int then [13]
      else if c == '"' as int || c == '/' as int || c == '\\' as int then [c]
      else ['\\' as int, c]
    case Code(d) =>
      var u := 4096 * HexOf(d[0]) + 256 * HexOf(d[1]) + 16 * HexOf(d[2]) + HexOf(d[3]);
      if 0 < u < 128 then [u]
      else if u < 2048 then [192 + u / 64, 128 + u % 64]
      else [224 + u / 4096, 128 + u / 64 % 64, 128 + u % 64]
  }

  predicate WellPieces(ps: seq<Piece>) {
    forall i | 0 <= i < |ps| :: WellPiece(ps[i])
  }

  function PiecesText(ps: seq<Piece>): bytes {
    if ps == [] then [] else PieceText(ps[0]) + PiecesText(ps[1..])
  }

  function PiecesValue(ps: seq<Piece>): bytes
    requires WellPieces(ps)
  {
    if ps == [] then [] else PieceValue(ps[0]) + PiecesValue(ps[1..])
  }

  lemma HexStep(t: Text, p: nat, n: nat, u: nat, c: byte)
    requires 0 < n <= 4 && u < [65536, 4096, 256, 16, 1][n] && p + 1 < |t| && t[p] == c && IsHex(c)
    ensures 16 * u + HexOf(c) < [65536, 4096, 256, 16, 1][n - 1]
    ensures ScanHex(t, p, n, u) == ScanHex(t, p + 1, n - 1, 16 * u + HexOf(c))
  {}

  lemma HexRead(t: Text, p: nat, d: bytes)
    requires |d| == 4 && (forall i | 0 <= i < 4 :: IsHex(d[i])) && At(t, p, d)
    ensures p + 4 < |t|
    ensures ScanHex(t, p, 4, 0) ==
            Ok(4096 * HexOf(d[0]) + 256 * HexOf(d[1]) + 16 * HexOf(d[2]) + HexOf(d[3]), p + 4)
  {
    hide ScanHex, HexOf, IsHex;
    FourChars(t, p, d);
    var a, b, c := HexOf(d[0]), HexOf(d[1]), HexOf(d[2]);
    HexStep(t, p, 4, 0, d[0]);
    HexStep(t, p + 1, 3, a, d[1]);
    HexStep(t, p + 2, 2, 16 * a + b, d[2]);
    HexStep(t, p + 3, 1, 16 * (16 * a + b) + c, d[3]);
    HexDone(t, p + 4, 16 * (16 * (16 * a + b) + c) + HexOf(d[3]));
  }

  lemma FourChars(t: Text, p: nat, d: bytes)
    requires |d| == 4 && (forall i | 0 <= i < 4 :: IsHex(d[i])) && At(t, p, d)
    ensures p + 4 < |t| && t[p] == d[0] && t[p + 1] == d[1] && t[p + 2] == d[2] && t[p + 3] == d[3]
  {
    var x := t[p..p + 4];
    assert t[p] == x[0] && t[p + 1] == x[1] && t[p + 2] == x[2] && t[p + 3] == x[3];
  }

  lemma HexDone(t: Text, p: nat, u: nat)
    requires p < |t| && u < 65536
    ensures ScanHex(t, p, 0, u) == Ok(u, p)
  {}

  lemma CharEscapeRead(t: Text, p: nat, c: byte)
    requires WellPiece(Escape(c)) && p < |t| && t[p] == c
    ensures ScanEscape(t, p) == Ok(PieceValue(Escape(c)), p + 1)
  {
    hide ScanHex;
  }

  lemma CodeEscapeRead(t: Text, p: nat, d: bytes)
    requires WellPiece(Code(d)) && p < |t| && t[p] == 'u' as int && At(t, p + 1, d)
    ensures ScanEscape(t, p) == Ok(PieceValue(Code(d)), p + 5)
  {
    hide At, ScanHex, HexOf;
    HexRead(t, p + 1, d);
    var u := 4096 * HexOf(d[0]) + 256 * HexOf(d[1]) + 16 * HexOf(d[2]) + HexOf(d[3]);
    assert ScanEscape(t, p) == Ok(Utf8(u), p + 5);
  }

  lemma EscapeRead(t: Text, p: nat, x: Piece)
    requires WellPiece(x) && !x.Plain? && At(t, p, PieceText(x)) && p + |PieceText(x)| < |t|
    ensures p + 1 < |t| && t[p] == BACKSLASH
    ensures ScanEscape(t, p + 1) == Ok(PieceValue(x), p + |PieceText(x)|)
  {
    hide At, ScanEscape, PieceValue;
    AtFirst(t, p, PieceText(x));
    match x
    case Escape(c) =>
      AtSplit(t, p, [BACKSLASH], [c]) by { assert PieceText(x) == [BACKSLASH] + [c]; }
      AtFirst(t, p + 1, [c]);
      CharEscapeRead(t, p + 1, c);
    case Code(d) =>
      AtSplit(t, p, [BACKSLASH], ['u' as int] + d) by { assert PieceText(x) == [BACKSLASH] + (['u' as int] + d); }
      AtSplit(t, p + 1, ['u' as int], d);
      AtFirst(t, p + 1, ['u' as int]);
      CodeEscapeRead(t, p + 1, d);
  }

  lemma PieceRead(t: Text, p: nat, x: Piece, acc: bytes)
    requires WellPiece(x) && At(t, p, PieceText(x)) && p + |PieceText(x)| < |t|
    ensures p < |t| && ScanString(t, p, acc) == ScanString(t, p + |PieceText(x)|, acc + PieceValue(x))
  {
    hide At, ScanEscape;
    AtFirst(t, p, PieceText(x));
    if !x.Plain? {
      EscapeRead(t, p, x);
    }
  }

  /** Every string in writing is read as the bytes its pieces stand for. */
  lemma {:induction false} PiecesRead(t: Text, p: nat, ps: seq<Piece>, acc: bytes)
    requires WellPieces(ps) && At(t, p, PiecesText(ps) + ['"' as int])
    ensures p + |PiecesText(ps)| + 1 < |t|
    ensures ScanString(t, p, acc) == Ok(acc + PiecesValue(ps), p + |PiecesText(ps)| + 1)
    decreases |ps|
  {
    hide At, PieceText, PieceValue, WellPiece;
    AtSplit(t, p, PiecesText(ps), ['"' as int]);
    AtFirst(t, p + |PiecesText(ps)|, ['"' as int]);
    if ps == [] {
      assert acc + PiecesValue(ps) == acc;
    } else {
      var x, rest := ps[0], ps[1..];
      assert WellPieces(rest);
      assert PiecesText(ps) + ['"' as int] == PieceText(x) + (PiecesText(rest) + ['"' as int]);
      AtSplit(t, p, PieceText(x), PiecesText(rest) + ['"' as int]);
      PieceRead(t, p, x, acc);
      PiecesRead(t, p + |PieceText(x)|, rest, acc + PieceValue(x));
      assert acc + PieceValue(x) + PiecesValue(rest) == acc + PiecesValue(ps);
    }
  }

  /** The piece a string continues with. */
  function NextPiece(t: Text, p: nat): Piece
    requires p + 1 < |t|
  {
    if t[p] != BACKSLASH then Plain(t[p])
    else if t[p + 1] == 'u' as int && p + 6 <= |t| then Code(t[p + 2..p + 6])
    else Escape(t[p + 1])
  }

  lemma PieceOnly(t: Text, p: nat)
    requires p < |t| && t[p] != QUOTE && !EndsLine(t[p]) && (t[p] == BACKSLASH ==> ScanEscape(t, p + 1).Ok?)
    ensures p + 1 < |t|
    ensures var x := NextPiece(t, p);
            WellPiece(x) && p + |PieceText(x)| < |t| && At(t, p, PieceText(x))
  {
    if t[p] == BACKSLASH && t[p + 1] == 'u' as int {
      HexOnly(t, p + 2);
    }
  }

  lemma HexOnly(t: Text, p: nat)
    requires p < |t| && ScanHex(t, p, 4, 0).Ok?
    ensures p + 4 < |t| && forall i | p <= i < p + 4 :: IsHex(t[i])
  {
    var u := HexValue(t[p]);
    assert ScanHex(t, p, 4, 0) == ScanHex(t, p + 1, 3, u);
    var v := 16 * u + HexValue(t[p + 1]);
    assert ScanHex(t, p + 1, 3, u) == ScanHex(t, p + 2, 2, v);
    assert ScanHex(t, p + 2, 2, v) == ScanHex(t, p + 3, 1, 16 * v + HexValue(t[p + 2]));
  }

  /** Whatever is read as a string is one in writing, and the bytes are those its pieces stand for. */
  lemma {:induction false} PiecesOnly(t: Text, p: nat, acc: bytes) returns (ps: seq<Piece>)
    requires p < |t| && ScanString(t, p, acc).Ok?
    ensures WellPieces(ps) && At(t, p, PiecesText(ps) + ['"' as int])
    ensures ScanString(t, p, acc) == Ok(acc + PiecesValue(ps), p + |PiecesText(ps)| + 1)
    decreases |t| - p
  {
    hide PieceText, PieceValue, WellPiece, ScanEscape;
    if t[p] == QUOTE {
      ps := [];
      assert t[p..p + 1] == ['"' as int] && acc + PiecesValue(ps) == acc;
    } else {
      PieceOnly(t, p);
      var x := NextPiece(t, p);
      PieceRead(t, p, x, acc);
      var rest := PiecesOnly(t, p + |PieceText(x)|, acc + PieceValue(x));
      ps := [x] + rest;
      assert ps[1..] == rest;
      AtJoined(t, p, PieceText(x), PiecesText(rest) + ['"' as int]);
      assert PieceText(x) + (PiecesText(rest) + ['"' as int]) == PiecesText(ps) + ['"' as int];
      assert acc + PieceValue(x) + PiecesValue(rest) == acc + PiecesValue(ps);
    }
  }
}
