/** What the JSON writer prints for strings and integers, and the proof that the reader takes it back. */
module JsonPrinting {
  import opened Codec
  import opened JsonText
  import opened JsonGrammar
  import opened JsonLexemes
  import opened JsonLayout
  import opened Wrappers

  // ---- Strings.

  /** A control character is printed with a backslash, and so are a quote and a backslash. */
  function EscapedPiece(c: byte): Piece {
    if c >= 32 && c != '"' as int && c != '\\' as int then Plain(c)
    else if c == 8 then Escape('b' as int)
    else if c == 13 then Escape('r' as int)
    else if c == 9 then Escape('t' as int)
    else if c == 12 then Escape('f' as int)
    else if c == 10 then Escape('n' as int)
    else if c == '"' as int || c == '\\' as int then Escape(c)
    else Code(['0' as int, '0' as int, HexDigit(c / 16), HexDigit(c % 16)])
  }

  function EscapedByte(c: byte): (b: bytes)
    ensures |b| > 0
  {
    PieceText(EscapedPiece(c))
  }

  /** The code takes strings to end at their first zero byte. */
  function EscapedPieces(s: bytes): seq<Piece> {
    if s == [] || s[0] == 0 then [] else [EscapedPiece(s[0])] + EscapedPieces(s[1..])
  }

  function Escaped(s: bytes): bytes {
    PiecesText(EscapedPieces(s))
  }

  function Quoted(s: bytes): (b: bytes)
    ensures |b| > 0 && b[0] == QUOTE
  {
    StringText(EscapedPieces(s))
  }

  lemma EscapedNext(s: bytes)
    requires s != [] && s[0] != 0
    ensures Escaped(s) == EscapedByte(s[0]) + Escaped(s[1..])
  {
    var ps := EscapedPieces(s);
    assert ps[1..] == EscapedPieces(s[1..]);
  }

  lemma EscapedValue(c: byte)
    requires c != 0
    ensures WellPiece(EscapedPiece(c)) && PieceValue(EscapedPiece(c)) == [c]
  {
    if EscapedPiece(c).Code? {
      assert HexOf(HexDigit(c / 16)) == c / 16 && HexOf(HexDigit(c % 16)) == c % 16;
    }
  }

  /** The printed form of a string without zero bytes stands for the string. */
  lemma {:induction false} EscapedValues(s: bytes)
    requires NulFree(s)
    ensures WellPieces(EscapedPieces(s)) && PiecesValue(EscapedPieces(s)) == s
    decreases |s|
  {
    hide EscapedPiece, WellPiece, PieceValue;
    if s != [] {
      var rest := EscapedPieces(s[1..]);
      EscapedValue(s[0]);
      EscapedValues(s[1..]);
      assert EscapedPieces(s)[1..] == rest;
    }
  }

  // ---- Integers: 64 bits wide; the division of the code truncates.

  const INT64_MIN: int := -0x8000_0000_0000_0000

  function Quotient(n: int): int {
    if n >= 0 then n / 10 else -(-n / 10)
  }

  function Remainder(n: int): (r: int)
    ensures -9 <= r <= 9
  {
    if n >= 0 then n % 10 else -(-n % 10)
  }

  /** The absolute value as the code forms it: the least integer is its own negation. */
  function Magnitude(n: int64): int64 {
    if n < 0 && n != INT64_MIN then -n else n
  }

  /** The digits the code forms; for a negative number they are not digits. */
  function DigitChars(n: int): (b: bytes)
    ensures |b| > 0
    decreases if n >= 0 then n else -n
  {
    (if Quotient(n) == 0 then [] else DigitChars(Quotient(n))) + [0x30 + Remainder(n)]
  }

  function IntNumeral(n: int64): Numeral {
    Numeral(n < 0, DigitChars(Magnitude(n)), None, None)
  }

  function IntText(n: int64): (b: bytes)
    ensures |b| > 0
  {
    (if n < 0 then [MINUS] else []) + DigitChars(Magnitude(n))
  }

  /** How the writer spells a value that is not a container. Doubles are not laid out. */
  function Spelled(v: Tree): Lexeme {
    match v
    case Null => NullWord
    case Bool(b) => BoolWord(b)
    case Int(n) => NumberWord(IntNumeral(n))
    case Str(s) => StringWord(EscapedPieces(s))
    case _ => NumberWord(Numeral(false, [], None, None))
  }

  function ScalarText(v: Tree): bytes {
    LexemeText(Spelled(v))
  }

  // ---- Reading back strings.

  /** Scanning the escaped form of a string without zero bytes gives the string. */
  lemma StringBack(t: Text, p: nat, s: bytes, acc: bytes)
    requires NulFree(s) && At(t, p, Escaped(s) + [QUOTE])
    ensures p < |t| && ScanString(t, p, acc) == Ok(acc + s, p + |Escaped(s)| + 1)
  {
    EscapedValues(s);
    PiecesRead(t, p, EscapedPieces(s), acc);
  }

  // ---- Reading back integers.

  lemma NatDigits(n: nat)
    ensures Quotient(n) == n / 10 && Remainder(n) == n % 10
    ensures n < 10 <==> n / 10 == 0
  {}

  lemma DigitCharsUnfold(n: int)
    ensures DigitChars(n) == (if Quotient(n) == 0 then [] else DigitChars(Quotient(n))) + [0x30 + Remainder(n)]
  {}

  lemma LastValue(n: nat, x: bytes)
    requires Decimal(x) && DecimalValue(x) == n / 10
    ensures Decimal(x + [0x30 + n % 10]) && DecimalValue(x + [0x30 + n % 10]) == n
  {
    var last := [0x30 + n % 10];
    ValueOfMore(0, x, last);
    assert last[1..] == [];
    assert ValueFrom(n / 10, last) == 10 * (n / 10) + n % 10;
  }

  /** The digits of a number have its value. */
  lemma {:induction false} DigitCharsValue(n: nat)
    ensures Decimal(DigitChars(n)) && DecimalValue(DigitChars(n)) == n
    decreases n
  {
    hide DigitChars, Quotient, Remainder, ValueFrom;
    DigitCharsUnfold(n);
    NatDigits(n);
    if n < 10 {
      assert ValueFrom(0, []) == 0 by { NothingValue(); }
      LastValue(n, []);
      assert [] + [0x30 + n % 10] == [0x30 + n % 10];
    } else {
      DigitCharsValue(n / 10);
      LastValue(n, DigitChars(n / 10));
    }
  }

  lemma NothingValue()
    ensures ValueFrom(0, []) == 0
  {}

  lemma IntNumeralText(n: int64)
    ensures NumeralText(IntNumeral(n)) == IntText(n) && IntNumeral(n).exponent == None
  {
    hide DigitChars;
  }

  lemma IntNumeralWell(n: int64)
    requires -MAX_READ <= n <= MAX_READ
    ensures var x := IntNumeral(n);
            WellNumeral(x) && IsInteger(x) && n == if x.minus then 0 - DecimalValue(x.whole) else DecimalValue(x.whole)
  {
    hide DigitChars, ValueFrom;
    DigitCharsValue(Magnitude(n));
  }

  lemma NumberBack(t: Text, p: nat, n: int64)
    requires -MAX_READ <= n <= MAX_READ && At(t, p, IntText(n))
    requires p + |IntText(n)| < |t| && !NumberChar(t[p + |IntText(n)|])
    ensures p < |t| && (Digit(t[p]) || t[p] == MINUS)
    ensures ScanNumber(t, p) == Ok(Whole(n), p + |IntText(n)|)
  {
    hide At, IntText, NumeralText, WellNumeral, IsInteger, IntNumeral, ValueFrom;
    IntNumeralText(n);
    IntNumeralWell(n);
    NumeralRead(t, p, IntNumeral(n));
    IntStart(n);
    AtFirst(t, p, IntText(n));
  }

  lemma {:induction false} NumeralFirst(n: nat)
    ensures Digit(DigitChars(n)[0])
    decreases n
  {
    if n >= 10 {
      NumeralFirst(n / 10);
    }
  }

  lemma IntStart(n: int64)
    ensures Digit(IntText(n)[0]) || IntText(n)[0] == MINUS
  {
    if n >= 0 {
      NumeralFirst(n);
    }
  }

  /** The spelling of a readable value stands for the value. */
  lemma SpelledValue(v: Tree)
    requires !v.Node? && NoDoubles(v) && Readable(v)
    ensures WellLexeme(Spelled(v)) && LexemeValue(Spelled(v)) == v
  {
    hide EscapedPieces, PiecesValue, WellPieces, WellNumeral, IntNumeral, IsInteger, ValueFrom;
    match v
    case Str(s) => EscapedValues(s);
    case Int(n) => IntNumeralWell(n);
    case _ =>
  }
}
