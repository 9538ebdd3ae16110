/** The lexical level of the JSON reader: what whitespace, comments, strings and numbers are, as functions of the
    text. Everything reads forwards from a position of a text that ends with a zero byte. */
module JsonText {
  import opened Codec

  const QUOTE: byte := 0x22
  const BACKSLASH: byte := 0x5C
  const SLASH: byte := 0x2F
  const COMMA: byte := 0x2C
  const COLON: byte := 0x3A
  const MINUS: byte := 0x2D
  const DOT: byte := 0x2E
  const LF: byte := 0x0A
  const CR: byte := 0x0D
  const SPACE: byte := 0x20

  /** A C string: its last byte is zero. Zero bytes before the last one are allowed. */
  type Text = t: bytes | |t| > 0 && t[|t| - 1] == 0 witness [0]

  datatype Error =
    | NothingToDeserialize | RootNotContainer | DataAfterDocument
    | UnexpectedComma | ExpectedCommaOrEnd | UnexpectedCharacter | ExpectedKey | MissingColon
    | MissingEndQuote | InvalidUnicodeEscape | IncompleteEscape
    | NumericFailure | UnrecognizedCharacter

  /** Overrun: the reader went past the final zero byte, which it takes for whitespace. */
  datatype Outcome<+T> = Ok(value: T, pos: nat) | Err(error: Error, pos: nat) | Overrun

  /** An outcome stays inside the text, and a success leaves at least the final zero unread. */
  predicate Inside<T>(o: Outcome<T>, t: Text, p: nat) {
    match o
    case Ok(_, q) => p < q < |t|
    case Err(_, q) => p <= q <= |t|
    case Overrun => true
  }

  // ---- Character classes (the table of parse flags).

  predicate White(c: byte) { c <= SPACE }
  predicate EndsLine(c: byte) { c == 0 || c == LF || c == CR }
  predicate Special(c: byte) { EndsLine(c) || c == QUOTE || c == BACKSLASH }
  predicate Digit(c: byte) { 0x30 <= c <= 0x39 }
  predicate NumberChar(c: byte) { Digit(c) || c == DOT || c == 0x45 || c == 0x65 }

  // ---- Whitespace inside containers. A comment counts only after at least one whitespace character.

  /** The first character from p on that is not whitespace; the length of the text when there is none. */
  function EndOfRun(t: Text, p: nat): (q: nat)
    requires p <= |t|
    ensures p <= q <= |t| && (q < |t| ==> !White(t[q]))
    decreases |t| - p
  {
    if p < |t| && White(t[p]) then EndOfRun(t, p + 1) else p
  }

  function EndOfComment(t: Text, p: nat): (q: nat)
    requires p < |t|
    ensures p <= q < |t| && EndsLine(t[q])
    decreases |t| - p
  {
    if EndsLine(t[p]) then p else EndOfComment(t, p + 1)
  }

  predicate CommentAt(t: Text, p: nat) {
    p + 1 < |t| && t[p] == SLASH && t[p + 1] == SLASH
  }

  /** The length of the text when the run of whitespace and comments reaches the end. */
  function SkipWhite(t: Text, p: nat): (q: nat)
    requires p <= |t|
    ensures p <= q <= |t|
    ensures q < |t| ==> !White(t[q])
    decreases |t| - p
  {
    if p < |t| && White(t[p]) then
      var q := EndOfRun(t, p);
      if CommentAt(t, q) then SkipWhite(t, EndOfComment(t, q + 2)) else q
    else p
  }

  /** Whitespace around the document: stops at a zero byte, and comments need nothing before them. */
  function SkipOutside(t: Text, p: nat): (q: nat)
    requires p < |t|
    ensures p <= q < |t|
    ensures t[q] == 0 || !White(t[q])
    decreases |t| - p
  {
    if t[p] == 0 then p
    else if CommentAt(t, p) then SkipOutside(t, EndOfComment(t, p + 2))
    else if White(t[p]) then SkipOutside(t, p + 1)
    else p
  }

  // ---- Strings. Positions are after the opening quote.

  function HexValue(c: byte): (h: int)
    ensures -1 <= h < 16
  {
    if 0x41 <= c <= 0x46 then c - 0x41 + 10
    else if 0x61 <= c <= 0x66 then c - 0x61 + 10
    else if Digit(c) then c - 0x30
    else -1
  }

  /** Four hexadecimal digits, u being the value of those already read. */
  function ScanHex(t: Text, p: nat, n: nat, u: nat): (o: Outcome<nat>)
    requires p < |t| && n <= 4 && u < [65536, 4096, 256, 16, 1][n]
    ensures match o case Ok(_, q) => q == p + n < |t| case Err(_, q) => p < q <= |t| case Overrun => false
    ensures o.Ok? ==> o.value < 65536
    decreases n
  {
    if n == 0 then Ok(u, p)
    else if HexValue(t[p]) < 0 then Err(InvalidUnicodeEscape, p + 1)
    else ScanHex(t, p + 1, n - 1, 16 * u + HexValue(t[p]))
  }

  /** UTF-8 up to three bytes. Zero takes the two-byte form, so that no string contains a zero byte. */
  function Utf8(u: nat): (b: bytes)
    requires u < 65536
    ensures 1 <= |b| <= 3 && forall i | 0 <= i < |b| :: b[i] != 0
  {
    if 0 < u < 0x80 then [u]
    else if u < 0x800 then [0xC0 + u / 64, 0x80 + u % 64]
    else [0xE0 + u / 4096, 0x80 + u / 64 % 64, 0x80 + u % 64]
  }

  /** What follows a backslash. An unknown escape keeps its backslash. */
  function ScanEscape(t: Text, p: nat): (o: Outcome<bytes>)
    requires p < |t|
    ensures Inside(o, t, p) && !o.Overrun?
    ensures o.Ok? ==> |o.value| <= o.pos - p + 1 && forall i | 0 <= i < |o.value| :: o.value[i] != 0
  {
    var c := t[p];
    if c == 'u' as int then
      match ScanHex(t, p + 1, 4, 0)
      case Ok(u, q) => Ok(Utf8(u), q)
      case Err(e, q) => Err(e, q)
      case Overrun => Overrun
    else if c == 'b' as int then Ok([8], p + 1)
    else if c == 'f' as int then Ok([12], p + 1)
    else if c == 'n' as int then Ok([LF], p + 1)
    else if c == 'r' as int then Ok([CR], p + 1)
    else if c == 't' as int then Ok([9], p + 1)
    else if c == BACKSLASH || c == QUOTE || c == SLASH then Ok([c], p + 1)
    else if c == 0 then Err(IncompleteEscape, p + 1)
    else Ok([BACKSLASH, c], p + 1)
  }

  /** The rest of a string, acc being the part already read. */
  function ScanString(t: Text, p: nat, acc: bytes): (o: Outcome<bytes>)
    requires p < |t|
    ensures Inside(o, t, p) && !o.Overrun?
    decreases |t| - p
  {
    var c := t[p];
    if c == QUOTE then Ok(acc, p + 1)
    else if EndsLine(c) then Err(MissingEndQuote, p + 1)
    else if c != BACKSLASH then ScanString(t, p + 1, acc + [c])
    else
      match ScanEscape(t, p + 1)
      case Ok(b, q) => ScanString(t, q, acc + b)
      case Err(e, q) => Err(e, q)
      case Overrun => Overrun
  }

  predicate NulFree(s: bytes) {
    forall i | 0 <= i < |s| :: s[i] != 0
  }

  lemma {:induction false} ScannedNulFree(t: Text, p: nat, acc: bytes)
    requires p < |t| && NulFree(acc)
    ensures ScanString(t, p, acc).Ok? ==> NulFree(ScanString(t, p, acc).value)
    decreases |t| - p
  {
    var c := t[p];
    if c == QUOTE || EndsLine(c) {
    } else if c != BACKSLASH {
      ScannedNulFree(t, p + 1, acc + [c]);
    } else if ScanEscape(t, p + 1).Ok? {
      ScannedNulFree(t, ScanEscape(t, p + 1).pos, acc + ScanEscape(t, p + 1).value);
    }
  }

  // ---- Numbers.

  /** Digits are taken into an integer as long as its value does not exceed this bound. */
  const THRESHOLD: nat := 0xCCCCCCCCCCCCCCB

  /** The greatest magnitude an integer can be read with. */
  const MAX_READ: int := 10 * THRESHOLD + 9

  /** Takes digits until there is no digit or the value is above the threshold. */
  function ScanDigits(t: Text, p: nat, n: nat): (r: (nat, nat))
    requires p < |t| && n <= THRESHOLD
    ensures p <= r.1 < |t| && n <= r.0 <= MAX_READ
    ensures r.0 <= THRESHOLD ==> !Digit(t[r.1])
    decreases |t| - p
  {
    if !Digit(t[p]) then (n, p)
    else
      var m := 10 * n + (t[p] - 0x30);
      if m > THRESHOLD then (m, p + 1) else ScanDigits(t, p + 1, m)
  }

  function EndOfDigits(t: Text, p: nat): (q: nat)
    requires p < |t|
    ensures p <= q < |t| && !Digit(t[q])
    decreases |t| - p
  {
    if Digit(t[p]) then EndOfDigits(t, p + 1) else p
  }

  function ScanExponent(t: Text, p: nat, e: nat): (o: Outcome<nat>)
    requires p < |t|
    ensures match o case Ok(_, q) => p <= q < |t| case Err(_, q) => p <= q <= |t| case Overrun => false
    decreases |t| - p
  {
    if !Digit(t[p]) then Ok(e, p)
    else if e > 0xCCCCCCB then Err(NumericFailure, p)
    else ScanExponent(t, p + 1, 10 * e + (t[p] - 0x30))
  }

  /** The optional exponent and the final check of the scale; gives the end of the number. */
  function ScanScale(t: Text, p: nat, fraction: nat): (o: Outcome<()>)
    requires p < |t|
    ensures match o case Ok(_, q) => p <= q < |t| case Err(_, q) => p <= q <= |t| case Overrun => false
  {
    if t[p] == 0x45 || t[p] == 0x65 then
      var negative := t[p + 1] == MINUS;
      match ScanExponent(t, if negative || t[p + 1] == '+' as int then p + 2 else p + 1, 0)
      case Ok(e, q) =>
        var scale: int := if negative then 0 - fraction - e else e - fraction;
        if -0x8000_0000 <= scale < 0x8000_0000 then Ok((), q) else Err(NumericFailure, q)
      case Err(e, q) => Err(e, q)
      case Overrun => Overrun
    else if fraction <= 0x8000_0000 then Ok((), p)
    else Err(NumericFailure, p)
  }

  type int64 = n: int | -0x8000_0000_0000_0000 <= n < 0x8000_0000_0000_0000

  datatype Number<+S> = Whole(n: int64) | Real(lexeme: S)

  /** A number that is not a whole number is known by its text only. */
  function ScanNumber(t: Text, p: nat): (o: Outcome<Number<bytes>>)
    requires p < |t| && (Digit(t[p]) || t[p] == MINUS || t[p] == DOT)
    ensures Inside(o, t, p) && !o.Overrun?
    ensures o.Ok? && o.value.Whole? ==> -MAX_READ <= o.value.n <= MAX_READ
    ensures o.Ok? && o.value.Real? ==> o.value.lexeme == t[p..o.pos]
  {
    var negative := t[p] == MINUS;
    var (n, q) := ScanDigits(t, if negative then p + 1 else p, 0);
    var whole: int := if negative then 0 - n else n;
    if !NumberChar(t[q]) then Ok(Whole(whole), q)
    else
      var q' := EndOfDigits(t, q);
      var q'' := if t[q'] == DOT then EndOfDigits(t, q' + 1) else q';
      match ScanScale(t, q'', if t[q'] == DOT then q'' - q' - 1 else 0)
      case Ok(_, end) => Ok(Real(t[p..end]), end)
      case Err(e, end) => Err(e, end)
      case Overrun => Overrun
  }
}
