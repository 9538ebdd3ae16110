/** Documents in writing: numbers and strings in any spelling, with any whitespace and comments between the parts. The
    reader makes of such a text what it stands for. */
module JsonLayout {
  import opened Codec
  import opened JsonText
  import opened JsonGrammar
  import opened JsonLexemes
  import opened Wrappers

  // ---- Values that are not containers.

  datatype Lexeme = NullWord | BoolWord(b: bool) | NumberWord(x: Numeral) | StringWord(ps: seq<Piece>)

  predicate WellLexeme(x: Lexeme) {
    match x
    case NumberWord(n) => WellNumeral(n) && (IsInteger(n) || ScaleFits(n))
    case StringWord(ps) => WellPieces(ps)
    case _ => true
  }

  function StringText(ps: seq<Piece>): (b: bytes)
    ensures |b| >= 2
  {
    ['"' as int] + (PiecesText(ps) + ['"' as int])
  }

  function LexemeText(x: Lexeme): bytes {
    match x
    case NullWord => ['n' as int, 'u' as int, 'l' as int, 'l' as int]
    case BoolWord(true) => ['t' as int, 'r' as int, 'u' as int, 'e' as int]
    case BoolWord(false) => ['f' as int, 'a' as int, 'l' as int, 's' as int, 'e' as int]
    case NumberWord(n) => NumeralText(n)
    case StringWord(ps) => StringText(ps)
  }

  function LexemeValue(x: Lexeme): Tree
    requires WellLexeme(x)
  {
    match x
    case NullWord => Null
    case BoolWord(b) => Bool(b)
    case NumberWord(n) =>
      if !IsInteger(n) then Double(NumeralText(n))
      else Int(if n.minus then 0 - DecimalValue(n.whole) else DecimalValue(n.whole))
    case StringWord(ps) => Str(PiecesValue(ps))
  }

  lemma WordRead(t: Text, p: nat, word: bytes)
    requires word != [] && word[|word| - 1] != 0
    ensures Letters(t, p, word) <==> At(t, p, word)
  {}

  lemma StringRead(t: Text, p: nat, ps: seq<Piece>)
    requires WellPieces(ps) && At(t, p, StringText(ps))
    ensures p + |StringText(ps)| <= |t| && t[p] == '"' as int
    ensures ScanString(t, p + 1, []) == Ok(PiecesValue(ps), p + |StringText(ps)|)
  {
    hide At, PiecesText, PiecesValue, ScanString;
    AtText(t, p, StringText(ps));
    AtFirst(t, p, StringText(ps));
    AtSplit(t, p, ['"' as int], PiecesText(ps) + ['"' as int]);
    PiecesRead(t, p + 1, ps, []);
    assert [] + PiecesValue(ps) == PiecesValue(ps);
  }

  /** A value starts with one of these characters, or with a brace or a bracket. */
  predicate StartsScalar(c: byte) {
    c == 'n' as int || c == 't' as int || c == 'f' as int || c == '"' as int || Digit(c) || c == MINUS || c == DOT
  }

  lemma LexemeStart(x: Lexeme)
    requires WellLexeme(x)
    ensures LexemeText(x) != [] && StartsScalar(LexemeText(x)[0])
  {}

  /** Every value in writing that is not a container is read as what it stands for. */
  lemma LexemeRead(t: Text, p: nat, x: Lexeme)
    requires WellLexeme(x) && At(t, p, LexemeText(x)) && p + |LexemeText(x)| < |t|
    requires x.NumberWord? ==> Ends(x.x, t[p + |LexemeText(x)|])
    ensures p < |t| && !Opens(t[p]) && Scalar(t, p) == Ok(LexemeValue(x), p + |LexemeText(x)|)
  {
    hide At, StringText, PiecesValue, NumeralText, ScanString, ScanNumber, WellNumeral, WellPieces, Letters;
    LexemeStart(x);
    AtFirst(t, p, LexemeText(x));
    match x
    case NumberWord(n) => NumeralRead(t, p, n);
    case StringWord(ps) => StringRead(t, p, ps);
    case NullWord => WordRead(t, p, NULL_TEXT);
    case BoolWord(b) => WordRead(t, p, if b then TRUE_TEXT else FALSE_TEXT);
  }

  /** Whatever is read as a value that is not a container is one in writing, and the value is the one it stands for. */
  lemma LexemeOnly(t: Text, p: nat) returns (x: Lexeme)
    requires p < |t| && !Opens(t[p]) && Scalar(t, p).Ok? && EndsNumber(t[Scalar(t, p).pos])
    ensures WellLexeme(x) && At(t, p, LexemeText(x))
    ensures Scalar(t, p) == Ok(LexemeValue(x), p + |LexemeText(x)|)
  {
    hide At, StringText, PiecesValue, NumeralText, ScanString, ScanNumber, WellNumeral, WellPieces, Letters;
    var c := t[p];
    if c == QUOTE {
      x := StringOnly(t, p);
    } else if Digit(c) || c == MINUS || c == DOT {
      var n := NumeralOnly(t, p);
      NumeralRead(t, p, n);
      x := NumberWord(n);
    } else if c == 'n' as int {
      x := NullWord;
      WordRead(t, p, NULL_TEXT);
    } else {
      x := BoolWord(c == 't' as int);
      WordRead(t, p, if c == 't' as int then TRUE_TEXT else FALSE_TEXT);
    }
  }

  lemma StringOnly(t: Text, p: nat) returns (x: Lexeme)
    requires p < |t| && t[p] == QUOTE && p + 1 < |t| && ScanString(t, p + 1, []).Ok?
    ensures x.StringWord? && WellPieces(x.ps) && At(t, p, StringText(x.ps))
    ensures ScanString(t, p + 1, []) == Ok(PiecesValue(x.ps), p + |StringText(x.ps)|)
  {
    hide PiecesValue, ScanString, WellPieces;
    var ps := PiecesOnly(t, p + 1, []);
    AtSlice(t, p, p + 1);
    assert t[p..p + 1] == [QUOTE];
    AtJoined(t, p, [QUOTE], PiecesText(ps) + [QUOTE]);
    assert [] + PiecesValue(ps) == PiecesValue(ps);
    x := StringWord(ps);
  }

  /** A number with a fraction or an exponent, whatever its digits, is a double known by its whole text; the only other
      outcome is that its scale does not fit. */
  lemma RealRead(t: Text, p: nat, x: Numeral)
    requires WellNumeral(x) && (x.fraction.Some? || x.exponent.Some?)
    requires At(t, p, NumeralText(x)) && p + |NumeralText(x)| < |t| && Ends(x, t[p + |NumeralText(x)|])
    ensures p < |t| && !Opens(t[p])
    ensures if ScaleFits(x) then Scalar(t, p) == Ok(Double(NumeralText(x)), p + |NumeralText(x)|)
            else Scalar(t, p).Err? && Scalar(t, p).error == NumericFailure
  {
    hide At, NumeralText, ScanNumber, WellNumeral, ScaleFits;
    NumeralRead(t, p, x);
  }

  /** An integer comes only from a sign and digits, up to a character that continues no number, and has their value. */
  lemma IntOnly(t: Text, p: nat)
    requires p < |t| && !Opens(t[p]) && Scalar(t, p).Ok? && Scalar(t, p).value.Int?
    ensures var q, s := Scalar(t, p).pos, if t[p] == '-' as int then p + 1 else p;
            && s <= q && Decimal(t[s..q]) && !NumberChar(t[q])
            && Scalar(t, p).value.n ==
               if t[p] == '-' as int then 0 - DecimalValue(t[s..q]) else DecimalValue(t[s..q])
  {
    hide ScanNumber, ScanString, ValueFrom;
    WholeOnly(t, p);
  }

  // ---- Whitespace and comments inside containers.

  /** Whitespace from the second character on: control characters and spaces, and comments that end with a line. */
  predicate Blank(w: bytes)
    decreases |w|
  {
    w == [] ||
    if w[0] == '/' as int then |w| >= 2 && w[1] == '/' as int && Comment(w[2..]) else w[0] <= 32 && Blank(w[1..])
  }

  predicate Comment(w: bytes)
    decreases |w|
  {
    w != [] && if w[0] == 0 || w[0] == 10 || w[0] == 13 then Blank(w[1..]) else Comment(w[1..])
  }

  /** Whitespace, which does not start with a comment. */
  predicate Filler(w: bytes) {
    w == [] || (w[0] <= 32 && Blank(w))
  }

  /** Where the whitespace ends in whose middle p is. */
  function SkipMore(t: Text, p: nat): nat
    requires p <= |t|
  {
    var q := EndOfRun(t, p);
    if CommentAt(t, q) then SkipWhite(t, EndOfComment(t, q + 2)) else q
  }

  predicate Stops(t: Text, p: nat) {
    p < |t| && !White(t[p]) && t[p] != SLASH
  }

  lemma AtRest(t: Text, p: nat, x: bytes)
    requires At(t, p, x) && x != []
    ensures p < |t| && t[p] == x[0] && At(t, p + 1, x[1..])
  {
    AtFirst(t, p, x);
    AtSplit(t, p, [x[0]], x[1..]) by { assert x == [x[0]] + x[1..]; }
  }

  lemma AtRest2(t: Text, p: nat, x: bytes)
    requires At(t, p, x) && |x| >= 2
    ensures p + 1 < |t| && t[p] == x[0] && t[p + 1] == x[1] && At(t, p + 2, x[2..])
  {
    AtRest(t, p, x);
    AtRest(t, p + 1, x[1..]);
    assert x[1..][1..] == x[2..];
  }

  lemma {:induction false} BlankOver(t: Text, p: nat, w: bytes)
    requires At(t, p, w) && Blank(w) && Stops(t, p + |w|)
    ensures p <= |t| && SkipMore(t, p) == p + |w|
    decreases |w|
  {
    hide At;
    if w != [] {
      AtRest(t, p, w);
      if w[0] == '/' as int {
        AtRest2(t, p, w);
        CommentOver(t, p + 2, w[2..]);
        assert EndOfRun(t, p) == p;
      } else {
        BlankOver(t, p + 1, w[1..]);
        assert EndOfRun(t, p) == EndOfRun(t, p + 1);
      }
    }
  }

  lemma LineSkipped(t: Text, p: nat)
    requires p < |t| && EndsLine(t[p])
    ensures SkipWhite(t, EndOfComment(t, p)) == SkipMore(t, p + 1)
  {}

  lemma {:induction false} CommentOver(t: Text, p: nat, w: bytes)
    requires At(t, p, w) && Comment(w) && Stops(t, p + |w|)
    ensures p < |t| && SkipWhite(t, EndOfComment(t, p)) == p + |w|
    decreases |w|
  {
    hide At;
    AtRest(t, p, w);
    if w[0] == 0 || w[0] == 10 || w[0] == 13 {
      BlankOver(t, p + 1, w[1..]);
      LineSkipped(t, p);
    } else {
      CommentOver(t, p + 1, w[1..]);
    }
  }

  lemma FillerOver(t: Text, p: nat, w: bytes)
    requires At(t, p, w) && Filler(w) && Stops(t, p + |w|)
    ensures SkipWhite(t, p) == p + |w|
  {
    if w != [] {
      AtFirst(t, p, w);
      BlankOver(t, p, w);
    }
  }

  lemma {:induction false} CommentTaken(t: Text, p: nat, q: nat)
    requires p < |t| && EndOfComment(t, p) < q <= |t| && Blank(t[EndOfComment(t, p) + 1..q])
    ensures Comment(t[p..q])
    decreases |t| - p
  {
    SliceHead(t, p, q);
    if !EndsLine(t[p]) {
      CommentTaken(t, p + 1, q);
    }
  }

  lemma {:induction false} RunTaken(t: Text, p: nat, q: nat)
    requires p <= |t| && EndOfRun(t, p) <= q <= |t| && Blank(t[EndOfRun(t, p)..q])
    ensures Blank(t[p..q])
    decreases |t| - p
  {
    if p < |t| && White(t[p]) {
      RunTaken(t, p + 1, q);
      SliceHead(t, p, q);
    }
  }

  lemma BlankComment(t: Text, r: nat, q: nat)
    requires CommentAt(t, r) && r + 2 <= q <= |t| && Comment(t[r + 2..q])
    ensures Blank(t[r..q])
  {
    assert t[r..q][2..] == t[r + 2..q];
  }

  /** Whatever is skipped is whitespace. */
  lemma {:induction false} FillerOnly(t: Text, p: nat)
    requires p <= |t| && SkipWhite(t, p) < |t|
    ensures Filler(t[p..SkipWhite(t, p)])
    decreases |t| - p
  {
    hide Blank, Comment;
    var q := SkipWhite(t, p);
    if p < q {
      var r := EndOfRun(t, p);
      if CommentAt(t, r) {
        var e := EndOfComment(t, r + 2);
        FillerOnly(t, e);
        LineEnds(t, e, q);
        CommentTaken(t, r + 2, q);
        BlankComment(t, r, q);
      } else {
        NothingBlank(t[r..q]);
      }
      RunTaken(t, p, q);
    }
  }

  lemma LineEnds(t: Text, e: nat, q: nat)
    requires e < q <= |t| && White(t[e]) && Filler(t[e..q])
    ensures Blank(t[e + 1..q])
  {
    SliceHead(t, e, q);
  }

  lemma NothingBlank(w: bytes)
    requires w == []
    ensures Blank(w)
  {}

  // ---- Containers.

  /** A container holds its items and, in front of its end, whitespace: behind the opening character when there is no
      item, behind a last comma when that is written. */
  datatype Shown = Leaf(x: Lexeme) | Container(isObject: bool, items: seq<Item>, comma: bool, inner: bytes)

  datatype Item = Item(before: bytes, key: Option<Name>, value: Shown, after: bytes)

  /** A key with the whitespace in front of its colon and behind it. */
  datatype Name = Name(ps: seq<Piece>, gap: bytes, colonGap: bytes)

  predicate WellName(k: Name) {
    WellPieces(k.ps) && Filler(k.gap) && Filler(k.colonGap)
  }

  predicate WellShown(s: Shown)
    decreases s
  {
    match s
    case Leaf(x) => WellLexeme(x)
    case Container(isObject, items, _, inner) =>
      Filler(inner) && forall i | 0 <= i < |items| :: WellItem(isObject, items[i])
  }

  predicate WellItem(isObject: bool, item: Item)
    decreases item
  {
    && Filler(item.before) && Filler(item.after)
    && (item.key.Some? <==> isObject)
    && (item.key.Some? ==> WellName(item.key.value))
    && WellShown(item.value)
  }

  predicate WellItems(isObject: bool, items: seq<Item>) {
    forall i | 0 <= i < |items| :: WellItem(isObject, items[i])
  }

  /** The tree a document in writing stands for. */
  function TreeOf(s: Shown): Tree
    requires WellShown(s)
    decreases s
  {
    match s
    case Leaf(x) => LexemeValue(x)
    case Container(isObject, items, _, _) => Node(isObject, ElemsOf(isObject, items))
  }

  function ElemOf(isObject: bool, item: Item): Elem<bytes>
    requires WellItem(isObject, item)
    decreases item
  {
    Elem(if isObject then Some(PiecesValue(item.key.value.ps)) else None, TreeOf(item.value))
  }

  function ElemsOf(isObject: bool, items: seq<Item>): (elems: seq<Elem<bytes>>)
    requires WellItems(isObject, items)
    ensures |elems| == |items|
    decreases items
  {
    seq(|items|, i requires 0 <= i < |items| => ElemOf(isObject, items[i]))
  }

  function KeyText(key: Option<Name>): bytes {
    if key.None? then []
    else StringText(key.value.ps) + (key.value.gap + ([':' as int] + key.value.colonGap))
  }

  function EndText(isObject: bool, comma: bool, inner: bytes): bytes {
    (if comma then [',' as int] + inner else []) + [if isObject then '}' as int else ']' as int]
  }

  /** Items without the whitespace in front of the first one, and the end of their container. */
  function ItemsText(items: seq<Item>, end: bytes): bytes
    requires items != []
    decreases items, 1
  {
    KeyText(items[0].key) + (TextOf(items[0].value) + (items[0].after + MoreText(items[1..], end)))
  }

  function MoreText(items: seq<Item>, end: bytes): bytes
    decreases items, 2
  {
    if items == [] then end else [',' as int] + (items[0].before + ItemsText(items, end))
  }

  /** A container behind its opening character. */
  function BodyText(isObject: bool, items: seq<Item>, comma: bool, inner: bytes): bytes
    decreases items, 3
  {
    if items == [] then inner + EndText(isObject, false, [])
    else items[0].before + ItemsText(items, EndText(isObject, comma, inner))
  }

  function TextOf(s: Shown): bytes
    decreases s
  {
    match s
    case Leaf(x) => LexemeText(x)
    case Container(isObject, items, comma, inner) =>
      [if isObject then '{' as int else '[' as int] + BodyText(isObject, items, comma, inner)
  }

  // ---- Reading containers.

  lemma AtHead(t: Text, p: nat, c: byte, x: bytes)
    requires At(t, p, [c] + x)
    ensures p < |t| && t[p] == c && At(t, p + 1, x) && p + 1 + |x| <= |t|
  {
    hide At;
    AtSplit(t, p, [c], x);
    AtFirst(t, p, [c]);
  }

  lemma AtSpace(t: Text, p: nat, w: bytes, x: bytes)
    requires At(t, p, w + x) && Filler(w) && x != [] && !White(x[0]) && x[0] != SLASH
    ensures SkipWhite(t, p) == p + |w| < |t| && t[p + |w|] == x[0] && At(t, p + |w|, x)
  {
    hide At, SkipWhite, Filler;
    AtSplit(t, p, w, x);
    AtFirst(t, p + |w|, x);
    FillerOver(t, p, w);
  }

  /** A character a value starts with: it is no whitespace, no comment, and neither a comma nor an end. */
  predicate StartsValue(c: byte) {
    !White(c) && c != SLASH && c != COMMA && c != 0x5D && c != 0x7D
  }

  lemma ShownStart(s: Shown)
    requires WellShown(s)
    ensures TextOf(s) != [] && StartsValue(TextOf(s)[0])
    ensures Opens(TextOf(s)[0]) <==> s.Container?
    ensures s.Container? ==> (TextOf(s)[0] == 0x7B <==> s.isObject)
  {
    hide LexemeText, WellLexeme;
    if s.Leaf? {
      LexemeStart(s.x);
    }
  }

  lemma ItemsStart(isObject: bool, items: seq<Item>, end: bytes)
    requires items != [] && WellItem(isObject, items[0])
    ensures ItemsText(items, end) != [] && StartsValue(ItemsText(items, end)[0])
  {
    hide TextOf, WellName, PiecesText;
    ShownStart(items[0].value);
  }

  lemma ColonBack(t: Text, q: nat, k: Name, x: bytes)
    requires WellName(k) && At(t, q, k.gap + ([COLON] + (k.colonGap + x))) && x != [] && StartsValue(x[0])
    ensures SkipWhite(t, q) == q + |k.gap| < |t| && t[q + |k.gap|] == COLON
    ensures SkipWhite(t, q + |k.gap| + 1) == q + |k.gap| + 1 + |k.colonGap| < |t|
    ensures At(t, q + |k.gap| + 1 + |k.colonGap|, x)
  {
    hide At, SkipWhite, Filler;
    AtSpace(t, q, k.gap, [COLON] + (k.colonGap + x));
    AtHead(t, q + |k.gap|, COLON, k.colonGap + x);
    AtSpace(t, q + |k.gap| + 1, k.colonGap, x);
  }

  function KeyValue(key: Option<Name>): Option<bytes>
    requires key.Some? ==> WellName(key.value)
  {
    if key.Some? then Some(PiecesValue(key.value.ps)) else None
  }

  lemma KeyParts(k: Name, x: bytes)
    ensures KeyText(Some(k)) + x == StringText(k.ps) + (k.gap + ([COLON] + (k.colonGap + x)))
    ensures |KeyText(Some(k))| == |StringText(k.ps)| + |k.gap| + 1 + |k.colonGap|
  {
    hide StringText;
  }

  lemma KeyScanned(t: Text, p: nat, name: bytes, q: nat, r: nat, v: nat)
    requires p < q < |t| && t[p] == QUOTE && p + 1 < |t| && ScanString(t, p + 1, []) == Ok(name, q)
    requires SkipWhite(t, q) == r < |t| && t[r] == COLON && SkipWhite(t, r + 1) == v < |t|
    ensures Key(t, p, true) == Ok(Some(name), v)
  {
    hide ScanString, SkipWhite;
  }

  lemma NoKey(x: bytes)
    ensures KeyText(None) + x == x && KeyText(None) == []
  {}

  lemma KeyBack(t: Text, p: nat, key: Option<Name>, x: bytes)
    requires (key.Some? ==> WellName(key.value)) && At(t, p, KeyText(key) + x)
    requires x != [] && StartsValue(x[0])
    ensures p < |t| && At(t, p + |KeyText(key)|, x)
    ensures Key(t, p, key.Some?) == Ok(KeyValue(key), p + |KeyText(key)|)
  {
    hide At, StringText, ScanString, SkipWhite, PiecesValue, Filler, KeyText, StartsValue;
    if key.Some? {
      hide Key;
      var k := key.value;
      var q := p + |StringText(k.ps)|;
      KeyParts(k, x);
      KeyParts(k, []);
      AtSplit(t, p, StringText(k.ps), k.gap + ([COLON] + (k.colonGap + x)));
      StringRead(t, p, k.ps);
      ColonBack(t, q, k, x);
      KeyScanned(t, p, PiecesValue(k.ps), q, q + |k.gap|, q + |k.gap| + 1 + |k.colonGap|);
    } else {
      NoKey(x);
      AtFirst(t, p, x);
    }
  }

  lemma EmptyBack(t: Text, p: nat, isObject: bool, inner: bytes)
    requires Filler(inner) && At(t, p, inner + EndText(isObject, false, [])) && p + |inner| + 1 < |t|
    ensures Rest(t, isObject, [], First, p) == Ok([], p + |inner| + 1)
  {
    hide At, SkipWhite, Rest, Filler;
    assert EndText(isObject, false, []) == [EndChar(isObject)];
    AtSpace(t, p, inner, [EndChar(isObject)]);
    RestOfEnd(t, isObject, [], First, p, p + |inner|);
  }

  /** A container in writing is read as its elements. */
  lemma {:induction false} ShownBack(t: Text, p: nat, s: Shown)
    requires s.Container? && WellShown(s) && At(t, p, TextOf(s)) && p + |TextOf(s)| < |t|
    ensures p < |t| && Opens(t[p]) && (t[p] == 0x7B <==> s.isObject)
    ensures Rest(t, s.isObject, [], First, p + 1) == Ok(TreeOf(s).elems, p + |TextOf(s)|)
    decreases s, 4
  {
    hide At, ItemsText, SkipWhite, Rest, Filler;
    var open: byte := if s.isObject then 0x7B else 0x5B;
    AtHead(t, p, open, BodyText(s.isObject, s.items, s.comma, s.inner));
    if s.items == [] {
      EmptyBack(t, p + 1, s.isObject, s.inner);
    } else {
      var before, end := s.items[0].before, EndText(s.isObject, s.comma, s.inner);
      assert WellItem(s.isObject, s.items[0]);
      ItemsStart(s.isObject, s.items, end);
      AtSpace(t, p + 1, before, ItemsText(s.items, end));
      RestOfFirst(t, s.isObject, [], p + 1, p + 1 + |before|);
      ItemsBack(t, p + 1 + |before|, s.isObject, s.items, s.comma, s.inner, []);
      assert [] + ElemsOf(s.isObject, s.items) == ElemsOf(s.isObject, s.items);
    }
  }

  lemma ElemsSplit(isObject: bool, items: seq<Item>)
    requires WellItems(isObject, items) && items != []
    ensures WellItem(isObject, items[0]) && WellItems(isObject, items[1..])
    ensures ElemsOf(isObject, items) == [ElemOf(isObject, items[0])] + ElemsOf(isObject, items[1..])
  {
    hide WellItem, ElemOf;
  }

  lemma {:induction false} ItemsBack(t: Text, q: nat, isObject: bool, items: seq<Item>, comma: bool, inner: bytes,
                                     elems: seq<Elem<bytes>>)
    requires items != [] && WellItems(isObject, items) && Filler(inner)
    requires At(t, q, ItemsText(items, EndText(isObject, comma, inner)))
    requires q + |ItemsText(items, EndText(isObject, comma, inner))| < |t|
    ensures Element(t, isObject, elems, q) ==
            Ok(elems + ElemsOf(isObject, items), q + |ItemsText(items, EndText(isObject, comma, inner))|)
    decreases items, 1
  {
    hide At, MoreText, Key, Element, Scalar, Rest, KeyText, EndText, Filler, ElemsOf, TextOf;
    var item, end := items[0], EndText(isObject, comma, inner);
    ElemsSplit(isObject, items);
    var more := items[1..];
    var x, y := TextOf(item.value), item.after + MoreText(more, end);
    ShownStart(item.value);
    KeyBack(t, q, item.key, x + y);
    var r := q + |KeyText(item.key)|;
    AtSplit(t, r, x, y);
    AtFirst(t, r, x);
    AfterStart(isObject, item.after, more, comma, inner);
    AtFirst(t, r + |x|, y);
    var elem := ElemOf(isObject, item);
    ValueBack(t, isObject, elems, q, item, r);
    MoreBack(t, r + |x|, isObject, item.after, more, comma, inner, elems + [elem],
             if item.value.Container? then AfterNode else AfterScalar);
    assert elems + [elem] + ElemsOf(isObject, more) == elems + ElemsOf(isObject, items);
  }

  lemma {:induction false} ValueBack(t: Text, isObject: bool, elems: seq<Elem<bytes>>, q: nat, item: Item, r: nat)
    requires WellItem(isObject, item) && At(t, r, TextOf(item.value)) && q <= r && r + |TextOf(item.value)| < |t|
    requires EndsNumber(t[r + |TextOf(item.value)|])
    requires q < |t| && Key(t, q, isObject) == Ok(KeyValue(item.key), r)
    ensures Element(t, isObject, elems, q) ==
            Rest(t, isObject, elems + [ElemOf(isObject, item)],
                 if item.value.Container? then AfterNode else AfterScalar, r + |TextOf(item.value)|)
    decreases item
  {
    hide At, Key, Element, Scalar, Rest, Filler, ElemsOf, LexemeValue, LexemeText, WellLexeme, PiecesValue;
    var elem := ElemOf(isObject, item);
    assert elem == Elem(KeyValue(item.key), TreeOf(item.value));
    if item.value.Container? {
      ShownBack(t, r, item.value);
      ElementOfNode(t, isObject, elems, q, elem.key, r, elem.value.elems, r + |TextOf(item.value)|);
    } else {
      LexemeRead(t, r, item.value.x);
      ElementOfScalar(t, isObject, elems, q, elem.key, r, elem.value, r + |TextOf(item.value)|);
    }
  }

  /** What follows a value does not continue a number. */
  lemma AfterStart(isObject: bool, after: bytes, items: seq<Item>, comma: bool, inner: bytes)
    requires Filler(after)
    ensures var y := after + MoreText(items, EndText(isObject, comma, inner));
            y != [] && EndsNumber(y[0])
  {
    hide Blank, ItemsText;
  }

  lemma {:induction false} MoreBack(t: Text, r: nat, isObject: bool, after: bytes, items: seq<Item>, comma: bool,
                                    inner: bytes, elems: seq<Elem<bytes>>, prev: Prev)
    requires WellItems(isObject, items) && Filler(after) && Filler(inner) && prev != First
    requires At(t, r, after + MoreText(items, EndText(isObject, comma, inner)))
    requires r + |after + MoreText(items, EndText(isObject, comma, inner))| < |t|
    ensures Rest(t, isObject, elems, prev, r) ==
            Ok(elems + ElemsOf(isObject, items), r + |after + MoreText(items, EndText(isObject, comma, inner))|)
    decreases items, 2
  {
    hide At, SkipWhite, Rest, Element, Filler, ItemsText;
    var end := EndText(isObject, comma, inner);
    AtSpace(t, r, after, MoreText(items, end));
    var q := r + |after|;
    if items != [] {
      var before := items[0].before;
      assert WellItem(isObject, items[0]);
      AtHead(t, q, COMMA, before + ItemsText(items, end));
      ItemsStart(isObject, items, end);
      AtSpace(t, q + 1, before, ItemsText(items, end));
      RestOfComma(t, isObject, elems, prev, r, q, q + 1 + |before|);
      ItemsBack(t, q + 1 + |before|, isObject, items, comma, inner, elems);
    } else {
      assert elems + ElemsOf(isObject, items) == elems;
      if comma {
        assert end == [COMMA] + (inner + [EndChar(isObject)]);
        AtHead(t, q, COMMA, inner + [EndChar(isObject)]);
        AtSpace(t, q + 1, inner, [EndChar(isObject)]);
        RestOfComma(t, isObject, elems, prev, r, q, q + 1 + |inner|);
      } else {
        RestOfEnd(t, isObject, elems, prev, r, q);
      }
    }
  }

  // ---- Whole documents.

  /** Whitespace around a document, where comments need none in front of them. The comment that is last needs no end of
      its line. */
  predicate Outside(w: bytes, last: bool)
    decreases |w|
  {
    w == [] ||
    if w[0] == '/' as int then |w| >= 2 && w[1] == '/' as int && Remark(w[2..], last)
    else 0 < w[0] <= 32 && Outside(w[1..], last)
  }

  predicate Remark(w: bytes, last: bool)
    decreases |w|
  {
    if w == [] then last
    else w[0] != 0 && if w[0] == 10 || w[0] == 13 then Outside(w[1..], last) else Remark(w[1..], last)
  }

  lemma {:induction false} OutsideOver(t: Text, p: nat, w: bytes, last: bool)
    requires At(t, p, w) && Outside(w, last) && p + |w| < |t|
    requires if last then t[p + |w|] == 0 else Stops(t, p + |w|)
    ensures SkipOutside(t, p) == p + |w|
    decreases |w|
  {
    hide At;
    if w != [] {
      AtRest(t, p, w);
      if w[0] == '/' as int {
        AtRest2(t, p, w);
        RemarkOver(t, p + 2, w[2..], last);
      } else {
        OutsideOver(t, p + 1, w[1..], last);
      }
    }
  }

  lemma {:induction false} RemarkOver(t: Text, p: nat, w: bytes, last: bool)
    requires At(t, p, w) && Remark(w, last) && p + |w| < |t|
    requires if last then t[p + |w|] == 0 else Stops(t, p + |w|)
    ensures SkipOutside(t, EndOfComment(t, p)) == p + |w|
    decreases |w|
  {
    hide At;
    if w != [] {
      AtRest(t, p, w);
      if w[0] == 10 || w[0] == 13 {
        OutsideOver(t, p + 1, w[1..], last);
      } else {
        RemarkOver(t, p + 1, w[1..], last);
      }
    }
  }

  /** A text that holds a container between whitespace, up to a zero byte. */
  predicate Document(t: Text, before: bytes, s: Shown, after: bytes) {
    && Outside(before, false) && Outside(after, true) && s.Container? && WellShown(s)
    && At(t, 0, before + (TextOf(s) + (after + [0])))
  }

  /** Every document in writing is read as the tree it stands for. */
  lemma DocumentRead(t: Text, before: bytes, s: Shown, after: bytes)
    requires Document(t, before, s, after)
    ensures ParseDocument(t) == Ok(TreeOf(s), |before| + |TextOf(s)| + |after|)
  {
    hide At, Outside, WellShown, TextOf, SkipOutside, Rest;
    var p, q := |before|, |before| + |TextOf(s)|;
    ShownStart(s);
    AtSplit(t, 0, before, TextOf(s) + (after + [0]));
    AtSplit(t, p, TextOf(s), after + [0]);
    AtFirst(t, p, TextOf(s));
    AtSplit(t, q, after, [0]);
    AtFirst(t, q + |after|, [0]);
    OutsideOver(t, 0, before, false);
    OutsideOver(t, q, after, true);
    ShownBack(t, p, s);
    assert TreeOf(s) == Node(s.isObject, TreeOf(s).elems);
  }
}
