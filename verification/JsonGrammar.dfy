/** The documents the JSON reader accepts, as a recursive descent over the text, and what it makes of them. */
module JsonGrammar {
  import opened Codec
  import opened JsonText
  import opened Wrappers

  /** A tree whose strings are of type S: byte strings in a document, places in the text while it is read.
      Elements of objects have a key, elements of arrays have none. */
  datatype Value<+S> =
    | Null
    | Bool(b: bool)
    | Int(n: int64)
    | Double(lexeme: S)
    | Str(s: S)
    | Node(isObject: bool, elems: seq<Elem<S>>)

  datatype Elem<+S> = Elem(key: Option<S>, value: Value<S>)

  type Tree = Value<bytes>

  /** What was read last inside the container: it decides which error a missing comma is. */
  datatype Prev = First | AfterScalar | AfterNode

  function EndChar(isObject: bool): byte {
    if isObject then 0x7D else 0x5D
  }

  predicate Opens(c: byte) {
    c == 0x7B || c == 0x5B
  }

  /** The text continues with a word; as the word has no zero byte, the text does not end with it. */
  predicate Letters(t: Text, p: nat, word: bytes)
    requires word != [] && word[|word| - 1] != 0
    ensures Letters(t, p, word) ==> p + |word| < |t|
  {
    p + |word| <= |t| && t[p..p + |word|] == word && (assert t[p + |word| - 1] == word[|word| - 1]; true)
  }

  const NULL_TEXT: bytes := [0x6E, 0x75, 0x6C, 0x6C]
  const TRUE_TEXT: bytes := [0x74, 0x72, 0x75, 0x65]
  const FALSE_TEXT: bytes := [0x66, 0x61, 0x6C, 0x73, 0x65]

  /** A value that is not a container. */
  function Scalar(t: Text, p: nat): (o: Outcome<Tree>)
    requires p < |t| && !Opens(t[p])
    ensures Inside(o, t, p) && !o.Overrun?
  {
    var c := t[p];
    if c == QUOTE then
      match ScanString(t, p + 1, [])
      case Ok(s, q) => Ok(Str(s), q)
      case Err(e, q) => Err(e, q)
      case Overrun => Overrun
    else if c == 'n' as int then
      if Letters(t, p, NULL_TEXT) then Ok(Null, p + 4) else Err(UnrecognizedCharacter, p)
    else if c == 't' as int then
      if Letters(t, p, TRUE_TEXT) then Ok(Bool(true), p + 4) else Err(UnrecognizedCharacter, p)
    else if c == 'f' as int then
      if Letters(t, p, FALSE_TEXT) then Ok(Bool(false), p + 5) else Err(UnrecognizedCharacter, p)
    else if Digit(c) || c == MINUS || c == DOT then
      match ScanNumber(t, p)
      case Ok(Whole(n), q) => Ok(Int(n), q)
      case Ok(Real(x), q) => Ok(Double(x), q)
      case Err(e, q) => Err(e, q)
      case Overrun => Overrun
    else Err(UnrecognizedCharacter, p)
  }

  /** A key with its colon, up to the first character of the value; array elements have no key. */
  function Key(t: Text, p: nat, isObject: bool): (o: Outcome<Option<bytes>>)
    requires p < |t|
    ensures match o
            case Ok(k, q) => p <= q < |t| && (k.Some? <==> isObject)
            case Err(_, q) => p <= q <= |t|
            case Overrun => true
    ensures o.Ok? && o.value.Some? ==> NulFree(o.value.value)
  {
    if !isObject then Ok(None, p)
    else if t[p] != QUOTE then Err(ExpectedKey, p)
    else
      match ScanString(t, p + 1, [])
      case Ok(k, q) =>
        ScannedNulFree(t, p + 1, []);
        var r := SkipWhite(t, q);
        if r == |t| then Overrun
        else if t[r] != COLON then Err(MissingColon, r)
        else
          var s := SkipWhite(t, r + 1);
          if s == |t| then Overrun else Ok(Some(k), s)
      case Err(e, q) => Err(e, q)
      case Overrun => Overrun
  }

  /** The rest of a container whose first elements are elems; prev says what the last of them was.
      A comma may stand before the end character. */
  function Rest(t: Text, isObject: bool, elems: seq<Elem<bytes>>, prev: Prev, p: nat): (o: Outcome<seq<Elem<bytes>>>)
    requires p < |t|
    ensures Inside(o, t, p)
    decreases |t| - p, 2
  {
    var q := SkipWhite(t, p);
    if q == |t| then Overrun
    else if prev == First then
      if t[q] == COMMA then Err(UnexpectedComma, q) else ElementOrEnd(t, isObject, elems, q)
    else if t[q] == COMMA then
      var r := SkipWhite(t, q + 1);
      if r == |t| then Overrun else ElementOrEnd(t, isObject, elems, r)
    else if t[q] == EndChar(isObject) then Ok(elems, q + 1)
    else if prev == AfterScalar then Err(ExpectedCommaOrEnd, q)
    else Err(UnexpectedCharacter, q + 1)
  }

  /** After a comma: the container may end, or another element follows. */
  function ElementOrEnd(t: Text, isObject: bool, elems: seq<Elem<bytes>>, p: nat): (o: Outcome<seq<Elem<bytes>>>)
    requires p < |t|
    ensures Inside(o, t, p)
    decreases |t| - p, 1
  {
    if t[p] == EndChar(isObject) then Ok(elems, p + 1) else Element(t, isObject, elems, p)
  }

  /** An element that starts at p, and the rest of the container. */
  function Element(t: Text, isObject: bool, elems: seq<Elem<bytes>>, p: nat): (o: Outcome<seq<Elem<bytes>>>)
    requires p < |t|
    ensures Inside(o, t, p)
    decreases |t| - p, 0
  {
    match Key(t, p, isObject)
    case Err(e, q) => Err(e, q)
    case Overrun => Overrun
    case Ok(key, q) =>
      if Opens(t[q]) then
        var childIsObject := t[q] == 0x7B;
        match Rest(t, childIsObject, [], First, q + 1)
        case Ok(children, r) => Rest(t, isObject, elems + [Elem(key, Node(childIsObject, children))], AfterNode, r)
        case Err(e, r) => Err(e, r)
        case Overrun => Overrun
      else
        match Scalar(t, q)
        case Ok(v, r) => Rest(t, isObject, elems + [Elem(key, v)], AfterScalar, r)
        case Err(e, r) => Err(e, r)
        case Overrun => Overrun
  }

  lemma RestOfFirst(t: Text, isObject: bool, elems: seq<Elem<bytes>>, p: nat, q: nat)
    requires p <= q < |t| && SkipWhite(t, p) == q && t[q] != COMMA
    ensures Rest(t, isObject, elems, First, p) ==
            if t[q] == EndChar(isObject) then Ok(elems, q + 1) else Element(t, isObject, elems, q)
  {
    hide Element, SkipWhite;
  }

  lemma RestOfEnd(t: Text, isObject: bool, elems: seq<Elem<bytes>>, prev: Prev, p: nat, q: nat)
    requires p <= q < |t| && SkipWhite(t, p) == q && t[q] == EndChar(isObject)
    ensures Rest(t, isObject, elems, prev, p) == Ok(elems, q + 1)
  {
    hide Element, SkipWhite;
  }

  lemma RestOfComma(t: Text, isObject: bool, elems: seq<Elem<bytes>>, prev: Prev, p: nat, q: nat, r: nat)
    requires prev != First && p <= q < r < |t|
    requires SkipWhite(t, p) == q && t[q] == COMMA && SkipWhite(t, q + 1) == r
    ensures Rest(t, isObject, elems, prev, p) ==
            if t[r] == EndChar(isObject) then Ok(elems, r + 1) else Element(t, isObject, elems, r)
  {
    hide Element, SkipWhite;
  }

  lemma ElementOfNode(t: Text, isObject: bool, elems: seq<Elem<bytes>>, p: nat, key: Option<bytes>, q: nat,
                      children: seq<Elem<bytes>>, r: nat)
    requires p <= q < |t| && Key(t, p, isObject) == Ok(key, q) && Opens(t[q])
    requires Rest(t, t[q] == 0x7B, [], First, q + 1) == Ok(children, r)
    ensures Element(t, isObject, elems, p) ==
            Rest(t, isObject, elems + [Elem(key, Node(t[q] == 0x7B, children))], AfterNode, r)
  {
    hide Key, Rest;
  }

  lemma ElementOfScalar(t: Text, isObject: bool, elems: seq<Elem<bytes>>, p: nat, key: Option<bytes>, q: nat,
                        v: Tree, r: nat)
    requires p <= q < |t| && Key(t, p, isObject) == Ok(key, q) && !Opens(t[q])
    requires Scalar(t, q) == Ok(v, r)
    ensures Element(t, isObject, elems, p) == Rest(t, isObject, elems + [Elem(key, v)], AfterScalar, r)
  {
    hide Key, Rest, Scalar;
  }

  lemma ElementOfFailure(t: Text, isObject: bool, elems: seq<Elem<bytes>>, p: nat, key: Option<bytes>, q: nat,
                         e: Error, r: nat)
    requires p <= q < |t| && Key(t, p, isObject) == Ok(key, q) && !Opens(t[q])
    requires Scalar(t, q) == Err(e, r)
    ensures Element(t, isObject, elems, p) == Err(e, r)
  {
    hide Key, Rest, Scalar;
  }

  /** A container closed at p is the document when nothing but whitespace follows it. */
  function Closed(t: Text, root: Outcome<Tree>): Outcome<Tree>
    requires Inside(root, t, 0)
  {
    if !root.Ok? then root
    else
      var end := SkipOutside(t, root.pos);
      if t[end] == 0 then Ok(root.value, end) else Err(DataAfterDocument, end)
  }

  function Root(t: Text, p: nat): (o: Outcome<Tree>)
    requires p < |t| && Opens(t[p])
    ensures Inside(o, t, p)
  {
    var isObject := t[p] == 0x7B;
    match Rest(t, isObject, [], First, p + 1)
    case Ok(elems, q) => Ok(Node(isObject, elems), q)
    case Err(e, q) => Err(e, q)
    case Overrun => Overrun
  }

  function ParseDocument(t: Text): Outcome<Tree> {
    var p := SkipOutside(t, 0);
    if t[p] == 0 then Err(NothingToDeserialize, p)
    else if !Opens(t[p]) then Err(RootNotContainer, p)
    else Closed(t, Root(t, p))
  }

  // ---- What every document that was read satisfies.

  predicate NoDoubles<S>(v: Value<S>) {
    match v
    case Double(_) => false
    case Node(_, elems) => forall i | 0 <= i < |elems| :: NoDoubles(elems[i].value)
    case _ => true
  }

  /** Strings and keys free of zero bytes, integers within the bound, keys exactly in objects. */
  predicate Readable(v: Tree)
    decreases v
  {
    match v
    case Null => true
    case Bool(_) => true
    case Int(n) => -MAX_READ <= n <= MAX_READ
    case Double(_) => true
    case Str(s) => NulFree(s)
    case Node(isObject, elems) => forall i | 0 <= i < |elems| :: ReadableElem(isObject, elems[i])
  }

  predicate ReadableElem(isObject: bool, e: Elem<bytes>)
    decreases e
  {
    && (e.key.Some? <==> isObject)
    && (e.key.Some? ==> NulFree(e.key.value))
    && Readable(e.value)
  }

  predicate AllReadable(isObject: bool, elems: seq<Elem<bytes>>) {
    forall i | 0 <= i < |elems| :: ReadableElem(isObject, elems[i])
  }

  lemma ScalarReadable(t: Text, p: nat)
    requires p < |t| && !Opens(t[p])
    ensures Scalar(t, p).Ok? ==> Readable(Scalar(t, p).value)
  {
    if t[p] == QUOTE {
      ScannedNulFree(t, p + 1, []);
    }
  }

  lemma AppendReadable(isObject: bool, elems: seq<Elem<bytes>>, key: Option<bytes>, v: Tree)
    requires AllReadable(isObject, elems) && Readable(v)
    requires (key.Some? <==> isObject) && (key.Some? ==> NulFree(key.value))
    ensures AllReadable(isObject, elems + [Elem(key, v)])
  {
    hide Readable;
  }

  lemma {:induction false} RestReadable(t: Text, isObject: bool, elems: seq<Elem<bytes>>, prev: Prev, p: nat)
    requires p < |t| && AllReadable(isObject, elems)
    ensures var o := Rest(t, isObject, elems, prev, p);
            o.Ok? ==> AllReadable(isObject, o.value)
    decreases |t| - p, 1
  {
    hide AllReadable, SkipWhite, Element;
    var q := SkipWhite(t, p);
    if q < |t| {
      var r := if prev == First || t[q] != COMMA then q else SkipWhite(t, q + 1);
      if r < |t| {
        ElementReadable(t, isObject, elems, r);
      }
    }
  }

  lemma {:induction false} ElementReadable(t: Text, isObject: bool, elems: seq<Elem<bytes>>, p: nat)
    requires p < |t| && AllReadable(isObject, elems)
    ensures var o := Element(t, isObject, elems, p);
            o.Ok? ==> AllReadable(isObject, o.value)
    decreases |t| - p, 0
  {
    hide AllReadable, Key, Scalar, Rest, Readable;
    var k := Key(t, p, isObject);
    if k.Ok? {
      var q := k.pos;
      if Opens(t[q]) {
        var childIsObject := t[q] == 0x7B;
        assert AllReadable(childIsObject, []) by { NothingReadable(childIsObject); }
        RestReadable(t, childIsObject, [], First, q + 1);
        var o := Rest(t, childIsObject, [], First, q + 1);
        if o.Ok? {
          NodeReadable(childIsObject, o.value);
          AppendReadable(isObject, elems, k.value, Node(childIsObject, o.value));
          RestReadable(t, isObject, elems + [Elem(k.value, Node(childIsObject, o.value))], AfterNode, o.pos);
        }
      } else {
        ScalarReadable(t, q);
        var o := Scalar(t, q);
        if o.Ok? {
          AppendReadable(isObject, elems, k.value, o.value);
          RestReadable(t, isObject, elems + [Elem(k.value, o.value)], AfterScalar, o.pos);
        }
      }
    }
  }

  lemma NothingReadable(isObject: bool)
    ensures AllReadable(isObject, [])
  {}

  lemma NodeReadable(isObject: bool, elems: seq<Elem<bytes>>)
    ensures Readable(Node(isObject, elems)) <==> AllReadable(isObject, elems)
  {}

  /** Whatever was read is readable again: a document never contains a zero byte in a string, not even from an
      escape, nor an integer beyond the bound. */
  lemma DocumentReadable(t: Text)
    ensures var o := ParseDocument(t);
            o.Ok? ==> o.value.Node? && Readable(o.value)
  {
    var p := SkipOutside(t, 0);
    hide Rest, SkipOutside;
    if Opens(t[p]) {
      RestReadable(t, t[p] == 0x7B, [], First, p + 1);
    }
  }
}
