/** The two layouts the JSON writer produces, and the round trip of whole documents. */
module JsonFormat {
  import opened Codec
  import opened JsonText
  import opened JsonGrammar
  import opened JsonLexemes
  import opened JsonLayout
  import opened JsonPrinting
  import opened Wrappers

  const TAB: byte := 9
  const MAX_LINE: nat := 100

  function Tabs(n: nat): (b: bytes)
    ensures |b| == n
  {
    seq(n, _ => TAB)
  }

  predicate HasChildren(elems: seq<Elem<bytes>>) {
    exists i | 0 <= i < |elems| :: elems[i].value.Node?
  }

  /** Where the writer stands in an array of scalars: the whitespace it has put before the next element, and the
      length of the current line. */
  datatype Line = Line(before: bytes, column: nat)

  const FIRST_LINE := Line([SPACE], 2)

  function NextLine(line: Line, v: Tree, indent: nat): Line {
    var column := line.column + |ScalarText(v)| + 2;
    if column > MAX_LINE then Line([SPACE, LF] + Tabs(indent + 1), 0) else Line([SPACE], column)
  }

  /** A key as it is printed, with the same whitespace on both sides of the colon. */
  function KeyName(key: Option<bytes>, gap: bytes): Option<Name> {
    if key.Some? then Some(Name(EscapedPieces(key.value), gap, gap)) else None
  }

  function LineItem(line: Line, e: Elem<bytes>, last: bool): Item {
    Item(line.before, KeyName(e.key, []), Leaf(Spelled(e.value)), if last then [SPACE] else [])
  }

  /** The elements of an array of scalars, laid out in lines. */
  function LineItems(elems: seq<Elem<bytes>>, line: Line, indent: nat): (items: seq<Item>)
    ensures |items| == |elems|
  {
    if elems == [] then []
    else [LineItem(line, elems[0], |elems| == 1)] +
         LineItems(elems[1..], NextLine(line, elems[0].value, indent), indent)
  }

  /** An element on a line of its own when formatted. */
  function NodeItem(key: Option<bytes>, value: Shown, formatted: bool, indent: nat, last: bool): Item {
    Item(if formatted then [LF] + Tabs(indent + 1) else [],
         KeyName(key, if formatted then [SPACE] else []),
         value,
         if formatted && last then [LF] + Tabs(indent) else [])
  }

  function Format(v: Tree, formatted: bool, indent: nat): Shown {
    if !v.Node? then Leaf(Spelled(v))
    else if v.elems == [] then Container(v.isObject, [], false, if formatted then [SPACE] else [])
    else if formatted && !v.isObject && !HasChildren(v.elems) then
      Container(false, LineItems(v.elems, FIRST_LINE, indent), false, [])
    else
      var n := |v.elems|;
      Container(v.isObject,
                seq(n, i requires 0 <= i < n =>
                  NodeItem(v.elems[i].key, Format(v.elems[i].value, formatted, indent + 1),
                           formatted, indent, i == n - 1)),
                false, [])
  }

  function Serialized(v: Tree, formatted: bool, nullTerminate: bool, indent: nat): bytes {
    (if formatted then Tabs(indent) else []) +
    (TextOf(Format(v, formatted, indent)) +
     ((if formatted && v.Node? then [LF] else []) + (if nullTerminate then [0] else [])))
  }

  /** Keys exactly in objects: how the elements of a tree are stored. */
  predicate Keyed(v: Tree)
    decreases v
  {
    v.Node? ==> forall i | 0 <= i < |v.elems| :: KeyedElem(v.isObject, v.elems[i])
  }

  predicate KeyedElem(isObject: bool, e: Elem<bytes>)
    decreases e
  {
    (e.key.Some? <==> isObject) && Keyed(e.value)
  }

  // ---- A layout of a tree is a layout of that tree.

  lemma {:induction false} TabsBlank(n: nat)
    ensures Blank(Tabs(n)) && Outside(Tabs(n), false)
  {
    if n > 0 {
      TabsBlank(n - 1);
      assert Tabs(n)[1..] == Tabs(n - 1);
    }
  }

  lemma LineFiller(n: nat)
    ensures Filler([LF] + Tabs(n)) && Filler([SPACE, LF] + Tabs(n))
  {
    TabsBlank(n);
    assert ([LF] + Tabs(n))[1..] == Tabs(n);
    assert ([SPACE, LF] + Tabs(n))[1..] == [LF] + Tabs(n);
  }

  lemma SpaceFiller()
    ensures Filler([]) && Filler([SPACE])
  {}

  lemma EndOutside()
    ensures Outside([], false) && Outside([], true) && Outside([LF], true)
  {
    assert [LF][1..] == [];
  }

  lemma NextLineFiller(line: Line, v: Tree, indent: nat)
    ensures Filler(NextLine(line, v, indent).before)
  {
    hide ScalarText, Filler;
    LineFiller(indent + 1);
    SpaceFiller();
  }

  /** An element of a container of this kind that can be read again. */
  lemma KeyNameWell(isObject: bool, e: Elem<bytes>, gap: bytes)
    requires ReadableElem(isObject, e) && Filler(gap)
    ensures var k := KeyName(e.key, gap);
            && (k.Some? <==> isObject)
            && (k.Some? ==> WellName(k.value) && Some(PiecesValue(k.value.ps)) == e.key)
  {
    hide Filler, WellPieces, PiecesValue, EscapedPieces, Readable;
    if e.key.Some? {
      EscapedValues(e.key.value);
    }
  }

  predicate ItemFor(isObject: bool, item: Item, e: Elem<bytes>) {
    WellItem(isObject, item) && ElemOf(isObject, item) == e
  }

  lemma LeafFor(v: Tree)
    requires !v.Node? && NoDoubles(v) && Readable(v)
    ensures WellShown(Leaf(Spelled(v))) && TreeOf(Leaf(Spelled(v))) == v
  {
    SpelledValue(v);
  }

  lemma LineItemFor(line: Line, isObject: bool, e: Elem<bytes>, last: bool)
    requires ReadableElem(isObject, e) && !e.value.Node? && NoDoubles(e.value) && Filler(line.before)
    ensures ItemFor(isObject, LineItem(line, e, last), e)
  {
    hide Filler, WellName, PiecesValue, WellShown, TreeOf, Spelled;
    SpaceFiller();
    KeyNameWell(isObject, e, []);
    LeafFor(e.value);
  }

  lemma {:induction false} LineItemAt(elems: seq<Elem<bytes>>, isObject: bool, line: Line, indent: nat, i: nat)
    requires i < |elems| && Filler(line.before)
    requires ReadableElem(isObject, elems[i]) && !elems[i].value.Node? && NoDoubles(elems[i].value)
    ensures ItemFor(isObject, LineItems(elems, line, indent)[i], elems[i])
  {
    hide NextLine, LineItem, Filler, ItemFor, ReadableElem;
    if i == 0 {
      LineItemFor(line, isObject, elems[0], |elems| == 1);
    } else {
      var next := NextLine(line, elems[0].value, indent);
      NextLineFiller(line, elems[0].value, indent);
      LineItemAt(elems[1..], isObject, next, indent, i - 1);
    }
  }

  lemma NodeItemFor(isObject: bool, e: Elem<bytes>, value: Shown, formatted: bool, indent: nat, last: bool)
    requires ReadableElem(isObject, e) && WellShown(value) && TreeOf(value) == e.value
    ensures ItemFor(isObject, NodeItem(e.key, value, formatted, indent, last), e)
  {
    hide Filler, WellName, PiecesValue, WellShown, TreeOf, Readable;
    SpaceFiller();
    LineFiller(indent);
    LineFiller(indent + 1);
    KeyNameWell(isObject, e, if formatted then [SPACE] else []);
  }

  lemma ContainerFor(isObject: bool, items: seq<Item>, inner: bytes, elems: seq<Elem<bytes>>)
    requires Filler(inner) && |items| == |elems| && forall i | 0 <= i < |elems| :: ItemFor(isObject, items[i], elems[i])
    ensures var s := Container(isObject, items, false, inner);
            WellShown(s) && TreeOf(s) == Node(isObject, elems)
  {
    hide WellItem, ElemOf, Filler;
    assert WellItems(isObject, items);
    assert ElemsOf(isObject, items) == elems;
  }

  /** The layout of a tree stands for that tree. */
  lemma {:induction false} FormatTree(v: Tree, formatted: bool, indent: nat)
    requires NoDoubles(v) && Readable(v)
    ensures WellShown(Format(v, formatted, indent)) && TreeOf(Format(v, formatted, indent)) == v
    decreases v
  {
    hide LineItems, NodeItem, Filler, ItemFor, WellShown, TreeOf;
    var s := Format(v, formatted, indent);
    SpaceFiller();
    if !v.Node? {
      LeafFor(v);
    } else {
      forall i | 0 <= i < |v.elems| ensures ItemFor(v.isObject, s.items[i], v.elems[i]) {
        assert ReadableElem(v.isObject, v.elems[i]);
        if formatted && !v.isObject && !HasChildren(v.elems) {
          LineItemAt(v.elems, v.isObject, FIRST_LINE, indent, i);
        } else {
          var child := Format(v.elems[i].value, formatted, indent + 1);
          FormatTree(v.elems[i].value, formatted, indent + 1);
          NodeItemFor(v.isObject, v.elems[i], child, formatted, indent, i == |v.elems| - 1);
        }
      }
      ContainerFor(v.isObject, s.items, s.inner, v.elems);
    }
  }

  // ---- Whole documents.

  predicate ReadsBack(v: Tree, formatted: bool, indent: nat) {
    var o := ParseDocument(Serialized(v, formatted, true, indent));
    o.Ok? && o.value == v
  }

  lemma AtStart(t: Text)
    ensures At(t, 0, t)
  {}

  lemma FormatContainer(v: Tree, formatted: bool, indent: nat)
    requires v.Node?
    ensures Format(v, formatted, indent).Container?
  {}

  /** What is written for a readable tree is a document in writing that stands for the tree. */
  lemma SerializedDocument(v: Tree, formatted: bool, indent: nat)
    requires v.Node? && NoDoubles(v) && Readable(v)
    ensures Document(Serialized(v, formatted, true, indent), if formatted then Tabs(indent) else [],
                     Format(v, formatted, indent), if formatted then [LF] else [])
  {
    hide Format, WellShown, TreeOf, TextOf, At, Readable, NoDoubles;
    FormatContainer(v, formatted, indent);
    FormatTree(v, formatted, indent);
    TabsBlank(indent);
    EndOutside();
    AtStart(Serialized(v, formatted, true, indent));
  }

  lemma ReadableReadsBack(v: Tree, formatted: bool, indent: nat)
    requires v.Node? && NoDoubles(v) && Readable(v)
    ensures ReadsBack(v, formatted, indent)
  {
    hide Format, TextOf, TreeOf, WellShown, Outside, At, Readable, NoDoubles, ParseDocument;
    FormatTree(v, formatted, indent);
    SerializedDocument(v, formatted, indent);
    DocumentRead(Serialized(v, formatted, true, indent), if formatted then Tabs(indent) else [],
                 Format(v, formatted, indent), if formatted then [LF] else []);
  }

  /** A tree that is written, compact or formatted, and read again comes back unchanged exactly when its root is
      an object or an array, no string holds a zero byte, and no integer exceeds the bound of the reader. */
  lemma WriteThenRead(v: Tree, formatted: bool, indent: nat)
    requires NoDoubles(v)
    ensures ReadsBack(v, formatted, indent) <==> v.Node? && Readable(v)
  {
    if v.Node? && Readable(v) {
      ReadableReadsBack(v, formatted, indent);
    }
    DocumentReadable(Serialized(v, formatted, true, indent));
  }

  /** Whatever text was read, writing its tree and reading that again changes nothing. */
  lemma ReadThenWrite(t: Text, formatted: bool, indent: nat)
    requires ParseDocument(t).Ok? && NoDoubles(ParseDocument(t).value)
    ensures ReadsBack(ParseDocument(t).value, formatted, indent)
  {
    DocumentReadable(t);
    WriteThenRead(ParseDocument(t).value, formatted, indent);
  }

  /** A 64-bit integer written in decimal is read back as that integer exactly when its magnitude is at most ten
      times the threshold plus nine. */
  lemma IntegerWriteThenRead(n: int64, t: Text, p: nat, end: byte)
    requires At(t, p, IntText(n) + [end]) && !NumberChar(end)
    ensures p < |t| && (Digit(t[p]) || t[p] == MINUS)
    ensures (ScanNumber(t, p) == Ok(Whole(n), p + |IntText(n)|) <==> -MAX_READ <= n <= MAX_READ)
  {
    IntStart(n);
    AtFirst(t, p, IntText(n) + [end]);
    AtSplit(t, p, IntText(n), [end]);
    AtFirst(t, p + |IntText(n)|, [end]);
    if -MAX_READ <= n <= MAX_READ {
      NumberBack(t, p, n);
    }
  }
}
