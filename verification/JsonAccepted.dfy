/** The texts the JSON reader accepts are exactly the documents in writing. */
module JsonAccepted {
  import opened Codec
  import opened JsonText
  import opened JsonGrammar
  import opened JsonLexemes
  import opened JsonLayout
  import opened Wrappers

  lemma SpaceOnly(t: Text, p: nat)
    requires p <= |t| && SkipWhite(t, p) < |t|
    ensures var w := t[p..SkipWhite(t, p)];
            Filler(w) && At(t, p, w) && p + |w| == SkipWhite(t, p)
  {
    FillerOnly(t, p);
  }

  /** What follows a key up to the value: whitespace, a colon, whitespace. */
  lemma ColonOnly(t: Text, q: nat) returns (gap: bytes, colonGap: bytes)
    requires q < |t| && SkipWhite(t, q) < |t| && t[SkipWhite(t, q)] == COLON && SkipWhite(t, SkipWhite(t, q) + 1) < |t|
    ensures Filler(gap) && Filler(colonGap) && At(t, q, gap + ([':' as int] + colonGap))
    ensures SkipWhite(t, SkipWhite(t, q) + 1) == q + |gap| + 1 + |colonGap|
  {
    hide At, Filler, SkipWhite;
    SpaceOnly(t, q);
    var r := SkipWhite(t, q);
    AtChar(t, r);
    SpaceOnly(t, r + 1);
    gap, colonGap := t[q..r], t[r + 1..SkipWhite(t, r + 1)];
    AtJoined(t, r, [':' as int], colonGap);
    AtJoined(t, q, gap, [':' as int] + colonGap);
  }

  /** Whatever is read as a key is one in writing. */
  lemma KeyOnly(t: Text, p: nat, isObject: bool) returns (key: Option<Name>)
    requires p < |t| && Key(t, p, isObject).Ok?
    ensures (key.Some? <==> isObject) && (key.Some? ==> WellName(key.value))
    ensures At(t, p, KeyText(key)) && Key(t, p, isObject) == Ok(KeyValue(key), p + |KeyText(key)|)
  {
    hide At, Filler, ScanString, SkipWhite, StringText, PiecesValue, WellPieces;
    if isObject {
      var x := StringOnly(t, p);
      var gap, colonGap := ColonOnly(t, p + |StringText(x.ps)|);
      AtJoined(t, p, StringText(x.ps), gap + ([':' as int] + colonGap));
      key := Some(Name(x.ps, gap, colonGap));
    } else {
      key := None;
      AtNothing(t, p);
    }
  }

  /** The rest of a container behind its opening character. */
  lemma {:induction false} BodyOnly(t: Text, isObject: bool, elems: seq<Elem<bytes>>, p: nat)
    returns (items: seq<Item>, comma: bool, inner: bytes)
    requires p < |t| && Rest(t, isObject, elems, First, p).Ok?
    ensures WellItems(isObject, items) && Filler(inner) && At(t, p, BodyText(isObject, items, comma, inner))
    ensures Rest(t, isObject, elems, First, p) ==
            Ok(elems + ElemsOf(isObject, items), p + |BodyText(isObject, items, comma, inner)|)
    decreases |t| - p, 2
  {
    hide At, SkipWhite, Element, Filler, ItemsText;
    var q := SkipWhite(t, p);
    SpaceOnly(t, p);
    if t[q] == EndChar(isObject) {
      items, comma, inner := [], false, t[p..q];
      AtChar(t, q);
      assert EndText(isObject, false, []) == [t[q]];
      AtJoined(t, p, inner, [t[q]]);
      assert elems + ElemsOf(isObject, items) == elems;
    } else {
      items, comma, inner := ItemsOnly(t, isObject, elems, t[p..q], q);
      AtJoined(t, p, t[p..q], ItemsText(items, EndText(isObject, comma, inner)));
    }
  }

  /** The rest of a container from a comma on. */
  lemma {:induction false} CommaOnly(t: Text, isObject: bool, elems: seq<Elem<bytes>>, q: nat, r: nat)
    returns (items: seq<Item>, comma: bool, inner: bytes)
    requires q + 1 < |t| && t[q] == COMMA && r == SkipWhite(t, q + 1) < |t|
    requires ElementOrEnd(t, isObject, elems, r).Ok?
    ensures WellItems(isObject, items) && Filler(inner)
    ensures At(t, q, MoreText(items, EndText(isObject, comma, inner)))
    ensures ElementOrEnd(t, isObject, elems, r) ==
            Ok(elems + ElemsOf(isObject, items), q + |MoreText(items, EndText(isObject, comma, inner))|)
    decreases |t| - q, 2
  {
    hide At, SkipWhite, Element, Filler, ItemsText;
    SpaceOnly(t, q + 1);
    AtChar(t, q);
    var gap := t[q + 1..r];
    if t[r] == EndChar(isObject) {
      items, comma, inner := [], true, gap;
      AtChar(t, r);
      AtJoined(t, q + 1, gap, [t[r]]);
      AtJoined(t, q, [t[q]], gap + [t[r]]);
      assert EndText(isObject, comma, inner) == [t[q]] + (gap + [t[r]]);
      assert elems + ElemsOf(isObject, items) == elems;
    } else {
      items, comma, inner := ItemsOnly(t, isObject, elems, gap, r);
      var text := ItemsText(items, EndText(isObject, comma, inner));
      AtJoined(t, q + 1, gap, text);
      AtJoined(t, q, [t[q]], gap + text);
    }
  }

  /** The rest of a container behind one of its elements. */
  lemma {:induction false} MoreOnly(t: Text, isObject: bool, elems: seq<Elem<bytes>>, prev: Prev, p: nat)
    returns (after: bytes, items: seq<Item>, comma: bool, inner: bytes)
    requires p < |t| && prev != First && Rest(t, isObject, elems, prev, p).Ok?
    ensures WellItems(isObject, items) && Filler(after) && Filler(inner)
    ensures At(t, p, after + MoreText(items, EndText(isObject, comma, inner)))
    ensures Rest(t, isObject, elems, prev, p) ==
            Ok(elems + ElemsOf(isObject, items), p + |after + MoreText(items, EndText(isObject, comma, inner))|)
    decreases |t| - p, 3
  {
    hide At, SkipWhite, ElementOrEnd, Filler, ItemsText;
    var q := SkipWhite(t, p);
    SpaceOnly(t, p);
    AtChar(t, q);
    after := t[p..q];
    if t[q] != COMMA {
      items, comma, inner := [], false, [];
      assert EndText(isObject, comma, inner) == [t[q]];
      assert Filler(inner) by { NothingFiller(); }
      assert elems + ElemsOf(isObject, items) == elems;
    } else {
      items, comma, inner := CommaOnly(t, isObject, elems, q, SkipWhite(t, q + 1));
    }
    AtJoined(t, p, after, MoreText(items, EndText(isObject, comma, inner)));
  }

  lemma NothingFiller()
    ensures Filler([])
  {}

  /** A value inside a container, and what follows it. */
  lemma {:induction false} ValueOnly(t: Text, q: nat) returns (s: Shown)
    requires q < |t|
    requires if Opens(t[q]) then Rest(t, t[q] == 0x7B, [], First, q + 1).Ok?
             else Scalar(t, q).Ok? && EndsNumber(t[Scalar(t, q).pos])
    ensures WellShown(s) && At(t, q, TextOf(s)) && (s.Container? <==> Opens(t[q]))
    ensures if Opens(t[q]) then
              && TreeOf(s) == Node(t[q] == 0x7B, Rest(t, t[q] == 0x7B, [], First, q + 1).value)
              && Rest(t, t[q] == 0x7B, [], First, q + 1).pos == q + |TextOf(s)|
            else Scalar(t, q) == Ok(TreeOf(s), q + |TextOf(s)|)
    decreases |t| - q, 0
  {
    hide At, Rest, Scalar, LexemeText, LexemeValue, WellLexeme, ItemsText, Filler, WellItem;
    if Opens(t[q]) {
      var isObject := t[q] == 0x7B;
      var items, comma, inner := BodyOnly(t, isObject, [], q + 1);
      AtChar(t, q);
      AtJoined(t, q, [t[q]], BodyText(isObject, items, comma, inner));
      s := Container(isObject, items, comma, inner);
      assert [] + ElemsOf(isObject, items) == ElemsOf(isObject, items);
    } else {
      var x := LexemeOnly(t, q);
      s := Leaf(x);
    }
  }

  /** What the reader does at an element that it can read. */
  lemma ElementSteps(t: Text, isObject: bool, elems: seq<Elem<bytes>>, p: nat)
    requires p < |t| && Element(t, isObject, elems, p).Ok?
    ensures Key(t, p, isObject).Ok?
    ensures var q := Key(t, p, isObject).pos;
            if Opens(t[q]) then
              var o := Rest(t, t[q] == 0x7B, [], First, q + 1);
              && o.Ok?
              && var e := Elem(Key(t, p, isObject).value, Node(t[q] == 0x7B, o.value));
                 Rest(t, isObject, elems + [e], AfterNode, o.pos) == Element(t, isObject, elems, p)
            else
              var o := Scalar(t, q);
              && o.Ok?
              && var e := Elem(Key(t, p, isObject).value, o.value);
                 Rest(t, isObject, elems + [e], AfterScalar, o.pos) == Element(t, isObject, elems, p)
  {
    hide Key, Rest, Scalar;
  }

  lemma {:induction false} ItemsOnly(t: Text, isObject: bool, elems: seq<Elem<bytes>>, before: bytes, p: nat)
    returns (items: seq<Item>, comma: bool, inner: bytes)
    requires p < |t| && Element(t, isObject, elems, p).Ok? && Filler(before)
    ensures items != [] && items[0].before == before && WellItems(isObject, items) && Filler(inner)
    ensures At(t, p, ItemsText(items, EndText(isObject, comma, inner)))
    ensures Element(t, isObject, elems, p) ==
            Ok(elems + ElemsOf(isObject, items), p + |ItemsText(items, EndText(isObject, comma, inner))|)
    decreases |t| - p, 1
  {
    hide At, Element, Key, Rest, Scalar, Filler, MoreText, EndText, KeyText, TextOf, ElemsOf, WellName, TreeOf;
    ElementSteps(t, isObject, elems, p);
    var key := KeyOnly(t, p, isObject);
    var q := p + |KeyText(key)|;
    var isNode := Opens(t[q]);
    var r, v := if isNode then Rest(t, t[q] == 0x7B, [], First, q + 1).pos else Scalar(t, q).pos,
                if isNode then Node(t[q] == 0x7B, Rest(t, t[q] == 0x7B, [], First, q + 1).value)
                else Scalar(t, q).value;
    var e := Elem(KeyValue(key), v);
    var after, more;
    after, more, comma, inner :=
      MoreOnly(t, isObject, elems + [e], if isNode then AfterNode else AfterScalar, r);
    var text := after + MoreText(more, EndText(isObject, comma, inner));
    AfterStart(isObject, after, more, comma, inner);
    AtFirst(t, r, text);
    var s := ValueOnly(t, q);
    var item := Item(before, key, s, after);
    items := [item] + more;
    assert items[1..] == more;
    AtJoined(t, q, TextOf(s), text);
    AtJoined(t, p, KeyText(key), TextOf(s) + text);
    ElemsSplit(isObject, items);
    assert ElemOf(isObject, item) == e;
    assert elems + [e] + ElemsOf(isObject, more) == elems + ElemsOf(isObject, items);
  }

  // ---- Whole documents.

  lemma {:induction false} RemarkTaken(t: Text, p: nat, q: nat, last: bool)
    requires p < |t| && EndOfComment(t, p) <= q < |t|
    requires if EndOfComment(t, p) == q then last else Outside(t[EndOfComment(t, p)..q], last)
    ensures Remark(t[p..q], last)
    decreases |t| - p
  {
    if p < q {
      assert t[p..q][1..] == t[p + 1..q];
      if !EndsLine(t[p]) {
        RemarkTaken(t, p + 1, q, last);
      }
    }
  }

  /** Whatever is skipped around the document is whitespace. */
  lemma {:induction false} OutsideOnly(t: Text, p: nat, last: bool)
    requires p < |t| && (last <==> t[SkipOutside(t, p)] == 0)
    ensures Outside(t[p..SkipOutside(t, p)], last)
    decreases |t| - p
  {
    var q := SkipOutside(t, p);
    if t[p] != 0 && CommentAt(t, p) {
      var e := EndOfComment(t, p + 2);
      OutsideOnly(t, e, last);
      RemarkTaken(t, p + 2, q, last);
      assert t[p..q][2..] == t[p + 2..q];
    } else if t[p] != 0 && White(t[p]) {
      OutsideOnly(t, p + 1, last);
      assert t[p..q][1..] == t[p + 1..q];
    }
  }

  /** Whatever is read is a document in writing, and the tree is the one it stands for. */
  lemma DocumentOnly(t: Text) returns (before: bytes, s: Shown, after: bytes)
    requires ParseDocument(t).Ok?
    ensures Document(t, before, s, after)
    ensures ParseDocument(t) == Ok(TreeOf(s), |before| + |TextOf(s)| + |after|)
  {
    hide At, Outside, WellShown, TextOf, SkipOutside, Rest;
    var p := SkipOutside(t, 0);
    OutsideOnly(t, 0, false);
    AtSlice(t, 0, p);
    before := t[0..p];
    s := ValueOnly(t, p);
    var q := p + |TextOf(s)|;
    var end := SkipOutside(t, q);
    OutsideOnly(t, q, true);
    AtSlice(t, q, end);
    AtChar(t, end);
    after := t[q..end];
    AtJoined(t, q, after, [0]);
    AtJoined(t, p, TextOf(s), after + [0]);
    AtJoined(t, 0, before, TextOf(s) + (after + [0]));
  }

  /** The text is a document in writing that stands for the tree and ends at a place. */
  ghost predicate StandsFor(t: Text, v: Tree, end: nat) {
    exists before, s, after ::
      Document(t, before, s, after) && TreeOf(s) == v && |before| + |TextOf(s)| + |after| == end
  }

  /** The reader accepts a text with a tree exactly when the text is a document in writing that stands for the tree. */
  lemma ReadsExactly(t: Text, v: Tree, end: nat)
    ensures ParseDocument(t) == Ok(v, end) <==> StandsFor(t, v, end)
  {
    hide At, Outside, WellShown, TreeOf, TextOf, ParseDocument;
    if ParseDocument(t).Ok? {
      var before, s, after := DocumentOnly(t);
      assert ParseDocument(t) == Ok(v, end) ==> StandsFor(t, v, end);
    }
    forall before, s, after | Document(t, before, s, after)
      ensures ParseDocument(t) == Ok(TreeOf(s), |before| + |TextOf(s)| + |after|)
    {
      DocumentRead(t, before, s, after);
    }
  }

  lemma ReadsAll(t: Text)
    ensures forall v, end :: StandsFor(t, v, end) <==> ParseDocument(t) == Ok(v, end)
  {
    hide StandsFor, ParseDocument;
    forall v, end ensures StandsFor(t, v, end) <==> ParseDocument(t) == Ok(v, end) {
      ReadsExactly(t, v, end);
    }
  }
}
