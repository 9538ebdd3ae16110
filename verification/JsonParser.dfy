/** The JSON reader: one loop over a flat stack that unescapes strings in the buffer it reads. Strings on the stack
    are places in the buffer; what they hold is looked up there. */
module JsonParser {
  import opened Codec
  import opened JsonText
  import opened JsonGrammar
  import opened JsonAccepted
  import opened Wrappers
  import opened JsonScanner
  import opened JsonStack

  // ---- Looking up places in the buffer.

  function Lookup(s: Span, b: bytes): bytes {
    if s.lo <= s.hi <= |b| then b[s.lo..s.hi] else []
  }

  function LookupKey(k: Option<Span>, b: bytes): Option<bytes> {
    if k.Some? then Some(Lookup(k.value, b)) else None
  }

  function Deref(v: Value<Span>, b: bytes): Tree
    decreases v
  {
    match v
    case Null => Null
    case Bool(x) => Bool(x)
    case Int(n) => Int(n)
    case Double(s) => Double(Lookup(s, b))
    case Str(s) => Str(Lookup(s, b))
    case Node(isObject, elems) =>
      Node(isObject, seq(|elems|, i requires 0 <= i < |elems| => DerefElem(elems[i], b)))
  }

  function DerefElem(e: Elem<Span>, b: bytes): Elem<bytes>
    decreases e
  {
    Elem(LookupKey(e.key, b), Deref(e.value, b))
  }

  function DerefSlot(s: Slot<Span>, b: bytes): Slot<bytes> {
    Slot(LookupKey(s.key, b),
         match s.cell
         case Done(v) => Done(Deref(v, b))
         case Open(isObject, size, flag) => Open(isObject, size, flag))
  }

  function DerefStack(st: seq<Slot<Span>>, b: bytes): (r: Stack)
    ensures |r| == |st|
  {
    seq(|st|, i requires 0 <= i < |st| => DerefSlot(st[i], b))
  }

  // ---- Everything on the stack lies before the read position, where nothing is written any more.

  predicate KeyBelow(k: Option<Span>, p: nat) {
    k.Some? ==> k.value.hi <= p
  }

  predicate Below(v: Value<Span>, p: nat)
    decreases v
  {
    match v
    case Double(s) => s.hi <= p
    case Str(s) => s.hi <= p
    case Node(_, elems) => forall i | 0 <= i < |elems| :: ElemBelow(elems[i], p)
    case _ => true
  }

  predicate ElemBelow(e: Elem<Span>, p: nat)
    decreases e
  {
    KeyBelow(e.key, p) && Below(e.value, p)
  }

  predicate SlotBelow(s: Slot<Span>, p: nat) {
    KeyBelow(s.key, p) && (s.cell.Done? ==> Below(s.cell.v, p))
  }

  predicate StackBelow(st: seq<Slot<Span>>, p: nat) {
    forall i | 0 <= i < |st| :: SlotBelow(st[i], p)
  }

  /** Two buffers that agree before p. */
  predicate Agree(a: bytes, b: bytes, p: nat) {
    |a| == |b| && p <= |a| && a[..p] == b[..p]
  }

  lemma LookupKept(s: Span, a: bytes, b: bytes, p: nat)
    requires Agree(a, b, p) && s.hi <= p
    ensures Lookup(s, a) == Lookup(s, b)
  {
    if s.lo <= s.hi {
      assert a[s.lo..s.hi] == a[..p][s.lo..s.hi] == b[s.lo..s.hi];
    }
  }

  lemma {:induction false} DerefKept(v: Value<Span>, a: bytes, b: bytes, p: nat)
    requires Agree(a, b, p) && Below(v, p)
    ensures Deref(v, a) == Deref(v, b)
    decreases v
  {
    hide Lookup, Agree;
    match v
    case Double(s) => LookupKept(s, a, b, p);
    case Str(s) => LookupKept(s, a, b, p);
    case Node(_, elems) =>
      forall i | 0 <= i < |elems| ensures DerefElem(elems[i], a) == DerefElem(elems[i], b) {
        assert ElemBelow(elems[i], p);
        if elems[i].key.Some? {
          LookupKept(elems[i].key.value, a, b, p);
        }
        DerefKept(elems[i].value, a, b, p);
      }
    case _ =>
  }

  lemma {:induction false} BelowMore(v: Value<Span>, p: nat, q: nat)
    requires Below(v, p) && p <= q
    ensures Below(v, q)
    decreases v
  {
    if v.Node? {
      forall i | 0 <= i < |v.elems| ensures ElemBelow(v.elems[i], q) {
        assert ElemBelow(v.elems[i], p);
        BelowMore(v.elems[i].value, p, q);
      }
    }
  }

  /** The stack means the same after the buffer has been overwritten from p on, and reading on. */
  lemma StackKept(st: seq<Slot<Span>>, a: bytes, b: bytes, p: nat, q: nat)
    requires Agree(a, b, p) && StackBelow(st, p) && p <= q
    ensures DerefStack(st, a) == DerefStack(st, b) && StackBelow(st, q)
  {
    hide Lookup, Agree, Deref, Below;
    forall i | 0 <= i < |st| ensures DerefSlot(st[i], a) == DerefSlot(st[i], b) && SlotBelow(st[i], q) {
      assert SlotBelow(st[i], p);
      if st[i].key.Some? {
        LookupKept(st[i].key.value, a, b, p);
      }
      if st[i].cell.Done? {
        DerefKept(st[i].cell.v, a, b, p);
        BelowMore(st[i].cell.v, p, q);
      }
    }
  }

  lemma DerefPushed(st: seq<Slot<Span>>, s: Slot<Span>, b: bytes, p: nat)
    requires StackBelow(st, p) && SlotBelow(s, p)
    ensures DerefStack(st + [s], b) == DerefStack(st, b) + [DerefSlot(s, b)] && StackBelow(st + [s], p)
  {
    hide DerefSlot, SlotBelow;
  }

  // ---- Reading a key and a scalar.

  method ReadKey(buf: array<byte>, p: nat, isObject: bool, ghost t: Text) returns (o: Outcome<Option<Span>>)
    requires p < |t| == buf.Length && Unread(buf, t, p)
    modifies buf
    ensures buf[..p] == old(buf[..p])
    ensures match Key(t, p, isObject)
            case Ok(k, q) =>
              && o.Ok? && o.pos == q && Unread(buf, t, q)
              && KeyBelow(o.value, q) && LookupKey(o.value, buf[..]) == k
            case Err(e, q) => o == Err(e, q)
            case Overrun => o == Overrun
  {
    hide Unread, ScanString, SkipWhite;
    UnreadAt(buf, t, p, p);
    if !isObject {
      return Ok(None, p);
    }
    if buf[p] != QUOTE {
      return Err(ExpectedKey, p);
    }
    UnreadAt(buf, t, p, p + 1);
    ghost var before := buf[..];
    var s := ReadString(buf, p + 1, t);
    PrefixKept(before, buf[..], p + 1, p);
    if s.Err? {
      return Err(s.error, s.pos);
    }
    UnreadAt(buf, t, s.pos, s.pos);
    var r := SkipWhitespace(buf, s.pos, t);
    if r == buf.Length {
      return Overrun;
    }
    UnreadAt(buf, t, s.pos, r);
    if buf[r] != COLON {
      return Err(MissingColon, r);
    }
    UnreadAt(buf, t, s.pos, r + 1);
    var q := SkipWhitespace(buf, r + 1, t);
    if q == buf.Length {
      return Overrun;
    }
    UnreadAt(buf, t, r + 1, q);
    assert Lookup(s.value, buf[..]) == buf[p + 1..s.value.hi];
    o := Ok(Some(s.value), q);
  }

  method MatchLetters(buf: array<byte>, p: nat, word: bytes, ghost t: Text) returns (ok: bool)
    requires p < |t| == buf.Length && Unread(buf, t, p) && word != [] && forall i | 0 <= i < |word| :: word[i] != 0
    requires buf[p] == word[0]
    ensures ok <==> Letters(t, p, word)
  {
    hide Unread;
    var i := 1;
    UnreadAt(buf, t, p, p);
    assert t[p..p + 1] == word[..1];
    while i < |word|
      invariant 1 <= i <= |word| && p + i < |t|
      invariant t[p..p + i] == word[..i]
    {
      UnreadAt(buf, t, p, p + i);
      if buf[p + i] != word[i] {
        LettersDiffer(t, p, word, i);
        return false;
      }
      assert p + i + 1 < |t|;
      assert t[p..p + i + 1] == t[p..p + i] + [t[p + i]] == word[..i + 1];
      i := i + 1;
    }
    assert word[..i] == word;
    ok := true;
  }

  lemma LettersDiffer(t: Text, p: nat, word: bytes, i: nat)
    requires word != [] && word[|word| - 1] != 0 && i < |word| && p + i < |t| && t[p + i] != word[i]
    ensures !Letters(t, p, word)
  {
    if p + |word| <= |t| {
      assert t[p..p + |word|][i] == t[p + i];
    }
  }

  /** A scalar that was read means what the text says. */
  ghost predicate SameScalar(o: Outcome<Value<Span>>, s: Outcome<Tree>, b: bytes) {
    match s
    case Ok(v, q) => o.Ok? && o.pos == q && Below(o.value, q) && Deref(o.value, b) == v && !o.value.Node?
    case Err(e, q) => o == Err(e, q)
    case Overrun => false
  }

  method ReadStringValue(buf: array<byte>, p: nat, ghost t: Text) returns (o: Outcome<Value<Span>>)
    requires p < |t| == buf.Length && Unread(buf, t, p) && t[p] == QUOTE
    modifies buf
    ensures buf[..p] == old(buf[..p])
    ensures SameScalar(o, Scalar(t, p), buf[..])
    ensures o.Ok? ==> Unread(buf, t, o.pos)
  {
    hide Unread, ScanString;
    UnreadAt(buf, t, p, p + 1);
    ghost var before := buf[..];
    var s := ReadString(buf, p + 1, t);
    PrefixKept(before, buf[..], p + 1, p);
    if s.Err? {
      return Err(s.error, s.pos);
    }
    assert Lookup(s.value, buf[..]) == buf[p + 1..s.value.hi];
    o := Ok(Str(s.value), s.pos);
  }

  method ReadNumberValue(buf: array<byte>, p: nat, ghost t: Text) returns (o: Outcome<Value<Span>>)
    requires buf.Length == |t| && Unread(buf, t, p) && Numeric(t, p)
    ensures SameScalar(o, Scalar(t, p), buf[..])
    ensures o.Ok? ==> Unread(buf, t, o.pos)
  {
    hide Unread, ScanNumber;
    UnreadAt(buf, t, p, p);
    var n := ReadNumber(buf, p, t);
    if n.Err? {
      return Err(n.error, n.pos);
    }
    UnreadAt(buf, t, p, n.pos);
    match n.value
    case Whole(m) =>
      o := Ok(Int(m), n.pos);
    case Real(s) =>
      LookupUnread(buf, t, s.lo, s.hi);
      o := Ok(Double(s), n.pos);
  }

  lemma LookupUnread(buf: array<byte>, t: Text, p: nat, q: nat)
    requires Unread(buf, t, p) && p <= q <= |t|
    ensures Lookup(Span(p, q), buf[..]) == t[p..q]
  {
    assert buf[p..q] == buf[p..][..q - p];
    assert t[p..q] == t[p..][..q - p];
  }

  method ReadScalar(buf: array<byte>, p: nat, ghost t: Text) returns (o: Outcome<Value<Span>>)
    requires p < |t| == buf.Length && Unread(buf, t, p) && !Opens(t[p])
    modifies buf
    ensures buf[..p] == old(buf[..p])
    ensures SameScalar(o, Scalar(t, p), buf[..])
    ensures o.Ok? ==> Unread(buf, t, o.pos)
  {
    hide Unread, Letters, ScanNumber, ScanString;
    UnreadAt(buf, t, p, p);
    var c := buf[p];
    if c == QUOTE {
      o := ReadStringValue(buf, p, t);
    } else if c == 'n' as int {
      var ok := MatchLetters(buf, p, NULL_TEXT, t);
      if !ok {
        return Err(UnrecognizedCharacter, p);
      }
      UnreadAt(buf, t, p, p + 4);
      o := Ok(Null, p + 4);
    } else if c == 't' as int {
      var ok := MatchLetters(buf, p, TRUE_TEXT, t);
      if !ok {
        return Err(UnrecognizedCharacter, p);
      }
      UnreadAt(buf, t, p, p + 4);
      o := Ok(Bool(true), p + 4);
    } else if c == 'f' as int {
      var ok := MatchLetters(buf, p, FALSE_TEXT, t);
      if !ok {
        return Err(UnrecognizedCharacter, p);
      }
      UnreadAt(buf, t, p, p + 5);
      o := Ok(Bool(false), p + 5);
    } else if Digit(c) || c == MINUS || c == DOT {
      o := ReadNumberValue(buf, p, t);
    } else {
      o := Err(UnrecognizedCharacter, p);
    }
  }

  // ---- The stack of places decodes like the stack of strings it stands for.

  lemma {:induction false} DerefStacked(st: seq<Slot<Span>>, b: bytes, isObject: bool, n: nat)
    ensures Stacked(DerefStack(st, b), isObject, n) <==> Stacked(st, isObject, n)
    decreases |st|
  {
    hide Deref, LookupKey;
    if n < |st| {
      var h := |st| - n - 1;
      assert DerefStack(st, b)[..h] == DerefStack(st[..h], b);
      assert forall i | 0 <= i < |st| :: DerefStack(st, b)[i] == DerefSlot(st[i], b);
      KeysKept(st, b);
      if st[h].cell.Open? && st[h].cell.size > 0 {
        DerefStacked(st[..h], b, st[h].cell.flag, st[h].cell.size - 1);
      }
    }
  }

  lemma KeysKept(st: seq<Slot<Span>>, b: bytes)
    ensures forall i | 0 <= i < |st| :: DerefStack(st, b)[i].key.Some? == st[i].key.Some?
  {
    hide Deref, Lookup;
  }

  lemma DerefElems(st: seq<Slot<Span>>, b: bytes, isObject: bool, n: nat)
    requires Stacked(st, isObject, n) && Stacked(DerefStack(st, b), isObject, n)
    ensures Deref(Node(isObject, ElemsOf(st, n)), b) == Node(isObject, ElemsOf(DerefStack(st, b), n))
  {
    hide LookupKey;
    var es, ds := ElemsOf(st, n), ElemsOf(DerefStack(st, b), n);
    forall i | 0 <= i < n ensures DerefElem(es[i], b) == ds[i] {
      assert DerefStack(st, b)[|st| - n + i] == DerefSlot(st[|st| - n + i], b);
    }
    assert Deref(Node(isObject, es), b).elems == ds;
  }

  lemma NodeBelow(st: seq<Slot<Span>>, isObject: bool, n: nat, p: nat)
    requires Stacked(st, isObject, n) && StackBelow(st, p)
    ensures Below(Node(isObject, ElemsOf(st, n)), p)
  {
    var es := ElemsOf(st, n);
    forall i | 0 <= i < n ensures ElemBelow(es[i], p) {
      assert SlotBelow(st[|st| - n + i], p);
    }
  }

  lemma DerefClosed(st: seq<Slot<Span>>, b: bytes, isObject: bool, n: nat, p: nat)
    requires Stacked(st, isObject, n) && StackBelow(st, p)
    ensures Stacked(DerefStack(st, b), isObject, n)
    ensures DerefStack(ClosedStack(st, isObject, n), b) == ClosedStack(DerefStack(st, b), isObject, n)
    ensures StackBelow(ClosedStack(st, isObject, n), p)
  {
    hide Deref, Below, LookupKey, ElemsOf;
    DerefStacked(st, b, isObject, n);
    StackedSize(st, isObject, n);
    DerefElems(st, b, isObject, n);
    NodeBelow(st, isObject, n, p);
    var h := |st| - n - 1;
    var slot := Slot(st[h].key, Done(Node(isObject, ElemsOf(st, n))));
    assert SlotBelow(st[h], p);
    assert StackBelow(st[..h], p);
    DerefPushed(st[..h], slot, b, p);
    assert DerefStack(st[..h], b) == DerefStack(st, b)[..h];
    assert DerefStack(st, b)[h] == DerefSlot(st[h], b);
  }

  lemma DerefHeader(st: seq<Slot<Span>>, b: bytes, n: nat)
    requires n < |st|
    ensures Header(DerefStack(st, b), n) == DerefSlot(Header(st, n), b)
  {
    hide DerefSlot;
  }

  lemma StackedSize<S>(st: seq<Slot<S>>, isObject: bool, n: nat)
    requires Stacked(st, isObject, n)
    ensures n < |st|
  {}

  lemma {:induction false} RootUnkeyed<S>(st: seq<Slot<S>>, isObject: bool, n: nat)
    requires Stacked(st, isObject, n)
    ensures st[0].key.None?
    decreases |st|
  {
    var h := |st| - n - 1;
    if h > 0 {
      RootUnkeyed(st[..h], st[h].cell.flag, st[h].cell.size - 1);
    }
  }

  // ---- The reader.

  datatype Step = Going | Finished | Failed(error: Error, pos: nat) | Overran

  class Reader {
    const buf: array<byte>
    ghost const text: Text
    ghost const start: nat
    var pos: nat
    var stack: seq<Slot<Span>>
    var isObject: bool
    var count: nat
    var root: Value<Span>

    ghost function View(): Stack
      reads this, buf
    {
      DerefStack(stack, buf[..])
    }

    ghost predicate Valid()
      reads this, buf
    {
      && buf.Length == |text| && pos < |text| && Unread(buf, text, pos)
      && StackBelow(stack, pos) && Stacked(stack, isObject, count) && Stacked(View(), isObject, count)
    }

    /** The elements of the innermost container that have been read. */
    ghost function Sofar(): seq<Elem<bytes>>
      reads this, buf
      requires Valid()
    {
      ElemsOf(View(), count)
    }

    /** The reader will do what the recursive descent does, provided the innermost container comes out as o. */
    ghost predicate Awaits(o: Outcome<seq<Elem<bytes>>>)
      reads this, buf
    {
      Valid() && Refines(text, start, View(), isObject, count, o)
    }

    /** What a step that ends the reading says about the document. */
    ghost predicate Ends(s: Step)
      reads this, buf
    {
      start < |text| && Opens(text[start]) &&
      match s
      case Going => false
      case Finished =>
        && Root(text, start) == Ok(Deref(root, buf[..]), pos)
        && buf.Length == |text| && pos < |text| && Unread(buf, text, pos)
      case Failed(e, p) => Root(text, start) == Err(e, p)
      case Overran => Root(text, start) == Overrun
    }

    /** Starts behind the opening character of the root. */
    constructor (b: array<byte>, p: nat, ghost t: Text)
      requires p < |t| == b.Length && Unread(b, t, p) && Opens(t[p])
      ensures buf == b && text == t && start == p
      ensures Valid() && Awaits(Rest(text, isObject, [], First, pos)) && Sofar() == [] && count == 0
    {
      var c := b[p];
      buf, text, start := b, t, p;
      pos, count, isObject, root := p + 1, 0, c == 0x7B, Null;
      stack := [Slot(None, Open(c == 0x7B, 0, false))];
      new;
      assert t[p] == b[p] && p + 1 < |t| && Unread(b, t, p + 1) by {
        UnreadAt(b, t, p, p);
        OpensInside(t, p);
        UnreadAt(b, t, p, p + 1);
      }
      StartRefines(t, p);
      assert View() == [Slot(None, Open(isObject, 0, false))];
    }

    /** Moves on without changing the stack. */
    method Advance(q: nat)
      requires Valid() && pos <= q < |text|
      modifies this`pos
      ensures pos == q && Valid() && View() == old(View()) && Sofar() == old(Sofar())
    {
      UnreadAt(buf, text, pos, q);
      StackKept(stack, buf[..], buf[..], pos, q);
      pos := q;
    }

    /** Pops the elements of the innermost container by their size in bytes and moves them into its own slot. */
    method PopElements() returns (top: Slot<Span>)
      requires Stacked(stack, isObject, count)
      modifies this`stack
      ensures stack == ClosedStack(old(stack), isObject, count) && top == Header(old(stack), count)
      ensures Bytes(stack) <= VALUE_BYTES <==> count + 1 == |old(stack)|
    {
      hide ElemsOf;
      var numBytes := count * Width(isObject);
      SlotsInElements(stack, count, isObject);
      var size := SlotsIn(stack, numBytes);
      var elems := ElemsOf(stack, size);
      top := stack[|stack| - size - 1];
      RootUnkeyed(stack, isObject, count);
      stack := stack[..|stack| - size - 1] + [Slot(top.key, Done(Node(top.cell.isObject, elems)))];
      RootByBytes(stack);
    }

    /** Closes the innermost container, whose end character has been read, and restores the count and kind of its
        parent from the slot of the container. */
    method CloseContainer() returns (s: Step)
      requires Valid() && Awaits(Ok(Sofar(), pos))
      modifies this`stack, this`isObject, this`count, this`root
      ensures s.Going? ==> Valid() && Awaits(Rest(text, isObject, Sofar(), AfterNode, pos))
      ensures s.Going? || s.Finished?
      ensures s.Finished? ==> Ends(s)
    {
      hide Deref, Below, Rest, Unwind, Parents, Root, StackBelow, ElemsOf, Unread, DerefStack;
      ghost var st, n := stack, count;
      DerefClosed(stack, buf[..], isObject, count, pos);
      var top := PopElements();
      if Bytes(stack) <= VALUE_BYTES {
        CloseRoot(text, start, DerefStack(st, buf[..]), isObject, n, pos);
        DerefElems(st, buf[..], isObject, n);
        root := stack[0].cell.v;
        return Finished;
      }
      CloseRefines(text, start, DerefStack(st, buf[..]), isObject, n, pos);
      DerefHeader(st, buf[..], n);
      isObject, count := top.cell.flag, top.cell.size;
      DerefStacked(stack, buf[..], isObject, count);
      s := Going;
    }

    /** Ends the reading when the document cannot be read. */
    ghost predicate Stuck(o: Outcome<seq<Elem<bytes>>>, s: Step) {
      match o
      case Ok(_, _) => false
      case Err(e, p) => s == Failed(e, p)
      case Overrun => s == Overran
    }

    lemma StuckEnds(o: Outcome<seq<Elem<bytes>>>, s: Step)
      requires Awaits(o) && Stuck(o, s)
      ensures Ends(s)
    {
      hide Root, Unwind, Parents;
      FailureRefines(text, start, View(), isObject, count, o);
    }

    /** Closes containers until something else than an end character follows: a comma, or the end of the root. */
    method CloseContainers() returns (s: Step)
      requires Valid() && Awaits(Ok(Sofar(), pos))
      modifies this`pos, this`stack, this`isObject, this`count, this`root
      ensures s.Going? ==> Valid() && pos > old(pos) && Awaits(ElementOrEnd(text, isObject, Sofar(), pos))
      ensures !s.Going? ==> Ends(s)
    {
      hide Refines, Element, SkipWhite, Unread, Stacked, Root;
      while true
        invariant Valid() && Awaits(Ok(Sofar(), pos)) && pos >= old(pos)
        decreases |text| - pos
      {
        s := CloseContainer();
        if !s.Going? {
          return;
        }
        ghost var o := Rest(text, isObject, Sofar(), AfterNode, pos);
        var q := SkipWhitespace(buf, pos, text);
        if q == buf.Length {
          StuckEnds(o, Overran);
          return Overran;
        }
        Advance(q);
        UnreadAt(buf, text, pos, pos);
        if buf[pos] == COMMA {
          UnreadAt(buf, text, pos, pos + 1);
          q := SkipWhitespace(buf, pos + 1, text);
          if q == buf.Length {
            StuckEnds(o, Overran);
            return Overran;
          }
          Advance(q);
          return Going;
        }
        if buf[pos] != EndChar(isObject) {
          StuckEnds(o, Failed(UnexpectedCharacter, pos + 1));
          return Failed(UnexpectedCharacter, pos + 1);
        }
        Advance(pos + 1);
      }
    }

    /** The top of the loop: after a scalar a comma or the end must follow, at the start a comma is refused. */
    method NextElement() returns (s: Step)
      requires Valid() && Awaits(Rest(text, isObject, Sofar(), if count == 0 then First else AfterScalar, pos))
      modifies this`pos, this`stack, this`isObject, this`count, this`root
      ensures s.Going? ==> Valid() && pos >= old(pos) && Awaits(Element(text, isObject, Sofar(), pos))
      ensures !s.Going? ==> Ends(s)
    {
      hide Refines, Element, SkipWhite, Unread, Stacked, Root;
      ghost var o := Rest(text, isObject, Sofar(), if count == 0 then First else AfterScalar, pos);
      var q := SkipWhitespace(buf, pos, text);
      if q == buf.Length {
        StuckEnds(o, Overran);
        return Overran;
      }
      Advance(q);
      UnreadAt(buf, text, pos, pos);
      if buf[pos] == COMMA {
        if count == 0 {
          StuckEnds(o, Failed(UnexpectedComma, pos));
          return Failed(UnexpectedComma, pos);
        }
        UnreadAt(buf, text, pos, pos + 1);
        q := SkipWhitespace(buf, pos + 1, text);
        if q == buf.Length {
          StuckEnds(o, Overran);
          return Overran;
        }
        Advance(q);
      } else if count > 0 && buf[pos] != EndChar(isObject) {
        StuckEnds(o, Failed(ExpectedCommaOrEnd, pos));
        return Failed(ExpectedCommaOrEnd, pos);
      }
      UnreadAt(buf, text, pos, pos);
      assert Awaits(ElementOrEnd(text, isObject, Sofar(), pos));
      s := CloseEnded();
    }

    /** While the end of the innermost container is at hand, closes containers. */
    method CloseEnded() returns (s: Step)
      requires Valid() && Awaits(ElementOrEnd(text, isObject, Sofar(), pos))
      modifies this`pos, this`stack, this`isObject, this`count, this`root
      ensures s.Going? ==> Valid() && pos >= old(pos) && Awaits(Element(text, isObject, Sofar(), pos))
      ensures !s.Going? ==> Ends(s)
    {
      hide Refines, Element, SkipWhite, Unread, Stacked, Root;
      UnreadAt(buf, text, pos, pos);
      while buf[pos] == EndChar(isObject)
        invariant Valid() && pos >= old(pos) && Awaits(ElementOrEnd(text, isObject, Sofar(), pos))
                  && buf[pos] == text[pos]
        decreases |text| - pos
      {
        Advance(pos + 1);
        s := CloseContainers();
        if !s.Going? {
          return;
        }
        UnreadAt(buf, text, pos, pos);
      }
      s := Going;
    }

    method Push(slot: Slot<Span>)
      requires StackBelow(stack, pos) && SlotBelow(slot, pos)
      modifies this`stack
      ensures stack == old(stack) + [slot] && StackBelow(stack, pos)
      ensures View() == old(View()) + [DerefSlot(slot, buf[..])]
    {
      DerefPushed(stack, slot, buf[..], pos);
      stack := stack + [slot];
    }

    /** Puts a finished scalar, which began at q, on the stack. */
    method PushScalar(key: Option<Span>, v: Value<Span>, ghost p: nat, ghost q: nat)
      requires Valid() && p <= q < pos && Awaits(Element(text, isObject, Sofar(), p))
      requires Key(text, p, isObject) == Ok(LookupKey(key, buf[..]), q) && KeyBelow(key, q)
      requires !Opens(text[q]) && Scalar(text, q) == Ok(Deref(v, buf[..]), pos) && Below(v, pos)
      modifies this`stack, this`count
      ensures Valid() && count > 0 && Awaits(Rest(text, isObject, Sofar(), AfterScalar, pos))
    {
      hide Deref, Below, Rest, Key, Scalar, Element, Unwind, Parents, Unread, Root, Lookup, ElemsOf, DerefStack,
           StackBelow, Stacked;
      ScalarRefines(text, start, View(), isObject, count, p, LookupKey(key, buf[..]), q, Deref(v, buf[..]), pos);
      Push(Slot(key, Done(v)));
      count := count + 1;
      DerefStacked(stack, buf[..], isObject, count);
    }

    /** Puts an opened container on the stack: it keeps the count and the kind of the one around it. */
    method PushContainer(key: Option<Span>, ghost p: nat)
      requires Valid() && p <= pos && Awaits(Element(text, isObject, Sofar(), p))
      requires Key(text, p, isObject) == Ok(LookupKey(key, buf[..]), pos) && KeyBelow(key, pos)
      requires Opens(text[pos])
      modifies this`pos, this`stack, this`count, this`isObject
      ensures Valid() && pos == old(pos) + 1 && count == 0 && Awaits(Rest(text, isObject, Sofar(), First, pos))
    {
      hide Deref, Rest, Key, Element, Unwind, Parents, Unread, Root, Lookup, ElemsOf, DerefStack, StackBelow, Stacked;
      OpenRefines(text, start, View(), isObject, count, p, LookupKey(key, buf[..]), pos);
      UnreadAt(buf, text, pos, pos);
      var c := buf[pos];
      Advance(pos + 1);
      Push(Slot(key, Open(c == 0x7B, count + 1, isObject)));
      isObject := c == 0x7B;
      count := 0;
      DerefStacked(stack, buf[..], isObject, count);
    }

    /** The buffer has been overwritten from p on by a scan that read on to q. */
    lemma Overwritten(before: bytes, st: Stack, p: nat, q: nat)
      requires buf.Length == |text| == |before| && p <= q < |text| && buf[..p] == before[..p] && Unread(buf, text, q)
      requires StackBelow(stack, p) && st == DerefStack(stack, before)
      ensures View() == st && StackBelow(stack, q)
    {
      StackKept(stack, before, buf[..], p, q);
    }

    /** The value of an element whose key has been read, when it is not a container. */
    method ReadScalarElement(key: Option<Span>, ghost p: nat) returns (s: Step)
      requires Valid() && p <= pos && Awaits(Element(text, isObject, Sofar(), p))
      requires Key(text, p, isObject) == Ok(LookupKey(key, buf[..]), pos) && KeyBelow(key, pos)
      requires !Opens(text[pos])
      modifies this`pos, this`stack, this`count, buf
      ensures s.Going? ==> Valid() && pos > old(pos) && count > 0
                           && Awaits(Rest(text, isObject, Sofar(), AfterScalar, pos))
      ensures !s.Going? ==> Ends(s)
    {
      hide Refines, Rest, Scalar, Element, Key, Unread, Stacked, Root, StackBelow, DerefStack, Below, Deref, Lookup;
      ghost var st, before, q := View(), buf[..], pos;
      ghost var elems := Sofar();
      var v := ReadScalar(buf, pos, text);
      if v.Err? {
        ElementOfFailure(text, isObject, elems, p, LookupKey(key, before), q, v.error, v.pos);
        FailureRefines(text, start, st, isObject, count, Element(text, isObject, elems, p));
        return Failed(v.error, v.pos);
      }
      Overwritten(before, st, q, v.pos);
      pos := v.pos;
      if key.Some? {
        LookupKept(key.value, before, buf[..], q);
      }
      PushScalar(key, v.value, p, q);
      s := Going;
    }

    /** One element: its key, and either a scalar or the start of a container. */
    method ReadElement() returns (s: Step)
      requires Valid() && Awaits(Element(text, isObject, Sofar(), pos))
      modifies this`pos, this`stack, this`isObject, this`count, buf
      ensures s.Going? ==> Valid() && pos > old(pos) &&
                           Awaits(Rest(text, isObject, Sofar(), if count == 0 then First else AfterScalar, pos))
      ensures !s.Going? ==> Ends(s)
    {
      hide Refines, Rest, Scalar, Key, SkipWhite, Unread, Stacked, Root, StackBelow, DerefStack, Below, Deref, Lookup;
      ghost var p, st, before := pos, View(), buf[..];
      ghost var o := Element(text, isObject, Sofar(), pos);
      var k := ReadKey(buf, pos, isObject, text);
      if k.Err? {
        FailureRefines(text, start, st, isObject, count, o);
        return Failed(k.error, k.pos);
      }
      if k.Overrun? {
        FailureRefines(text, start, st, isObject, count, o);
        return Overran;
      }
      Overwritten(before, st, p, k.pos);
      pos := k.pos;
      UnreadAt(buf, text, pos, pos);
      if Opens(buf[pos]) {
        PushContainer(k.value, p);
        s := Going;
      } else {
        s := ReadScalarElement(k.value, p);
      }
    }

    /** The loop of the reader. */
    method Deserialize() returns (s: Step)
      requires Valid() && Sofar() == [] && count == 0 && Awaits(Rest(text, isObject, [], First, pos))
      modifies this`pos, this`stack, this`isObject, this`count, this`root, buf
      ensures Ends(s)
    {
      hide Refines, Rest, Unread, Stacked, Root, StackBelow, DerefStack;
      while true
        invariant Valid()
        invariant Awaits(Rest(text, isObject, Sofar(), if count == 0 then First else AfterScalar, pos))
        decreases |text| - pos
      {
        s := NextElement();
        if !s.Going? {
          return;
        }
        s := ReadElement();
        if !s.Going? {
          return;
        }
      }
    }
  }

  lemma OpensInside(t: Text, p: nat)
    requires p < |t| && Opens(t[p])
    ensures p + 1 < |t|
  {}

  /** Reads a document in place: the outcome is the one of the recursive descent over the original text, with the
      strings of the tree left unescaped in the buffer. */
  method DeserializeInPlace(buf: array<byte>) returns (o: Outcome<Value<Span>>)
    requires buf.Length > 0 && buf[buf.Length - 1] == 0
    modifies buf
    ensures match ParseDocument(old(buf[..]))
            case Ok(v, p) => o.Ok? && o.pos == p && Deref(o.value, buf[..]) == v
            case Err(e, p) => o == Err(e, p)
            case Overrun => o == Overrun
    ensures forall v, end ::
              StandsFor(old(buf[..]), v, end) <==> o.Ok? && o.pos == end && Deref(o.value, buf[..]) == v
  {
    hide SkipOutside, Unread, Rest, Root, DerefStack, Stacked, Refines, StandsFor;
    ghost var t: Text := buf[..];
    ReadsAll(t);
    assert Unread(buf, t, 0) by { StillUnread(buf); }
    var p := SkipAround(buf, 0, t);
    UnreadAt(buf, t, 0, p);
    if buf[p] == 0 {
      return Err(NothingToDeserialize, p);
    }
    if !Opens(buf[p]) {
      return Err(RootNotContainer, p);
    }
    var r := new Reader(buf, p, t);
    var s := r.Deserialize();
    match s
    case Failed(e, q) =>
      o := Err(e, q);
    case Overran =>
      o := Overrun;
    case Finished =>
      var end := SkipAround(buf, r.pos, t);
      UnreadAt(buf, t, r.pos, end);
      o := if buf[end] == 0 then Ok(r.root, end) else Err(DataAfterDocument, end);
  }

  lemma StillUnread(buf: array<byte>)
    requires buf.Length > 0 && buf[buf.Length - 1] == 0
    ensures Unread(buf, buf[..], 0)
  {}
}
