/** The JSON writer: appends a tree to a growing vector of characters. */
module JsonWriter {
  import opened Codec
  import opened JsonText
  import opened JsonGrammar
  import opened JsonLexemes
  import opened JsonLayout
  import opened JsonPrinting
  import opened JsonFormat
  import opened Wrappers

  // ---- Integers, formed from the last digit on and then reversed in place.

  lemma ReversedAt(s: bytes, k: nat)
    requires k < |s|
    ensures Reversed(s)[k] == s[|s| - 1 - k]
  {}

  lemma ReversedAppend(s: bytes, c: byte)
    ensures Reversed(s + [c]) == [c] + Reversed(s)
  {}

  function Power10(k: nat): nat {
    if k == 0 then 1 else 10 * Power10(k - 1)
  }

  lemma {:induction false} Power10Adds(a: nat, b: nat)
    ensures Power10(a + b) == Power10(a) * Power10(b)
  {
    if a > 0 {
      Power10Adds(a - 1, b);
      assert 10 * (Power10(a - 1) * Power10(b)) == 10 * Power10(a - 1) * Power10(b);
    }
  }

  lemma {:induction false} DigitCount(n: int, k: nat)
    requires k > 0 && 0 - Power10(k) < n < Power10(k)
    ensures |DigitChars(n)| <= k
    decreases k
  {
    if Quotient(n) != 0 {
      DigitCount(Quotient(n), k - 1);
    }
  }

  lemma DigitCount64(n: int64)
    ensures |DigitChars(n)| <= 19
  {
    Power10Adds(10, 9);
    assert Power10(10) == 1_00000_00000 && Power10(9) == 1_0000_00000;
    DigitCount(n, 19);
  }

  /** Reverses a part of the buffer in place. */
  method ReversePart(buf: array<byte>, lo: nat, hi: nat)
    requires lo < hi <= buf.Length
    modifies buf
    ensures buf[..lo] == old(buf[..lo]) && buf[hi..] == old(buf[hi..])
    ensures buf[lo..hi] == Reversed(old(buf[lo..hi]))
  {
    hide Reversed;
    ghost var part := buf[lo..hi];
    ghost var goal := Reversed(part);
    var left, right := lo, hi;
    while right > left
      invariant lo <= left <= hi && right == hi - (left - lo) && left <= right + 1
      invariant buf[..lo] == old(buf[..lo]) && buf[hi..] == old(buf[hi..])
      invariant forall k | lo <= k < hi :: buf[k] == if left <= k < right then part[k - lo] else goal[k - lo]
    {
      right := right - 1;
      ReversedAt(part, left - lo);
      ReversedAt(part, right - lo);
      var c := buf[right];
      buf[right] := buf[left];
      buf[left] := c;
      left := left + 1;
    }
    forall k | 0 <= k < hi - lo
      ensures buf[lo..hi][k] == goal[k]
    {
      assert buf[lo + k] == goal[lo + k - lo];
    }
  }

  /** Forms the digits of a number from left on, last digit first. */
  method PutDigits(buf: array<byte>, left: nat, m: int64) returns (dst: nat)
    requires left + 19 <= buf.Length
    modifies buf
    ensures left < dst <= left + 19 && buf[..left] == old(buf[..left])
    ensures Reversed(buf[left..dst]) == DigitChars(m)
  {
    hide DigitChars, Reversed;
    var n: int := m;
    DigitCount64(m);
    dst := left;
    var more := true;
    ghost var rest := DigitChars(n);
    ReversedNothing(buf[left..dst]);
    while more
      invariant left <= dst && dst - left + |rest| <= 19 && (more ==> |rest| > 0) && (!more ==> dst > left)
      invariant rest == if more then DigitChars(n) else []
      invariant DigitChars(m) == rest + Reversed(buf[left..dst])
      invariant buf[..left] == old(buf[..left])
      decreases |rest|
    {
      ghost var before, kept := buf[left..dst], buf[..left];
      var c: byte := 0x30 + Remainder(n);
      DigitCharsSplit(n);
      ReversedAppend(before, c);
      buf[dst] := c;
      dst := dst + 1;
      n := Quotient(n);
      more := n != 0;
      ghost var shorter := if more then DigitChars(n) else [];
      assert rest + Reversed(before) == shorter + ([c] + Reversed(before));
      rest := shorter;
      assert buf[left..dst] == before + [c];
      assert buf[..left] == kept;
    }
    assert rest + Reversed(buf[left..dst]) == Reversed(buf[left..dst]);
  }

  /** The characters of an integer as the code forms them, in a buffer of 64 characters. */
  method IntToChars(value: int64) returns (txt: bytes)
    ensures txt == IntText(value)
  {
    hide DigitChars, Reversed;
    var buf := new byte[64](_ => 0);
    buf[0] := MINUS;
    var left := if value < 0 then 1 else 0;
    assert buf[..left] == if value < 0 then [MINUS] else [];
    var dst := PutDigits(buf, left, Magnitude(value));
    ghost var sign := buf[..left];
    ReversePart(buf, left, dst);
    assert buf[..dst] == sign + DigitChars(Magnitude(value));
    txt := buf[..dst];
  }

  lemma ReversedNothing(s: bytes)
    requires s == []
    ensures Reversed(s) == []
  {}

  lemma DigitCharsSplit(n: int)
    ensures DigitChars(n) == (if Quotient(n) == 0 then [] else DigitChars(Quotient(n))) + [0x30 + Remainder(n)]
    ensures Quotient(n) != 0 ==> |DigitChars(Quotient(n))| > 0
  {}

  // ---- The vector that grows.

  class VectorPrinter {
    var buf: bytes

    constructor ()
      ensures buf == []
    {
      buf := [];
    }

    method Puts(s: bytes)
      modifies this
      ensures buf == old(buf) + s
    {
      buf := buf + s;
    }

    method PrintChar(c: byte)
      modifies this
      ensures buf == old(buf) + [c]
    {
      buf := buf + [c];
    }

    method PrintTabs(n: nat)
      modifies this
      ensures buf == old(buf) + Tabs(n)
    {
      buf := buf + Tabs(n);
    }

    method PrintEscapedByte(c: byte)
      modifies this
      ensures buf == old(buf) + EscapedByte(c)
    {
      if c >= SPACE && c != QUOTE && c != BACKSLASH {
        PrintChar(c);
      } else {
        PrintChar(BACKSLASH);
        if c == 8 {
          PrintChar('b' as int);
        } else if c == CR {
          PrintChar('r' as int);
        } else if c == 9 {
          PrintChar('t' as int);
        } else if c == 12 {
          PrintChar('f' as int);
        } else if c == LF {
          PrintChar('n' as int);
        } else if c == BACKSLASH || c == QUOTE {
          PrintChar(c);
        } else {
          Puts(['u' as int, 0x30, 0x30]);
          PrintChar(HexDigit(c / 16));
          PrintChar(HexDigit(c % 16));
        }
      }
    }

    /** Prints a C string in quotes, up to its first zero byte. */
    method PrintEscaped(s: bytes)
      modifies this
      ensures buf == old(buf) + Quoted(s)
    {
      hide EscapedByte, Escaped;
      ghost var start := buf;
      PrintChar(QUOTE);
      var i := 0;
      while i < |s| && s[i] != 0
        invariant 0 <= i <= |s|
        invariant buf + Escaped(s[i..]) == start + [QUOTE] + Escaped(s)
      {
        ghost var before := buf;
        EscapedRest(s, i);
        PrintEscapedByte(s[i]);
        assert before + (EscapedByte(s[i]) + Escaped(s[i + 1..])) == buf + Escaped(s[i + 1..]);
        i := i + 1;
      }
      EscapedEnd(s[i..]);
      assert buf == start + [QUOTE] + Escaped(s);
      PrintChar(QUOTE);
      QuotedParts(s);
      assert start + [QUOTE] + Escaped(s) + [QUOTE] == start + ([QUOTE] + (Escaped(s) + [QUOTE]));
    }

    method PrintScalar(v: Tree)
      requires !v.Node? && NoDoubles(v)
      modifies this
      ensures buf == old(buf) + ScalarText(v)
    {
      hide IntText, StringText, NumeralText, EscapedPieces;
      match v
      case Str(s) =>
        PrintEscaped(s);
      case Null =>
        Puts(NULL_TEXT);
      case Bool(b) =>
        Puts(if b then TRUE_TEXT else FALSE_TEXT);
      case Int(n) =>
        var txt := IntToChars(n);
        Puts(txt);
        IntNumeralText(n);
    }

    /** Prints one element of a scalar array and what separates it from the next one. */
    method PrintLineElement(v: Tree, last: bool, indent: nat, startOfLine: nat, ghost line: Line) returns (start: nat)
      requires !v.Node? && NoDoubles(v) && startOfLine <= |buf| && line.column == |buf| - startOfLine
      modifies this
      ensures buf == old(buf) + ScalarText(v) + if last then [] else [COMMA] + NextLine(line, v, indent).before
      ensures start <= |buf| && (!last ==> |buf| - start == NextLine(line, v, indent).column)
    {
      hide ScalarText;
      start := startOfLine;
      PrintScalar(v);
      if !last {
        Puts([COMMA, SPACE]);
      }
      if |buf| - start > MAX_LINE && !last {
        PrintChar(LF);
        PrintTabs(indent + 1);
        start := |buf|;
      }
    }

    /** Prints a scalar array in lines of limited length. */
    method SerializeLines(v: Tree, indent: nat)
      requires v.Node? && !v.isObject && v.elems != [] && !HasChildren(v.elems) && NoDoubles(v) && Keyed(v)
      modifies this
      ensures buf == old(buf) + TextOf(Format(v, true, indent))
    {
      hide ScalarText, NextLine, LineRest, LineItems, TextOf;
      ghost var s := Format(v, true, indent);
      ghost var total := buf + TextOf(s);
      var size := |v.elems|;
      var startOfLine: nat := |buf|;
      FirstLine(v.elems, s, indent);
      Puts([0x5B, SPACE]);
      ghost var line := FIRST_LINE;
      assert v.elems[0..] == v.elems && s.items[0..] == s.items;
      for i := 0 to size
        invariant startOfLine <= |buf|
        invariant i < size ==>
                    line.column == |buf| - startOfLine && s.items[i..] == LineItems(v.elems[i..], line, indent)
        invariant buf + LineRest(s, i) == total
      {
        assert KeyedElem(false, v.elems[i]) && NoDoubles(v.elems[i].value) && !v.elems[i].value.Node?;
        LineStep(v.elems, s, line, indent, i);
        startOfLine := PrintLineElement(v.elems[i].value, i == size - 1, indent, startOfLine, line);
        line := NextLine(line, v.elems[i].value, indent);
      }
      LineEnd(s);
      Puts([SPACE, 0x5D]);
    }

    method PrintKey(key: Option<bytes>, formatted: bool)
      modifies this
      ensures buf == old(buf) + KeyText(KeyName(key, Gap(formatted)))
    {
      hide StringText, EscapedPieces;
      ghost var start := buf;
      if key.Some? {
        PrintEscaped(key.value);
        if formatted {
          Puts([SPACE, COLON, SPACE]);
        } else {
          PrintChar(COLON);
        }
        ghost var gap := Gap(formatted);
        assert gap + ([COLON] + gap) == if formatted then [SPACE, COLON, SPACE] else [COLON];
        Assoc(start, Quoted(key.value), gap + ([COLON] + gap));
      }
    }

    /** Prints an object or an array. */
    method SerializeNode(v: Tree, formatted: bool, indent: nat)
      requires v.Node? && NoDoubles(v) && Keyed(v)
      modifies this
      ensures buf == old(buf) + TextOf(Format(v, formatted, indent))
      decreases v, 2
    {
      hide LineItems, TextOf;
      if |v.elems| == 0 {
        Puts([if v.isObject then 0x7B else 0x5B] + (if formatted then [SPACE] else []) + [EndChar(v.isObject)]);
        EmptyText(v, formatted, indent);
        return;
      }
      if formatted && !v.isObject && !HasChildren(v.elems) {
        SerializeLines(v, indent);
        return;
      }
      SerializeElements(v, formatted, indent);
    }

    /** What one round of the loop prints. */
    method PrintElement(v: Tree, formatted: bool, indent: nat, i: nat)
      requires v.Node? && i < |v.elems| && NoDoubles(v) && Keyed(v)
      modifies this
      ensures buf == old(buf) + ElementText(v, formatted, indent, i)
      decreases v, 0
    {
      hide KeyText, TextOf, Tabs, Opening, Ending;
      var e := v.elems[i];
      ghost var start := buf;
      assert KeyedElem(v.isObject, e) && NoDoubles(e.value);
      PrintOpening(formatted, indent);
      PrintKey(e.key, formatted);
      if e.value.Node? {
        SerializeNode(e.value, formatted, indent + 1);
      } else {
        PrintScalar(e.value);
        LeafText(e.value, formatted, indent + 1);
      }
      PrintEnding(i == |v.elems| - 1, formatted);
      Concat4(start, Opening(formatted, indent), KeyText(KeyName(e.key, Gap(formatted))),
              TextOf(Format(e.value, formatted, indent + 1)), Ending(i == |v.elems| - 1, formatted));
    }

    method PrintOpening(formatted: bool, indent: nat)
      modifies this
      ensures buf == old(buf) + Opening(formatted, indent)
    {
      if formatted {
        PrintTabs(indent + 1);
      }
    }

    method PrintEnding(last: bool, formatted: bool)
      modifies this
      ensures buf == old(buf) + Ending(last, formatted)
    {
      if !last {
        PrintChar(COMMA);
      }
      if formatted {
        PrintChar(LF);
      }
    }

    method SerializeElements(v: Tree, formatted: bool, indent: nat)
      requires v.Node? && v.elems != [] && NoDoubles(v) && Keyed(v)
      requires !(formatted && !v.isObject && !HasChildren(v.elems))
      modifies this
      ensures buf == old(buf) + TextOf(Format(v, formatted, indent))
      decreases v, 1
    {
      hide ElementText, TextOf, NodeRest, Format;
      ghost var s := Format(v, formatted, indent);
      ghost var total := buf + TextOf(s);
      FirstElement(v, s, formatted, indent);
      PrintChar(if v.isObject then 0x7B else 0x5B);
      if formatted {
        PrintChar(LF);
      }
      for i := 0 to |v.elems|
        invariant buf + NodeRest(s, i, formatted, indent) == total
      {
        ghost var before := buf;
        NodeStep(v, s, formatted, indent, i);
        PrintElement(v, formatted, indent, i);
        Assoc(before, ElementText(v, formatted, indent, i), NodeRest(s, i + 1, formatted, indent));
      }
      LastElement(s, formatted, indent);
      if formatted {
        PrintTabs(indent);
      }
      PrintChar(EndChar(v.isObject));
    }

    /** Prints a document. */
    method Serialize(v: Tree, formatted: bool, nullTerminate: bool, indent: nat)
      requires NoDoubles(v) && Keyed(v)
      modifies this
      ensures buf == old(buf) + Serialized(v, formatted, nullTerminate, indent)
    {
      hide TextOf, Format, Tabs;
      ghost var start := buf;
      if formatted {
        PrintTabs(indent);
      }
      ghost var tabs := if formatted then Tabs(indent) else [];
      assert buf == start + tabs;
      if v.Node? {
        SerializeNode(v, formatted, indent);
      } else {
        PrintScalar(v);
        LeafText(v, formatted, indent);
      }
      ghost var before := buf;
      if v.Node? && formatted {
        PrintChar(LF);
      }
      ghost var end, nul := if formatted && v.Node? then [LF] else [], if nullTerminate then [0] else [];
      assert buf == before + end;
      if nullTerminate {
        PrintChar(0);
      }
      assert buf == before + end + nul;
      Concat4(start, tabs, TextOf(Format(v, formatted, indent)), end, nul);
      Assoc4(start, tabs, TextOf(Format(v, formatted, indent)), end, nul);
    }
  }

  lemma EscapedRest(s: bytes, i: nat)
    requires i < |s| && s[i] != 0
    ensures Escaped(s[i..]) == EscapedByte(s[i]) + Escaped(s[i + 1..])
  {
    hide Escaped, EscapedByte;
    EscapedNext(s[i..]);
    assert s[i..][1..] == s[i + 1..];
  }

  lemma EscapedEnd(s: bytes)
    requires s == [] || s[0] == 0
    ensures Escaped(s) == []
  {}

  lemma QuotedParts(s: bytes)
    ensures Quoted(s) == [QUOTE] + (Escaped(s) + [QUOTE])
  {}

  // ---- Regrouping concatenations.

  lemma Assoc<T>(a: seq<T>, b: seq<T>, c: seq<T>)
    ensures a + b + c == a + (b + c)
  {}

  lemma Concat4<T>(o: seq<T>, a: seq<T>, b: seq<T>, c: seq<T>, d: seq<T>)
    ensures o + a + b + c + d == o + (a + b + c + d)
  {}

  lemma Assoc4<T>(o: seq<T>, a: seq<T>, b: seq<T>, c: seq<T>, d: seq<T>)
    ensures o + (a + b + c + d) == o + (a + (b + (c + d)))
    ensures a + b + c + (d + o) == a + b + c + d + o
    ensures a + (b + (c + (d + o))) == a + b + c + d + o
  {
    assert a + (b + (c + d)) == a + b + c + d;
    assert a + (b + (c + (d + o))) == a + b + c + d + o;
  }

  lemma EmptyText(v: Tree, formatted: bool, indent: nat)
    requires v.Node? && v.elems == []
    ensures TextOf(Format(v, formatted, indent)) ==
            [if v.isObject then 0x7B else 0x5B] + (if formatted then [SPACE] else []) + [EndChar(v.isObject)]
  {}

  lemma LeafText(v: Tree, formatted: bool, indent: nat)
    requires !v.Node?
    ensures TextOf(Format(v, formatted, indent)) == ScalarText(v)
  {}

  // ---- What is left to print of a container, from its i-th element on.

  function End(s: Shown): bytes
    requires s.Container?
  {
    EndText(s.isObject, s.comma, s.inner)
  }

  /** From the i-th element on, without the whitespace in front of it. */
  function From(s: Shown, i: nat): bytes
    requires s.Container? && i < |s.items|
  {
    ItemsText(s.items[i..], End(s))
  }

  /** Behind the i-th element and the whitespace that follows it. */
  function Following(s: Shown, i: nat): bytes
    requires s.Container? && i < |s.items|
  {
    MoreText(s.items[i + 1..], End(s))
  }

  lemma FromStep(s: Shown, i: nat)
    requires s.Container? && i < |s.items|
    ensures From(s, i) ==
            KeyText(s.items[i].key) + (TextOf(s.items[i].value) + (s.items[i].after + Following(s, i)))
    ensures Following(s, i) ==
            if i == |s.items| - 1 then End(s) else [COMMA] + (s.items[i + 1].before + From(s, i + 1))
  {
    hide TextOf, KeyText, End;
    assert s.items[i..][1..] == s.items[i + 1..];
  }

  lemma ContainerText(s: Shown)
    requires s.Container? && s.items != []
    ensures TextOf(s) == [if s.isObject then 0x7B else 0x5B] + (s.items[0].before + From(s, 0))
  {
    assert s.items[0..] == s.items;
  }

  function LineRest(s: Shown, i: nat): bytes
    requires s.Container?
  {
    if i < |s.items| then From(s, i) else [SPACE, 0x5D]
  }

  lemma FirstLine(elems: seq<Elem<bytes>>, s: Shown, indent: nat)
    requires s == Container(false, LineItems(elems, FIRST_LINE, indent), false, []) && elems != []
    ensures TextOf(s) == [0x5B, SPACE] + LineRest(s, 0)
  {
    hide From, NextLine, TextOf;
    ContainerText(s);
    assert s.items[0].before == [SPACE];
  }

  lemma LineEnd(s: Shown)
    requires s.Container?
    ensures LineRest(s, |s.items|) == [SPACE, 0x5D]
  {}

  /** From one element of a scalar array to the next. */
  lemma LineStep(elems: seq<Elem<bytes>>, s: Shown, line: Line, indent: nat, i: nat)
    requires s.Container? && !s.isObject && |s.items| == |elems| && i < |elems|
    requires s.items[i..] == LineItems(elems[i..], line, indent) && elems[i].key.None?
    requires !s.comma
    ensures var next := NextLine(line, elems[i].value, indent);
            && (i < |elems| - 1 ==> s.items[i + 1..] == LineItems(elems[i + 1..], next, indent))
            && LineRest(s, i) ==
               ScalarText(elems[i].value) + (if i == |elems| - 1 then [] else [COMMA] + next.before) +
               LineRest(s, i + 1)
  {
    hide ScalarText, NextLine, From, Following, TextOf, KeyText;
    assert elems[i..][1..] == elems[i + 1..];
    assert s.items[i..][0] == s.items[i] && s.items[i..][1..] == s.items[i + 1..];
    assert s.items[i] == LineItem(line, elems[i], i == |elems| - 1);
    var x, y := ScalarText(elems[i].value), s.items[i].after + Following(s, i);
    FromStep(s, i);
    assert From(s, i) == x + y by {
      NoKeyText();
      LeafSpelled(elems[i].value);
      assert [] + (x + y) == x + y;
    }
    if i < |elems| - 1 {
      assert s.items[i + 1] == s.items[i + 1..][0];
      var before := NextLine(line, elems[i].value, indent).before;
      assert y == [COMMA] + before + LineRest(s, i + 1);
      Assoc(x, [COMMA] + before, LineRest(s, i + 1));
    } else {
      assert y == LineRest(s, i + 1);
      assert x + [] == x;
    }
  }

  lemma NoKeyText()
    ensures KeyText(None) == []
  {}

  lemma LeafSpelled(v: Tree)
    ensures TextOf(Leaf(Spelled(v))) == ScalarText(v)
  {}

  function NodeRest(s: Shown, i: nat, formatted: bool, indent: nat): bytes
    requires s.Container?
  {
    if i < |s.items| then Opening(formatted, indent) + From(s, i)
    else (if formatted then Tabs(indent) else []) + [EndChar(s.isObject)]
  }

  function Opening(formatted: bool, indent: nat): bytes {
    if formatted then Tabs(indent + 1) else []
  }

  function Ending(last: bool, formatted: bool): bytes {
    (if last then [] else [COMMA]) + (if formatted then [LF] else [])
  }

  function Gap(formatted: bool): bytes {
    if formatted then [SPACE] else []
  }

  function ElementText(v: Tree, formatted: bool, indent: nat, i: nat): bytes
    requires v.Node? && i < |v.elems|
  {
    Opening(formatted, indent) + KeyText(KeyName(v.elems[i].key, Gap(formatted)))
    + TextOf(Format(v.elems[i].value, formatted, indent + 1)) + Ending(i == |v.elems| - 1, formatted)
  }

  lemma FirstElement(v: Tree, s: Shown, formatted: bool, indent: nat)
    requires v.Node? && v.elems != [] && !(formatted && !v.isObject && !HasChildren(v.elems))
    requires s == Format(v, formatted, indent)
    ensures s.Container? && |s.items| == |v.elems| && s.isObject == v.isObject
    ensures TextOf(s) ==
            [if v.isObject then 0x7B else 0x5B] + (if formatted then [LF] else []) + NodeRest(s, 0, formatted, indent)
  {
    hide From, Tabs, TextOf;
    ContainerText(s);
  }

  lemma FormatItem(v: Tree, formatted: bool, indent: nat, i: nat)
    requires v.Node? && i < |v.elems| && !(formatted && !v.isObject && !HasChildren(v.elems))
    ensures var s := Format(v, formatted, indent);
            && s.Container? && s.isObject == v.isObject && !s.comma && |s.items| == |v.elems|
            && s.items[i] == NodeItem(v.elems[i].key, Format(v.elems[i].value, formatted, indent + 1),
                                      formatted, indent, i == |v.elems| - 1)
  {
    hide NodeItem, LineItems;
  }

  lemma AfterElement(v: Tree, s: Shown, formatted: bool, indent: nat, i: nat)
    requires v.Node? && i < |v.elems| && !(formatted && !v.isObject && !HasChildren(v.elems))
    requires s == Format(v, formatted, indent)
    ensures s.Container? && |s.items| == |v.elems|
    ensures s.items[i].after + Following(s, i) ==
            Ending(i == |v.elems| - 1, formatted) + NodeRest(s, i + 1, formatted, indent)
  {
    hide Tabs, From, Following, Format, KeyName, TextOf;
    FormatItem(v, formatted, indent, i);
    FromStep(s, i);
    if i == |v.elems| - 1 {
      LastEnding(s.isObject, formatted, indent);
    } else {
      FormatItem(v, formatted, indent, i + 1);
      NextEnding(From(s, i + 1), formatted, indent);
    }
  }

  lemma LastEnding(isObject: bool, formatted: bool, indent: nat)
    ensures (if formatted then [LF] + Tabs(indent) else []) + EndText(isObject, false, []) ==
            Ending(true, formatted) + ((if formatted then Tabs(indent) else []) + [EndChar(isObject)])
  {
    hide Tabs;
    assert EndText(isObject, false, []) == [EndChar(isObject)];
  }

  lemma NextEnding(x: bytes, formatted: bool, indent: nat)
    ensures [] + ([COMMA] + ((if formatted then [LF] + Tabs(indent + 1) else []) + x)) ==
            Ending(false, formatted) + (Opening(formatted, indent) + x)
  {
    hide Tabs;
  }

  /** From one element of a container to the next. */
  lemma NodeStep(v: Tree, s: Shown, formatted: bool, indent: nat, i: nat)
    requires v.Node? && i < |v.elems| && !(formatted && !v.isObject && !HasChildren(v.elems))
    requires s == Format(v, formatted, indent)
    ensures NodeRest(s, i, formatted, indent) ==
            ElementText(v, formatted, indent, i) + NodeRest(s, i + 1, formatted, indent)
  {
    hide TextOf, Opening, Ending, Following, From, KeyText;
    AfterElement(v, s, formatted, indent, i);
    FromStep(s, i);
    var item, rest := s.items[i], NodeRest(s, i + 1, formatted, indent);
    var ending := Ending(i == |v.elems| - 1, formatted);
    var key, text := KeyText(KeyName(v.elems[i].key, Gap(formatted))), TextOf(item.value);
    assert From(s, i) == key + (text + (ending + rest));
    Assoc4(rest, Opening(formatted, indent), key, text, ending);
  }

  lemma LastElement(s: Shown, formatted: bool, indent: nat)
    requires s.Container?
    ensures NodeRest(s, |s.items|, formatted, indent) ==
            (if formatted then Tabs(indent) else []) + [EndChar(s.isObject)]
  {}
}
