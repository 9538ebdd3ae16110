/** The text the JSON writer prints, spelled out character by character. */
module JsonWritten {
  import opened Codec
  import opened JsonText
  import opened JsonGrammar
  import opened JsonLexemes
  import opened JsonLayout
  import opened JsonPrinting
  import opened JsonFormat
  import opened JsonWriter
  import opened Wrappers

  /** A character in a string: quote, backslash and five control characters have a letter, the other control characters
      a code of four digits. */
  function CharText(c: byte): bytes {
    if c == 8 then ['\\' as int, 'b' as int]
    else if c == 9 then ['\\' as int, 't' as int]
    else if c == 10 then ['\\' as int, 'n' as int]
    else if c == 12 then ['\\' as int, 'f' as int]
    else if c == 13 then ['\\' as int, 'r' as int]
    else if c == 34 then ['\\' as int, 34]
    else if c == 92 then ['\\' as int, 92]
    else if c < 32 then
      ['\\' as int, 'u' as int, '0' as int, '0' as int, if c < 16 then '0' as int else '1' as int,
       if c % 16 < 10 then '0' as int + c % 16 else 'a' as int + c % 16 - 10]
    else [c]
  }

  /** The characters of a string up to its first zero byte. */
  function CharsText(s: bytes): bytes {
    if s == [] || s[0] == 0 then [] else CharText(s[0]) + CharsText(s[1..])
  }

  function QuotedText(s: bytes): bytes {
    [34] + CharsText(s) + [34]
  }

  /** The digits of a number that is not negative. */
  function DigitsText(n: nat): bytes {
    if n < 10 then ['0' as int + n] else DigitsText(n / 10) + ['0' as int + n % 10]
  }

  function NumberText(n: int64): bytes {
    if n >= 0 then DigitsText(n)
    else if n > -0x8000_0000_0000_0000 then ['-' as int] + DigitsText(-n)
    else ['-' as int, 39, 46, 46, 45, 45, 41, 46, 48, 45, 42, 40, 43, 44, 41, 41, 43, 40, 48, 40]
  }

  function ValueText(v: Tree): bytes {
    match v
    case Null => ['n' as int, 'u' as int, 'l' as int, 'l' as int]
    case Bool(true) => ['t' as int, 'r' as int, 'u' as int, 'e' as int]
    case Bool(false) => ['f' as int, 'a' as int, 'l' as int, 's' as int, 'e' as int]
    case Int(n) => NumberText(n)
    case Str(s) => QuotedText(s)
    case _ => []
  }

  // ---- Strings.

  lemma CharPrinted(c: byte)
    requires c != 0
    ensures EscapedByte(c) == CharText(c)
  {}

  lemma {:induction false} StringPrinted(s: bytes)
    ensures Escaped(s) == CharsText(s) && Quoted(s) == QuotedText(s)
    decreases |s|
  {
    hide EscapedByte, CharText, Escaped;
    if s == [] || s[0] == 0 {
      EscapedEnd(s);
    } else {
      EscapedNext(s);
      CharPrinted(s[0]);
      StringPrinted(s[1..]);
    }
    QuotedParts(s);
  }

  // ---- Numbers.

  lemma {:induction false} DigitsPrinted(n: nat)
    ensures DigitChars(n) == DigitsText(n)
  {
    hide DigitChars, Quotient, Remainder;
    DigitCharsUnfold(n);
    NatDigits(n);
    if n >= 10 {
      DigitsPrinted(n / 10);
    } else {
      assert [] + [0x30 + n] == [0x30 + n];
    }
  }

  lemma NegativeDigits(n: int)
    requires n < 0
    ensures DigitChars(n) == (if n > -10 then [] else DigitChars(-(-n / 10))) + [0x30 - -n % 10]
  {}

  lemma LeastStart()
    ensures DigitChars(-922337) == [39, 46, 46, 45, 45, 41]
  {
    hide DigitChars;
    NegativeDigits(-9);
    NegativeDigits(-92);
    NegativeDigits(-922);
    NegativeDigits(-9223);
    NegativeDigits(-92233);
    NegativeDigits(-922337);
  }

  lemma LeastMiddle()
    ensures DigitChars(-9223372036854) == [39, 46, 46, 45, 45, 41, 46, 48, 45, 42, 40, 43, 44]
  {
    hide DigitChars;
    LeastStart();
    NegativeDigits(-9223372);
    NegativeDigits(-92233720);
    NegativeDigits(-922337203);
    NegativeDigits(-9223372036);
    NegativeDigits(-92233720368);
    NegativeDigits(-922337203685);
    NegativeDigits(-9223372036854);
  }

  /** The least integer is its own magnitude, and its digits come out below the digits. */
  lemma LeastPrinted()
    ensures IntText(-0x8000_0000_0000_0000) ==
            ['-' as int, 39, 46, 46, 45, 45, 41, 46, 48, 45, 42, 40, 43, 44, 41, 41, 43, 40, 48, 40]
  {
    hide DigitChars;
    LeastMiddle();
    NegativeDigits(-92233720368547);
    NegativeDigits(-922337203685477);
    NegativeDigits(-9223372036854775);
    NegativeDigits(-92233720368547758);
    NegativeDigits(-922337203685477580);
    NegativeDigits(-9223372036854775808);
  }

  lemma NumberPrinted(n: int64)
    ensures IntText(n) == NumberText(n)
  {
    hide DigitChars;
    if n == -0x8000_0000_0000_0000 {
      LeastPrinted();
    } else {
      DigitsPrinted(if n < 0 then -n else n);
      assert [] + DigitsText(if n < 0 then -n else n) == DigitsText(if n < 0 then -n else n);
    }
  }

  lemma ValuePrinted(v: Tree)
    requires !v.Node? && NoDoubles(v)
    ensures ScalarText(v) == ValueText(v)
  {
    hide StringText, EscapedPieces, IntNumeral, NumeralText, IntText, NumberText, QuotedText;
    match v
    case Str(s) => StringPrinted(s);
    case Int(n) => NumberPrinted(n); IntNumeralText(n);
    case _ =>
  }

  // ---- Containers.

  function TabsText(n: nat): bytes {
    if n == 0 then [] else [9] + TabsText(n - 1)
  }

  predicate AnyNode(elems: seq<Elem<bytes>>) {
    elems != [] && (elems[0].value.Node? || AnyNode(elems[1..]))
  }

  /** The elements of an array of scalars; line is the text of the current line so far. A line that has become longer
      than 100 characters with the comma and the space behind an element is broken there. */
  function LinesText(elems: seq<Elem<bytes>>, line: bytes, indent: nat): bytes {
    if elems == [] then []
    else if |elems| == 1 then ValueText(elems[0].value)
    else
      var text := ValueText(elems[0].value) + [',' as int, 32];
      if |line| + |text| > 100 then text + [10] + TabsText(indent + 1) + LinesText(elems[1..], [], indent)
      else text + LinesText(elems[1..], line + text, indent)
  }

  /** A document: compact, without any whitespace; or formatted, where an object, and an array that holds a container,
      has each element on a line of its own, indented by tabs, with spaces around the colon, and an array of scalars is
      written in lines of about 100 characters. */
  function DocText(v: Tree, formatted: bool, indent: nat): bytes
    decreases v
  {
    if !v.Node? then ValueText(v)
    else
      var open, close := if v.isObject then '{' as int else '[' as int, if v.isObject then '}' as int else ']' as int;
      if v.elems == [] then if formatted then [open, 32, close] else [open, close]
      else if formatted && !v.isObject && !AnyNode(v.elems) then
        ['[' as int, 32] + LinesText(v.elems, ['[' as int, 32], indent) + [32, ']' as int]
      else if formatted then
        [open, 10] + ElementsText(v.elems, true, indent) + TabsText(indent) + [close]
      else [open] + ElementsText(v.elems, false, indent) + [close]
  }

  function MemberText(e: Elem<bytes>, formatted: bool, indent: nat): bytes
    decreases e
  {
    (if e.key.None? then []
     else QuotedText(e.key.value) + if formatted then [32, ':' as int, 32] else [':' as int])
    + DocText(e.value, formatted, indent)
  }

  function ElementsText(elems: seq<Elem<bytes>>, formatted: bool, indent: nat): bytes
    decreases elems
  {
    if elems == [] then []
    else
      (if formatted then TabsText(indent + 1) else [])
      + MemberText(elems[0], formatted, indent + 1)
      + (if |elems| > 1 then [',' as int] else []) + (if formatted then [10] else [])
      + ElementsText(elems[1..], formatted, indent)
  }

  lemma {:induction false} TabsPrinted(n: nat)
    ensures Tabs(n) == TabsText(n)
  {
    if n > 0 {
      TabsPrinted(n - 1);
      assert Tabs(n) == [9] + Tabs(n - 1);
    }
  }

  lemma {:induction false} NodesFound(elems: seq<Elem<bytes>>)
    ensures HasChildren(elems) <==> AnyNode(elems)
  {
    if elems != [] {
      NodesFound(elems[1..]);
      assert forall i | 1 <= i < |elems| :: elems[1..][i - 1] == elems[i];
    }
  }

  lemma KeyPrinted(key: Option<bytes>, formatted: bool)
    ensures KeyText(KeyName(key, Gap(formatted))) ==
            if key.None? then []
            else QuotedText(key.value) + if formatted then [32, ':' as int, 32] else [':' as int]
  {
    hide StringText, EscapedPieces, QuotedText;
    if key.Some? {
      StringPrinted(key.value);
    }
  }

  /** Elements of a container from the i-th one on. */
  lemma {:induction false} ElementsPrinted(v: Tree, formatted: bool, indent: nat, i: nat)
    requires v.Node? && NoDoubles(v) && Keyed(v) && i <= |v.elems| && v.elems != []
    requires !(formatted && !v.isObject && !HasChildren(v.elems))
    ensures var s := Format(v, formatted, indent);
            NodeRest(s, i, formatted, indent) ==
            ElementsText(v.elems[i..], formatted, indent) + NodeRest(s, |v.elems|, formatted, indent)
    decreases v, 0, |v.elems| - i
  {
    hide Format, NodeRest, ElementText, DocText, QuotedText, TabsText;
    var s := Format(v, formatted, indent);
    FormatItem(v, formatted, indent, 0);
    var end := NodeRest(s, |v.elems|, formatted, indent);
    if i == |v.elems| {
      assert [] + end == end;
    } else {
      NodeStep(v, s, formatted, indent, i);
      ElementsPrinted(v, formatted, indent, i + 1);
      ElementPrinted(v, formatted, indent, i);
      assert v.elems[i..][1..] == v.elems[i + 1..];
      var more := ElementsText(v.elems[i + 1..], formatted, indent);
      Assoc(ElementText(v, formatted, indent, i), more, end);
    }
  }

  lemma ElementPrinted(v: Tree, formatted: bool, indent: nat, i: nat)
    requires v.Node? && NoDoubles(v) && Keyed(v) && i < |v.elems|
    ensures ElementText(v, formatted, indent, i) + ElementsText(v.elems[i + 1..], formatted, indent) ==
            ElementsText(v.elems[i..], formatted, indent)
    decreases v, 0, 0
  {
    hide Format, DocText, QuotedText, KeyText, KeyName, TextOf;
    var elems, e := v.elems[i..], v.elems[i];
    assert elems[1..] == v.elems[i + 1..];
    assert KeyedElem(v.isObject, e);
    TabsPrinted(indent + 1);
    KeyPrinted(e.key, formatted);
    DocPrinted(e.value, formatted, indent + 1);
    var key := if e.key.None? then []
               else QuotedText(e.key.value) + if formatted then [32, ':' as int, 32] else [':' as int];
    ElementParts(if formatted then TabsText(indent + 1) else [], key, DocText(e.value, formatted, indent + 1),
                 if |elems| > 1 then [',' as int] else [], if formatted then [10] else [],
                 ElementsText(elems[1..], formatted, indent));
  }

  lemma ElementParts<T>(a: seq<T>, b: seq<T>, c: seq<T>, d: seq<T>, e: seq<T>, rest: seq<T>)
    ensures a + b + c + (d + e) + rest == a + (b + c) + d + e + rest
  {}

  /** Elements of an array of scalars from the i-th one on, with the end of the array. */
  lemma {:induction false} LinesPrinted(elems: seq<Elem<bytes>>, s: Shown, line: Line, before: bytes, indent: nat,
                                        i: nat)
    requires s.Container? && !s.isObject && !s.comma && |s.items| == |elems| && i < |elems|
    requires s.items[i..] == LineItems(elems[i..], line, indent) && line.column == |before|
    requires forall j | 0 <= j < |elems| :: elems[j].key.None? && !elems[j].value.Node? && NoDoubles(elems[j].value)
    ensures LineRest(s, i) == LinesText(elems[i..], before, indent) + [32, ']' as int]
    decreases |elems| - i
  {
    hide ScalarText, ValueText, LineRest, TabsText, LinesText, LineItems;
    LineStep(elems, s, line, indent, i);
    ValuePrinted(elems[i].value);
    LinesNext(elems[i..], before, indent);
    assert elems[i..][1..] == elems[i + 1..];
    var text, end := ValueText(elems[i].value), [32, ']' as int];
    if i == |elems| - 1 {
      LineEnd(s);
      assert text + [] + end == text + end;
    } else {
      var next, more := NextLine(line, elems[i].value, indent), text + [',' as int, 32];
      TabsPrinted(indent + 1);
      if line.column + |more| > 100 {
        LinesPrinted(elems, s, next, [], indent, i + 1);
        Broken(text, TabsText(indent + 1), LinesText(elems[i + 1..], [], indent), end);
      } else {
        LinesPrinted(elems, s, next, before + more, indent, i + 1);
        Unbroken(text, LinesText(elems[i + 1..], before + more, indent), end);
      }
    }
  }

  lemma LinesNext(elems: seq<Elem<bytes>>, line: bytes, indent: nat)
    requires elems != []
    ensures var text := ValueText(elems[0].value);
            var more := text + [',' as int, 32];
            LinesText(elems, line, indent) ==
            if |elems| == 1 then text
            else if |line| + |more| > 100 then more + [10] + TabsText(indent + 1) + LinesText(elems[1..], [], indent)
            else more + LinesText(elems[1..], line + more, indent)
  {
    hide ValueText, TabsText;
  }

  lemma Broken(text: bytes, tabs: bytes, rest: bytes, end: bytes)
    ensures text + ([COMMA] + ([SPACE, LF] + tabs)) + (rest + end) ==
            text + [',' as int, 32] + [10] + tabs + rest + end
  {}

  lemma Unbroken(text: bytes, rest: bytes, end: bytes)
    ensures text + ([COMMA] + [SPACE]) + (rest + end) == text + [',' as int, 32] + rest + end
  {}

  lemma LinesDocPrinted(v: Tree, indent: nat)
    requires v.Node? && !v.isObject && v.elems != [] && !HasChildren(v.elems) && NoDoubles(v) && Keyed(v)
    ensures TextOf(Format(v, true, indent)) == DocText(v, true, indent)
  {
    hide LineItems, LinesText, TextOf, LineRest;
    var s := Format(v, true, indent);
    NodesFound(v.elems);
    FirstLine(v.elems, s, indent);
    assert v.elems[0..] == v.elems && s.items[0..] == s.items;
    forall j | 0 <= j < |v.elems|
      ensures v.elems[j].key.None? && !v.elems[j].value.Node? && NoDoubles(v.elems[j].value)
    {
      assert KeyedElem(false, v.elems[j]);
    }
    LinesPrinted(v.elems, s, FIRST_LINE, ['[' as int, 32], indent, 0);
  }

  /** What is laid out for a tree is its text. */
  lemma {:induction false} DocPrinted(v: Tree, formatted: bool, indent: nat)
    requires NoDoubles(v) && Keyed(v)
    ensures TextOf(Format(v, formatted, indent)) == DocText(v, formatted, indent)
    decreases v, 1
  {
    hide LineItems, TextOf, ElementsText, LinesText, ScalarText, ValueText, NodeRest;
    if !v.Node? {
      LeafText(v, formatted, indent);
      ValuePrinted(v);
    } else if v.elems == [] {
      EmptyText(v, formatted, indent);
    } else if formatted && !v.isObject && !HasChildren(v.elems) {
      LinesDocPrinted(v, indent);
    } else {
      ElementsPrinted(v, formatted, indent, 0);
      assert v.elems[0..] == v.elems;
      NodesDocPrinted(v, formatted, indent);
    }
  }

  lemma NodesDocPrinted(v: Tree, formatted: bool, indent: nat)
    requires v.Node? && v.elems != [] && !(formatted && !v.isObject && !HasChildren(v.elems))
    requires var s := Format(v, formatted, indent);
             && s.Container?
             && NodeRest(s, 0, formatted, indent) ==
                ElementsText(v.elems, formatted, indent) + NodeRest(s, |v.elems|, formatted, indent)
    ensures TextOf(Format(v, formatted, indent)) == DocText(v, formatted, indent)
  {
    hide Format, TextOf, ElementsText, LinesText, NodeRest;
    var s := Format(v, formatted, indent);
    NodesFound(v.elems);
    FirstElement(v, s, formatted, indent);
    LastElement(s, formatted, indent);
    TabsPrinted(indent);
  }

  /** The whole output of the writer: a formatted document is indented and ends with a line feed when it is a container.
      */
  lemma SerializedText(v: Tree, formatted: bool, nullTerminate: bool, indent: nat)
    requires NoDoubles(v) && Keyed(v)
    ensures Serialized(v, formatted, nullTerminate, indent) ==
            (if formatted then TabsText(indent) else []) + DocText(v, formatted, indent)
            + (if formatted && v.Node? then [10] else []) + (if nullTerminate then [0] else [])
  {
    hide TextOf, Format, DocText;
    DocPrinted(v, formatted, indent);
    TabsPrinted(indent);
  }
}
