/** Writing a document and reading it in place, through the code of both sides. */
module JsonRoundTrip {
  import opened Codec
  import opened JsonText
  import opened JsonGrammar
  import opened JsonLayout
  import opened JsonAccepted
  import opened JsonFormat
  import JsonWriter
  import JsonScanner
  import JsonParser

  lemma {:induction false} ReadableKeyed(v: Tree)
    requires Readable(v)
    ensures Keyed(v)
    decreases v
  {
    if v.Node? {
      forall i | 0 <= i < |v.elems| ensures KeyedElem(v.isObject, v.elems[i]) {
        assert ReadableElem(v.isObject, v.elems[i]);
        ReadableKeyed(v.elems[i].value);
      }
    }
  }

  /** Prints a tree into a vector, copies that to a buffer and reads the buffer in place: the tree that comes out,
      its strings looked up in the overwritten buffer, is the one that went in. */
  method WriteAndRead(v: Tree, formatted: bool, indent: nat)
    returns (buf: array<byte>, o: Outcome<Value<JsonScanner.Span>>)
    requires v.Node? && NoDoubles(v) && Readable(v)
    ensures o.Ok? && JsonParser.Deref(o.value, buf[..]) == v
  {
    hide Serialized, ParseDocument;
    ReadableKeyed(v);
    var printer := new JsonWriter.VectorPrinter();
    printer.Serialize(v, formatted, true, indent);
    SerializedEnds(v, formatted, indent);
    var chars := printer.buf;
    assert [] + Serialized(v, formatted, true, indent) == Serialized(v, formatted, true, indent);
    buf := new byte[|chars|](i requires 0 <= i < |chars| => chars[i]);
    assert buf[..] == chars;
    WriteThenRead(v, formatted, indent);
    o := JsonParser.DeserializeInPlace(buf);
  }

  lemma SerializedEnds(v: Tree, formatted: bool, indent: nat)
    ensures var s := Serialized(v, formatted, true, indent);
            s != [] && s[|s| - 1] == 0
  {
    hide TextOf, Format;
  }
}
