/** Scanning in the buffer that holds the text: skipping, unescaping strings in place, and reading numbers. */
module JsonScanner {
  import opened Codec
  import opened JsonText

  /** The buffer still holds the text from position p on. What is before p may have been overwritten. */
  ghost predicate Unread(buf: array<byte>, t: Text, p: nat)
    reads buf
  {
    buf.Length == |t| && p <= |t| && buf[p..] == t[p..]
  }

  lemma UnreadAt(buf: array<byte>, t: Text, p: nat, q: nat)
    requires Unread(buf, t, p) && p <= q <= |t|
    ensures Unread(buf, t, q)
    ensures q < |t| ==> buf[q] == t[q]
  {
    if q < |t| {
      assert buf[q] == buf[p..][q - p];
      assert t[q] == t[p..][q - p];
    }
    assert buf[q..] == buf[p..][q - p..];
    assert t[q..] == t[p..][q - p..];
  }

  method SkipRun(buf: array<byte>, p: nat, ghost t: Text) returns (q: nat)
    requires buf.Length == |t| && p <= |t| && Unread(buf, t, p)
    ensures q == EndOfRun(t, p) && Unread(buf, t, q)
  {
    hide Unread;
    q := p;
    UnreadAt(buf, t, p, q);
    while q < buf.Length && White(buf[q])
      invariant p <= q <= |t| == buf.Length && Unread(buf, t, q)
      invariant q < |t| ==> buf[q] == t[q]
      invariant EndOfRun(t, p) == EndOfRun(t, q)
      decreases |t| - q
    {
      UnreadAt(buf, t, q, q + 1);
      q := q + 1;
    }
  }

  /** Whitespace and comments inside a container. The result is the length of the buffer when the end is passed. */
  method SkipWhitespace(buf: array<byte>, p: nat, ghost t: Text) returns (q: nat)
    requires buf.Length == |t| && p <= |t| && Unread(buf, t, p)
    ensures q == SkipWhite(t, p)
  {
    hide Unread, EndOfRun, EndOfComment;
    q := p;
    UnreadAt(buf, t, p, q);
    while q < buf.Length && White(buf[q])
      invariant p <= q <= |t| == buf.Length && Unread(buf, t, q)
      invariant q < |t| ==> buf[q] == t[q]
      invariant SkipWhite(t, p) == SkipWhite(t, q)
      decreases |t| - q
    {
      ghost var start := q;
      q := SkipRun(buf, q, t);
      UnreadAt(buf, t, q, q);
      if q == buf.Length || buf[q] != SLASH {
        return;
      }
      UnreadAt(buf, t, q, q + 1);
      if buf[q + 1] != SLASH {
        return;
      }
      UnreadAt(buf, t, q, q + 2);
      q := SkipComment(buf, q + 2, t);
    }
  }

  method SkipComment(buf: array<byte>, p: nat, ghost t: Text) returns (q: nat)
    requires p < |t| && Unread(buf, t, p)
    ensures q == EndOfComment(t, p) && buf.Length == |t| && Unread(buf, t, q) && buf[q] == t[q]
  {
    hide Unread;
    q := p;
    UnreadAt(buf, t, p, q);
    while !EndsLine(buf[q])
      invariant p <= q < |t| == buf.Length && Unread(buf, t, q) && buf[q] == t[q]
      invariant EndOfComment(t, p) == EndOfComment(t, q)
      decreases |t| - q
    {
      UnreadAt(buf, t, q, q + 1);
      q := q + 1;
    }
  }

  /** Whitespace and comments around the document. */
  method SkipAround(buf: array<byte>, p: nat, ghost t: Text) returns (q: nat)
    requires p < |t| && Unread(buf, t, p)
    ensures q == SkipOutside(t, p)
  {
    hide Unread;
    q := p;
    UnreadAt(buf, t, p, q);
    while buf[q] != 0
      invariant p <= q < |t| == buf.Length && Unread(buf, t, q) && buf[q] == t[q]
      invariant SkipOutside(t, p) == SkipOutside(t, q)
      decreases |t| - q
    {
      UnreadAt(buf, t, q, q + 1);
      if buf[q] == SPACE || buf[q] == 9 {
        var c := buf[q];
        q := q + 1;
        while buf[q] == c
          invariant p <= q < |t| && Unread(buf, t, q) && buf[q] == t[q]
          invariant SkipOutside(t, p) == SkipOutside(t, q)
          decreases |t| - q
        {
          UnreadAt(buf, t, q, q + 1);
          q := q + 1;
        }
      } else if buf[q] == SLASH && buf[q + 1] == SLASH {
        UnreadAt(buf, t, q, q + 2);
        q := SkipComment(buf, q + 2, t);
      } else if buf[q] > SPACE {
        return;
      } else {
        q := q + 1;
      }
    }
  }

  // ---- Strings.

  /** A place in the buffer. */
  datatype Span = Span(lo: nat, hi: nat)

  method ReadHex(buf: array<byte>, p: nat, ghost t: Text) returns (o: Outcome<nat>)
    requires p < |t| && Unread(buf, t, p)
    ensures o == ScanHex(t, p, 4, 0)
  {
    hide Unread;
    var q: nat, u: nat := p, 0;
    UnreadAt(buf, t, p, q);
    for i := 0 to 4
      invariant q == p + i < |t| == buf.Length && Unread(buf, t, q) && buf[q] == t[q]
      invariant u < [65536, 4096, 256, 16, 1][4 - i]
      invariant ScanHex(t, p, 4, 0) == ScanHex(t, q, 4 - i, u)
    {
      var cc := buf[q];
      q := q + 1;
      if HexValue(cc) < 0 {
        return Err(InvalidUnicodeEscape, q);
      }
      UnreadAt(buf, t, p, q);
      u := 16 * u + HexValue(cc);
    }
    o := Ok(u, q);
  }

  /** A continuation byte as the code forms it: the high bit set and the next one cleared. */
  function Continuation(u: byte): byte {
    (((u as bv8) | 0x80) & 0xBF) as int
  }

  /** A first byte as the code forms it. */
  function FirstByte(u: byte, mark: bv8): byte {
    ((u as bv8) | mark) as int
  }

  lemma ContinuationBits(v: bv8)
    ensures ((v | 0x80) & 0xBF) as int == 0x80 + (v & 0x3F) as int
    ensures (v & 0x3F) as int == v as int % 64
  {}

  /** A continuation byte carries the low six bits. */
  lemma ContinuationByte(u: byte)
    ensures Continuation(u) == 0x80 + u % 64
  {
    ByteBits(u);
    ContinuationBits(u as bv8);
  }

  lemma FirstByteBits(v: bv8)
    ensures v as int < 0x80 ==> (v | 0) as int == v as int
    ensures v as int < 0x20 ==> (v | 0xC0) as int == 0xC0 + v as int
    ensures v as int < 0x10 ==> (v | 0xE0) as int == 0xE0 + v as int
  {}

  /** A first byte carries the bits that are left. */
  lemma FirstByteSum(u: byte)
    ensures u < 0x80 ==> FirstByte(u, 0) == u
    ensures u < 0x20 ==> FirstByte(u, 0xC0) == 0xC0 + u
    ensures u < 0x10 ==> FirstByte(u, 0xE0) == 0xE0 + u
  {
    ByteBits(u);
    FirstByteBits(u as bv8);
  }

  lemma LowSixBits(u: nat)
    ensures u % 256 % 64 == u % 64
  {
    assert u == 64 * (4 * (u / 256)) + u % 256;
  }

  /** The continuation byte of a code. */
  method ContinuationOf(u: nat) returns (c: byte)
    ensures c == 0x80 + u % 64
  {
    hide *;
    ContinuationByte(u % 256);
    LowSixBits(u);
    c := Continuation(u % 256);
  }

  /** Writes the bytes of a code from dst on, last byte first. */
  method WriteUtf8(buf: array<byte>, dst: nat, u: nat) returns (end: nat)
    requires u < 65536 && dst + |Utf8(u)| <= buf.Length
    modifies buf
    ensures end == dst + |Utf8(u)| && buf[..] == old(buf[..dst]) + Utf8(u) + old(buf[end..])
  {
    hide Continuation, FirstByte;
    var len := 3;
    if u != 0 && u < 0x80 {
      len := 1;
    } else if u < 0x800 {
      len := 2;
    }
    end := dst + len;
    var q, v := end, u;
    if len == 3 {
      q := q - 1;
      buf[q] := ContinuationOf(v);
      v := v / 64;
    }
    if len >= 2 {
      q := q - 1;
      buf[q] := ContinuationOf(v);
      v := v / 64;
    }
    q := q - 1;
    FirstByteSum(v);
    if len == 1 {
      buf[q] := FirstByte(v, 0);
    } else if len == 2 {
      buf[q] := FirstByte(v, 0xC0);
    } else {
      buf[q] := FirstByte(v, 0xE0);
    }
  }

  /** The four digits after a 'u', written from dst on as UTF-8. */
  method ReadUnicode(buf: array<byte>, p: nat, dst: nat, ghost t: Text) returns (o: Outcome<nat>)
    requires dst < p < |t| == buf.Length && Unread(buf, t, p)
    modifies buf
    ensures buf[..dst] == old(buf[..dst])
    ensures match ScanHex(t, p, 4, 0)
            case Ok(u, q) =>
              var end := dst + |Utf8(u)|;
              o == Ok(end, q) && end <= q && buf[dst..end] == Utf8(u) && Unread(buf, t, q)
            case Err(e, q) => o == Err(e, q)
            case Overrun => false
  {
    hide Utf8, ScanHex, Unread;
    o := ReadHex(buf, p, t);
    if o.Err? {
      return;
    }
    var q := p + 4;
    UnreadAt(buf, t, p, q);
    ghost var before := buf[..];
    var end := WriteUtf8(buf, dst, o.value);
    assert buf[q..] == buf[end..][q - end..] == before[q..];
    UnreadMoved(buf, t, q, before);
    o := Ok(end, q);
  }

  lemma UnreadMoved(buf: array<byte>, t: Text, q: nat, before: bytes)
    requires buf.Length == |t| == |before| && q <= |t| && buf[q..] == before[q..] == t[q..]
    ensures Unread(buf, t, q)
  {}

  /** What a single character after a backslash stands for. */
  method ReadSimpleEscape(buf: array<byte>, p: nat, dst: nat, ghost t: Text) returns (end: nat)
    requires dst < p < |t| == buf.Length && Unread(buf, t, p) && t[p] != 'u' as int && t[p] != 0
    modifies buf
    ensures buf[..dst] == old(buf[..dst])
    ensures var b := ScanEscape(t, p).value;
            ScanEscape(t, p).Ok? && end == dst + |b| <= p + 1 && buf[dst..end] == b && Unread(buf, t, p + 1)
  {
    var c := buf[p];
    ghost var unread := buf[p + 1..];
    end := dst;
    if c == 'b' as int {
      c := 8;
    } else if c == 'f' as int {
      c := 12;
    } else if c == 'n' as int {
      c := LF;
    } else if c == 'r' as int {
      c := CR;
    } else if c == 't' as int {
      c := 9;
    } else if c != BACKSLASH && c != QUOTE && c != SLASH {
      buf[end] := BACKSLASH;
      end := end + 1;
    }
    buf[end] := c;
    end := end + 1;
    assert buf[p + 1..] == unread;
  }

  /** What follows a backslash, written from dst on. The write position never passes the read position. */
  method ReadEscape(buf: array<byte>, p: nat, dst: nat, ghost t: Text) returns (o: Outcome<nat>)
    requires dst < p < |t| == buf.Length && Unread(buf, t, p)
    modifies buf
    ensures buf[..dst] == old(buf[..dst])
    ensures match ScanEscape(t, p)
            case Ok(b, q) => o == Ok(dst + |b|, q) && dst + |b| <= q && buf[dst..dst + |b|] == b && Unread(buf, t, q)
            case Err(e, q) => o == Err(e, q)
            case Overrun => false
  {
    hide Utf8, ScanHex, Unread;
    UnreadAt(buf, t, p, p);
    if buf[p] == 'u' as int {
      UnreadAt(buf, t, p, p + 1);
      o := ReadUnicode(buf, p + 1, dst, t);
    } else if buf[p] == 0 {
      o := Err(IncompleteEscape, p + 1);
    } else {
      var end := ReadSimpleEscape(buf, p, dst, t);
      o := Ok(end, p + 1);
    }
  }

  /** Copies plain characters, from the one at p on, to dst; stops at the first character that is not plain. */
  method CopyPlain(buf: array<byte>, p: nat, dst: nat, ghost t: Text, ghost acc: bytes) returns (q: nat, end: nat)
    requires dst <= p < |t| && Unread(buf, t, p)
    modifies buf
    ensures p <= q < |t| && dst <= end <= q && Unread(buf, t, q) && Special(t[q])
    ensures buf[..dst] == old(buf[..dst])
    ensures ScanString(t, p, acc) == ScanString(t, q, acc + buf[dst..end])
  {
    q, end := p, dst;
    UnreadAt(buf, t, p, p);
    assert acc + buf[dst..end] == acc;
    while !Special(buf[q])
      invariant p <= q < |t| && dst <= end <= q && Unread(buf, t, q) && buf[q] == t[q]
      invariant buf[..dst] == old(buf[..dst])
      invariant ScanString(t, p, acc) == ScanString(t, q, acc + buf[dst..end])
      decreases |t| - q
    {
      UnreadAt(buf, t, q, q + 1);
      ghost var unread, done := buf[q + 1..], buf[dst..end];
      ghost var c := buf[q];
      buf[end] := buf[q];
      assert buf[q + 1..] == unread;
      end := end + 1;
      q := q + 1;
      assert acc + done + [c] == acc + buf[dst..end];
    }
  }

  /** Skips the plain characters at the start of a string: they stay where they are. */
  method SkipPlain(buf: array<byte>, p: nat, ghost t: Text) returns (q: nat)
    requires p < |t| && Unread(buf, t, p)
    ensures p <= q < |t| && Unread(buf, t, q) && buf[q] == t[q] && Special(t[q])
    ensures ScanString(t, p, []) == ScanString(t, q, buf[p..q])
  {
    hide Unread;
    q := p;
    UnreadAt(buf, t, p, p);
    assert buf[p..q] == [];
    while !Special(buf[q])
      invariant p <= q < |t| == buf.Length && Unread(buf, t, q) && buf[q] == t[q]
      invariant ScanString(t, p, []) == ScanString(t, q, buf[p..q])
      decreases |t| - q
    {
      UnreadAt(buf, t, q, q + 1);
      assert buf[p..q + 1] == buf[p..q] + [t[q]];
      q := q + 1;
    }
  }

  /** Everything before p has been read into start..dst, and p is where plain characters end. */
  ghost predicate ReadSoFar(buf: array<byte>, t: Text, start: nat, p: nat, dst: nat)
    reads buf
  {
    && start <= dst <= p < |t| == buf.Length && Unread(buf, t, p) && buf[p] == t[p] && Special(t[p])
    && ScanString(t, start, []) == ScanString(t, p, buf[start..dst])
  }

  /** One escape and the plain characters that follow it. */
  method Unescape(buf: array<byte>, ghost start: nat, p: nat, dst: nat, ghost t: Text) returns (o: Outcome<nat>)
    requires ReadSoFar(buf, t, start, p, dst) && t[p] == BACKSLASH
    modifies buf
    ensures buf[..start] == old(buf[..start])
    ensures match o
            case Ok(end, q) => p < q && ReadSoFar(buf, t, start, q, end)
            case Err(e, q) => ScanString(t, start, []) == Err(e, q)
            case Overrun => false
  {
    hide Unread, ScanEscape;
    UnreadAt(buf, t, p, p + 1);
    ghost var before, done := buf[..], buf[start..dst];
    var e := ReadEscape(buf, p + 1, dst, t);
    ghost var between := buf[..];
    PrefixKept(before, between, dst, start);
    if e.Err? {
      return e;
    }
    ghost var acc := buf[start..e.value];
    SliceKept(before, between, start, dst, e.value);
    var q, end := CopyPlain(buf, e.pos, e.value, t, acc);
    PrefixKept(between, buf[..], e.value, start);
    SliceKept(between, buf[..], start, e.value, end);
    UnreadAt(buf, t, q, q);
    o := Ok(end, q);
  }

  lemma PrefixKept(a: bytes, b: bytes, m: nat, n: nat)
    requires |a| == |b| && n <= m <= |a| && a[..m] == b[..m]
    ensures a[..n] == b[..n]
  {
    assert a[..n] == a[..m][..n];
  }

  lemma SliceKept(a: bytes, b: bytes, start: nat, m: nat, end: nat)
    requires |a| == |b| && start <= m <= end <= |b| && a[..m] == b[..m]
    ensures b[start..end] == a[start..m] + b[m..end]
  {
    assert a[start..m] == a[..m][start..] == b[start..m];
  }

  /** Ends a string with a zero byte. */
  method CloseString(buf: array<byte>, start: nat, p: nat, dst: nat, ghost t: Text) returns (o: Outcome<Span>)
    requires ReadSoFar(buf, t, start, p, dst) && t[p] == QUOTE
    modifies buf
    ensures buf[..start] == old(buf[..start])
    ensures o == Ok(Span(start, dst), p + 1) && Unread(buf, t, p + 1) && buf[dst] == 0
    ensures ScanString(t, start, []) == Ok(buf[start..dst], p + 1)
  {
    UnreadAt(buf, t, p, p + 1);
    ghost var before, unread, done := buf[..start], buf[p + 1..], buf[start..dst];
    buf[dst] := 0;
    assert buf[..start] == before;
    assert buf[p + 1..] == unread;
    assert buf[start..dst] == done;
    o := Ok(Span(start, dst), p + 1);
  }

  /** A string is unescaped over its own text and gets a final zero byte, which overwrites nothing unread. */
  method ReadString(buf: array<byte>, start: nat, ghost t: Text) returns (o: Outcome<Span>)
    requires start < |t| == buf.Length && Unread(buf, t, start)
    modifies buf
    ensures buf[..start] == old(buf[..start])
    ensures match ScanString(t, start, [])
            case Ok(s, q) =>
              && o.Ok? && o.pos == q && Unread(buf, t, q)
              && o.value.lo == start <= o.value.hi < q
              && buf[start..o.value.hi] == s && buf[o.value.hi] == 0
            case Err(e, q) => o == Err(e, q)
            case Overrun => false
  {
    hide Unread;
    var p := SkipPlain(buf, start, t);
    var dst := p;
    while buf[p] != QUOTE
      invariant ReadSoFar(buf, t, start, p, dst)
      invariant buf[..start] == old(buf[..start])
      decreases |t| - p
    {
      if EndsLine(buf[p]) {
        return Err(MissingEndQuote, p + 1);
      }
      var e := Unescape(buf, start, p, dst, t);
      if e.Err? {
        return Err(e.error, e.pos);
      }
      p, dst := e.pos, e.value;
    }
    o := CloseString(buf, start, p, dst, t);
  }

  // ---- Numbers.

  predicate Numeric(t: Text, p: nat) {
    p < |t| && (Digit(t[p]) || t[p] == MINUS || t[p] == DOT)
  }

  /** Up to eight digits, in 32 bits. */
  method ReadDigits32(buf: array<byte>, p: nat, ghost t: Text) returns (n32: uint32, q: nat)
    requires p < |t| == buf.Length && Unread(buf, t, p)
    ensures p <= q < |t| && Unread(buf, t, q)
    ensures n32 <= THRESHOLD && ScanDigits(t, p, 0) == ScanDigits(t, q, n32)
    ensures n32 < 1_0000_0000
  {
    hide Unread;
    n32, q := 0, p;
    UnreadAt(buf, t, p, q);
    ghost var bound := 1;
    var i := 0;
    while i < 8 && Digit(buf[q])
      invariant 0 <= i <= 8 && p <= q < |t| && Unread(buf, t, q) && buf[q] == t[q]
      invariant n32 < [1, 10, 100, 1000, 1_0000, 10_0000, 100_0000, 1000_0000, 1_0000_0000][i]
      invariant ScanDigits(t, p, 0) == ScanDigits(t, q, n32)
    {
      UnreadAt(buf, t, q, q + 1);
      n32 := n32 * 10 + (buf[q] - 0x30);
      q := q + 1;
      i := i + 1;
    }
  }

  /** Further digits two at a time, in 64 bits, until the value is above the threshold. */
  method ReadDigits64(buf: array<byte>, p: nat, start: uint32, ghost t: Text) returns (n64: int64, q: nat)
    requires p < |t| == buf.Length && Unread(buf, t, p) && start <= THRESHOLD
    ensures p <= q < |t| && Unread(buf, t, q) && ScanDigits(t, p, start) == (n64, q)
  {
    hide Unread;
    n64, q := start, p;
    UnreadAt(buf, t, p, q);
    while Digit(buf[q])
      invariant p <= q < |t| && Unread(buf, t, q) && buf[q] == t[q] && 0 <= n64 <= THRESHOLD
      invariant ScanDigits(t, p, start) == ScanDigits(t, q, n64)
      decreases |t| - q
    {
      UnreadAt(buf, t, q, q + 1);
      n64 := n64 * 10 + (buf[q] - 0x30);
      q := q + 1;
      if !Digit(buf[q]) || n64 > THRESHOLD {
        break;
      }
      UnreadAt(buf, t, q, q + 1);
      n64 := n64 * 10 + (buf[q] - 0x30);
      q := q + 1;
      if n64 > THRESHOLD {
        break;
      }
    }
  }

  method SkipDigits(buf: array<byte>, p: nat, ghost t: Text) returns (q: nat)
    requires p < |t| == buf.Length && Unread(buf, t, p)
    ensures q == EndOfDigits(t, p) && Unread(buf, t, q) && buf[q] == t[q]
  {
    hide Unread;
    q := p;
    UnreadAt(buf, t, p, q);
    while Digit(buf[q])
      invariant p <= q < |t| && Unread(buf, t, q) && buf[q] == t[q]
      invariant EndOfDigits(t, p) == EndOfDigits(t, q)
      decreases |t| - q
    {
      UnreadAt(buf, t, q, q + 1);
      q := q + 1;
    }
  }

  method ReadExponent(buf: array<byte>, p: nat, ghost t: Text) returns (o: Outcome<nat>)
    requires p < |t| == buf.Length && Unread(buf, t, p)
    ensures o == ScanExponent(t, p, 0)
  {
    hide Unread;
    var q: nat, escale: nat := p, 0;
    UnreadAt(buf, t, p, q);
    while Digit(buf[q])
      invariant p <= q < |t| && Unread(buf, t, q) && buf[q] == t[q]
      invariant ScanExponent(t, p, 0) == ScanExponent(t, q, escale)
      decreases |t| - q
    {
      if escale > 0xCCCCCCB {
        return Err(NumericFailure, q);
      }
      UnreadAt(buf, t, q, q + 1);
      escale := escale * 10 + (buf[q] - 0x30);
      q := q + 1;
    }
    o := Ok(escale, q);
  }

  /** The exponent of a double and the check of its scale. */
  method ReadScale(buf: array<byte>, p: nat, fraction: nat, ghost t: Text) returns (o: Outcome<()>)
    requires p < |t| == buf.Length && Unread(buf, t, p)
    ensures o == ScanScale(t, p, fraction)
  {
    hide Unread, ScanExponent;
    UnreadAt(buf, t, p, p);
    var q := p;
    var scale := -(fraction as int);
    if buf[q] == 0x45 || buf[q] == 0x65 {
      q := q + 1;
      UnreadAt(buf, t, p, q);
      var negative := buf[q] == MINUS;
      if negative || buf[q] == '+' as int {
        q := q + 1;
        UnreadAt(buf, t, p, q);
      }
      var e := ReadExponent(buf, q, t);
      if e.Err? {
        return Err(e.error, e.pos);
      }
      scale := scale + if negative then -(e.value as int) else e.value;
      q := e.pos;
    }
    if -0x8000_0000 <= scale < 0x8000_0000 {
      o := Ok((), q);
    } else {
      o := Err(NumericFailure, q);
    }
  }

  /** The same number, a double being named by its place, which starts at p, instead of its text. */
  ghost predicate SameNumber(o: Outcome<Number<Span>>, s: Outcome<Number<bytes>>, p: nat) {
    match s
    case Ok(Whole(n), q) => o == Ok(Whole(n), q)
    case Ok(Real(_), q) => o == Ok(Real(Span(p, q)), q)
    case Err(e, q) => o == Err(e, q)
    case Overrun => false
  }

  /** The digits of a whole number, or as many of them as the reader takes. */
  method ReadDigits(buf: array<byte>, p: nat, ghost t: Text) returns (n64: int64, q: nat)
    requires p < |t| == buf.Length && Unread(buf, t, p)
    ensures p <= q < |t| && Unread(buf, t, q) && buf[q] == t[q] && ScanDigits(t, p, 0) == (n64, q)
  {
    hide Unread, ScanDigits;
    var n32;
    n32, q := ReadDigits32(buf, p, t);
    UnreadAt(buf, t, q, q);
    n64 := n32;
    if NumberChar(buf[q]) {
      n64, q := ReadDigits64(buf, q, n32, t);
      UnreadAt(buf, t, q, q);
    } else {
      DigitsDone(t, q, n32);
    }
  }

  method ReadFraction(buf: array<byte>, p: nat, ghost t: Text) returns (q: nat, fraction: nat)
    requires p < |t| == buf.Length && Unread(buf, t, p)
    ensures var q' := EndOfDigits(t, p);
            && q == (if t[q'] == DOT then EndOfDigits(t, q' + 1) else q')
            && fraction == (if t[q'] == DOT then q - q' - 1 else 0)
    ensures Unread(buf, t, q)
  {
    hide Unread, EndOfDigits;
    q := SkipDigits(buf, p, t);
    fraction := 0;
    if buf[q] == DOT {
      UnreadAt(buf, t, q, q + 1);
      var end := SkipDigits(buf, q + 1, t);
      q, fraction := end, end - q - 1;
    }
  }

  method ReadNumber(buf: array<byte>, p: nat, ghost t: Text) returns (o: Outcome<Number<Span>>)
    requires Numeric(t, p) && buf.Length == |t| && Unread(buf, t, p)
    ensures SameNumber(o, ScanNumber(t, p), p)
  {
    hide Unread, ScanDigits, EndOfDigits, ScanScale;
    UnreadAt(buf, t, p, p);
    var negative := buf[p] == MINUS;
    var q := if negative then p + 1 else p;
    UnreadAt(buf, t, p, q);
    var n64;
    n64, q := ReadDigits(buf, q, t);
    if !NumberChar(buf[q]) {
      var whole: int := if negative then -(n64 as int) else n64;
      return Ok(Whole(whole), q);
    }
    var fraction;
    q, fraction := ReadFraction(buf, q, t);
    var s := ReadScale(buf, q, fraction, t);
    if s.Err? {
      return Err(s.error, s.pos);
    }
    o := Ok(Real(Span(p, s.pos)), s.pos);
  }

  lemma DigitsDone(t: Text, p: nat, n: nat)
    requires p < |t| && n <= THRESHOLD && !Digit(t[p])
    ensures ScanDigits(t, p, n) == (n, p)
  {}
}
