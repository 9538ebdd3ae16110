/** Base64 as in RFC 4648 section 4: the encoder with its 32-bit accumulator and the two decoders. */
module Base64 {
  type Bytes = seq<bv8>

  const PAD: bv8 := 0x3D

  // ---- The alphabet and the table that reverses it.

  /** The character of a 6-bit value. */
  function Code(v: bv8): bv8 {
    if v < 26 then v + 0x41
    else if v < 52 then v + 0x47
    else if v < 62 then v - 4
    else if v == 62 then 0x2B
    else 0x2F
  }

  /** The 6-bit value of a character; 254 for padding, 255 for other characters. */
  function Reverse(c: bv8): bv8 {
    if 0x41 <= c <= 0x5A then c - 0x41
    else if 0x61 <= c <= 0x7A then c - 0x47
    else if 0x30 <= c <= 0x39 then c + 4
    else if c == 0x2B then 62
    else if c == 0x2F then 63
    else if c == PAD then 254
    else 255
  }

  predicate IsCode(c: bv8) {
    Reverse(c) < 64
  }

  lemma ReverseOfCode(v: bv8)
    requires v < 64
    ensures Reverse(Code(v)) == v && Code(v) != PAD && IsCode(Code(v))
  {}

  // ---- The definition, by groups of three bytes and four characters.

  function First(b0: bv8): bv8 { b0 >> 2 }
  function Second(b0: bv8, b1: bv8): bv8 { ((b0 & 3) << 4) | (b1 >> 4) }
  function Third(b1: bv8, b2: bv8): bv8 { ((b1 & 15) << 2) | (b2 >> 6) }
  function Fourth(b2: bv8): bv8 { b2 & 63 }

  function At(s: Bytes, i: nat): bv8 {
    if i < |s| then s[i] else 0
  }

  /** The k-th character of the first group: missing bytes count as zero, characters without any bit are padding. */
  function CharAt(s: Bytes, k: nat): bv8
    requires s != [] && k < 4
  {
    if k == 0 then Code(First(s[0]))
    else if k == 1 then Code(Second(s[0], At(s, 1)))
    else if k == 2 then if |s| < 2 then PAD else Code(Third(s[1], At(s, 2)))
    else if |s| < 3 then PAD else Code(Fourth(s[2]))
  }

  function Encode(s: Bytes): (t: Bytes)
    ensures |t| == 4 * ((|s| + 2) / 3)
    decreases |s|
  {
    if s == [] then []
    else [CharAt(s, 0), CharAt(s, 1), CharAt(s, 2), CharAt(s, 3)] + Encode(if |s| < 3 then [] else s[3..])
  }

  function Or(a: bv8, b: bv8): bv8 { a | b }
  function Up2(v: bv8): bv8 { v << 2 }
  function Up4(v: bv8): bv8 { v << 4 }
  function Up6(v: bv8): bv8 { v << 6 }
  function Down2(v: bv8): bv8 { v >> 2 }
  function Down4(v: bv8): bv8 { v >> 4 }

  function Byte0(v0: bv8, v1: bv8): bv8 { Or(Up2(v0), Down4(v1)) }
  function Byte1(v1: bv8, v2: bv8): bv8 { Or(Up4(v1), Down2(v2)) }
  function Byte2(v2: bv8, v3: bv8): bv8 { Or(Up6(v2), v3) }

  /** A correctly padded text: whole groups of four characters, the last of which may end with padding. */
  predicate Padded(t: Bytes) {
    t == [] ||
    (|t| >= 4 && IsCode(t[0]) && IsCode(t[1]) &&
     if |t| == 4 then (IsCode(t[2]) && (IsCode(t[3]) || t[3] == PAD)) || (t[2] == PAD && t[3] == PAD)
     else IsCode(t[2]) && IsCode(t[3]) && Padded(t[4..]))
  }

  function Group(t: Bytes): Bytes
    requires |t| >= 4
  {
    var v0, v1, v2, v3 := Reverse(t[0]), Reverse(t[1]), Reverse(t[2]), Reverse(t[3]);
    if t[2] == PAD then [Byte0(v0, v1)]
    else if t[3] == PAD then [Byte0(v0, v1), Byte1(v1, v2)]
    else [Byte0(v0, v1), Byte1(v1, v2), Byte2(v2, v3)]
  }

  function Decode(t: Bytes): Bytes {
    if |t| < 4 then [] else Group(t) + Decode(t[4..])
  }

  // ---- RFC 4648 in numbers.

  /** The alphabet of table 1, in order. */
  lemma Alphabet()
    // ABCDEFGHIJKLMNOP
    ensures [Code(0), Code(1), Code(2), Code(3), Code(4), Code(5), Code(6), Code(7), Code(8), Code(9), Code(10),
             Code(11), Code(12), Code(13), Code(14), Code(15)] ==
            [0x41, 0x42, 0x43, 0x44, 0x45, 0x46, 0x47, 0x48, 0x49, 0x4A, 0x4B, 0x4C, 0x4D, 0x4E, 0x4F, 0x50]
    // QRSTUVWXYZabcdef
    ensures [Code(16), Code(17), Code(18), Code(19), Code(20), Code(21), Code(22), Code(23), Code(24), Code(25),
             Code(26), Code(27), Code(28), Code(29), Code(30), Code(31)] ==
            [0x51, 0x52, 0x53, 0x54, 0x55, 0x56, 0x57, 0x58, 0x59, 0x5A, 0x61, 0x62, 0x63, 0x64, 0x65, 0x66]
    // ghijklmnopqrstuv
    ensures [Code(32), Code(33), Code(34), Code(35), Code(36), Code(37), Code(38), Code(39), Code(40), Code(41),
             Code(42), Code(43), Code(44), Code(45), Code(46), Code(47)] ==
            [0x67, 0x68, 0x69, 0x6A, 0x6B, 0x6C, 0x6D, 0x6E, 0x6F, 0x70, 0x71, 0x72, 0x73, 0x74, 0x75, 0x76]
    // wxyz0123456789+/
    ensures [Code(48), Code(49), Code(50), Code(51), Code(52), Code(53), Code(54), Code(55), Code(56), Code(57),
             Code(58), Code(59), Code(60), Code(61), Code(62), Code(63)] ==
            [0x77, 0x78, 0x79, 0x7A, 0x30, 0x31, 0x32, 0x33, 0x34, 0x35, 0x36, 0x37, 0x38, 0x39, 0x2B, 0x2F]
  {}

  /** Three bytes as a number of 24 bits. */
  function Number24(b0: bv8, b1: bv8, b2: bv8): bv24 {
    (b0 as bv24 << 16) | (b1 as bv24 << 8) | b2 as bv24
  }

  /** The character for six bits of such a number. */
  function Sextet(n: bv24, low: nat): bv8
    requires low <= 18
  {
    Code(((n >> low) & 63) as bv8)
  }

  lemma Sextets(b0: bv8, b1: bv8, b2: bv8)
    ensures var n := Number24(b0, b1, b2);
            && First(b0) == ((n >> 18) & 63) as bv8 && Second(b0, b1) == ((n >> 12) & 63) as bv8
            && Third(b1, b2) == ((n >> 6) & 63) as bv8 && Fourth(b2) == ((n >> 0) & 63) as bv8
  {}

  /** Each group of three bytes gives four characters, from the high six bits down; at the end two bytes give three
      characters and an equals sign, one byte gives two of each. */
  lemma EncodeGroups(s: Bytes)
    requires s != []
    ensures var n := Number24(s[0], if |s| > 1 then s[1] else 0, if |s| > 2 then s[2] else 0);
            && Encode(s)[0] == Sextet(n, 18) && Encode(s)[1] == Sextet(n, 12)
            && Encode(s)[2] == (if |s| == 1 then 0x3D else Sextet(n, 6))
            && Encode(s)[3] == (if |s| <= 2 then 0x3D else Sextet(n, 0))
            && Encode(s)[4..] == Encode(if |s| <= 3 then [] else s[3..])
  {
    hide Code, First, Second, Third, Fourth, Number24;
    Sextets(s[0], At(s, 1), At(s, 2));
    if |s| == 3 {
      assert s[3..] == [];
    }
  }

  // ---- Decoding undoes encoding.

  lemma SixBits(b0: bv8, b1: bv8, b2: bv8)
    ensures First(b0) < 64 && Second(b0, b1) < 64 && Third(b1, b2) < 64 && Fourth(b2) < 64
  {}

  lemma GroupBytes(b0: bv8, b1: bv8, b2: bv8)
    ensures Byte0(First(b0), Second(b0, b1)) == b0
    ensures Byte1(Second(b0, b1), Third(b1, b2)) == b1
    ensures Byte2(Third(b1, b2), Fourth(b2)) == b2
  {}

  /** The characters of a full group are correct and stand for its bytes. */
  lemma GroupBack(b0: bv8, b1: bv8, b2: bv8)
    ensures var c0, c1, c2, c3 := Code(First(b0)), Code(Second(b0, b1)), Code(Third(b1, b2)), Code(Fourth(b2));
            && IsCode(c0) && IsCode(c1) && IsCode(c2) && IsCode(c3) && c2 != PAD && c3 != PAD
            && Byte0(Reverse(c0), Reverse(c1)) == b0
            && Byte1(Reverse(c1), Reverse(c2)) == b1
            && Byte2(Reverse(c2), Reverse(c3)) == b2
  {
    hide Code, Reverse, First, Second, Third, Fourth, Byte0, Byte1, Byte2;
    SixBits(b0, b1, b2);
    ReverseOfCode(First(b0));
    ReverseOfCode(Second(b0, b1));
    ReverseOfCode(Third(b1, b2));
    ReverseOfCode(Fourth(b2));
    GroupBytes(b0, b1, b2);
  }

  lemma DecodeGroup(c0: bv8, c1: bv8, c2: bv8, c3: bv8, rest: Bytes)
    ensures var t := [c0, c1, c2, c3] + rest;
            && Decode(t) == Group([c0, c1, c2, c3]) + Decode(rest)
            && (Padded([c0, c1, c2, c3]) && (rest != [] ==> IsCode(c2) && IsCode(c3)) && Padded(rest) ==> Padded(t))
  {
    hide Byte0, Byte1, Byte2, Reverse, IsCode;
    var t := [c0, c1, c2, c3] + rest;
    assert t[4..] == rest;
  }

  /** One group: it is correctly padded and stands for the bytes it was made from. */
  lemma FirstGroupBack(s: Bytes)
    requires s != []
    ensures var g := [CharAt(s, 0), CharAt(s, 1), CharAt(s, 2), CharAt(s, 3)];
            && Padded(g) && Group(g) == (if |s| < 3 then s else s[..3])
            && (|s| >= 3 ==> IsCode(g[2]) && IsCode(g[3]))
  {
    hide Code, Reverse, First, Second, Third, Fourth, Byte0, Byte1, Byte2, IsCode;
    PaddingIsNoCode();
    GroupBack(s[0], At(s, 1), At(s, 2));
  }

  /** Encoding gives a correctly padded text, and decoding that gives the bytes back, whatever they are. */
  lemma {:induction false} DecodeEncode(s: Bytes)
    ensures Padded(Encode(s)) && Decode(Encode(s)) == s
    decreases |s|
  {
    hide CharAt, Group, IsCode, Decode, Padded;
    if s == [] {
      DecodeNothing();
    } else {
      var rest := if |s| < 3 then [] else s[3..];
      FirstGroupBack(s);
      DecodeEncode(rest);
      DecodeGroup(CharAt(s, 0), CharAt(s, 1), CharAt(s, 2), CharAt(s, 3), Encode(rest));
    }
  }

  lemma DecodeNothing()
    ensures Decode([]) == [] && Padded([])
  {}

  lemma PaddingIsNoCode()
    ensures !IsCode(PAD)
  {}

  // ---- The encoder: bits collect in an accumulator of 32 bits that wraps around.

  /** What is left to print once the first i bytes have been taken. */
  function Rest(s: Bytes, i: nat): Bytes
    requires i <= |s|
  {
    Encode(s[i - i % 3..])[i % 3..]
  }

  /** What the i-th byte adds. */
  function Emitted(s: Bytes, i: nat): Bytes
    requires i < |s|
  {
    if i % 3 == 0 then [Code(First(s[i]))]
    else if i % 3 == 1 then [Code(Second(s[i - 1], s[i]))]
    else [Code(Third(s[i - 1], s[i])), Code(Fourth(s[i]))]
  }

  function Final(s: Bytes): Bytes {
    if |s| % 3 == 0 then []
    else if |s| % 3 == 1 then [Code(Second(s[|s| - 1], 0)), PAD, PAD]
    else [Code(Third(s[|s| - 1], 0)), PAD]
  }

  /** What the k-th byte of the first group adds. */
  function EmittedIn(g: Bytes, k: nat): Bytes
    requires k < |g| && k < 3
  {
    if k == 0 then [Code(First(g[0]))]
    else if k == 1 then [Code(Second(g[0], g[1]))]
    else [Code(Third(g[1], g[2])), Code(Fourth(g[2]))]
  }

  lemma GroupStep(g: Bytes, k: nat)
    requires k < |g| && k < 3
    ensures |Encode(g)| >= 4
    ensures Encode(g)[k..] == EmittedIn(g, k) + if k < 2 then Encode(g)[k + 1..] else Encode(g[3..])
  {
    hide CharAt;
    var e, rest := Encode(g), Encode(if |g| < 3 then [] else g[3..]);
    Tails(CharAt(g, 0), CharAt(g, 1), CharAt(g, 2), CharAt(g, 3), rest);
    EmittedChars(g, k);
  }

  lemma EmittedChars(g: Bytes, k: nat)
    requires k < |g| && k < 3
    ensures EmittedIn(g, k) == [CharAt(g, k)] + if k < 2 then [] else [CharAt(g, 3)]
  {
    hide Code, First, Second, Third, Fourth;
  }

  lemma Tails<T>(a: T, b: T, c: T, d: T, rest: seq<T>)
    ensures var e := [a, b, c, d] + rest;
            e[0..] == [a] + e[1..] && e[1..] == [b] + e[2..] && e[2..] == [c] + [d] + rest
  {}

  lemma Place3(i: nat)
    ensures i % 3 < 2 ==> (i + 1) % 3 == i % 3 + 1 && i + 1 - (i + 1) % 3 == i - i % 3
    ensures i % 3 == 2 ==> (i + 1) % 3 == 0 && i - i % 3 + 3 == i + 1
  {}

  lemma RestStep(s: Bytes, i: nat)
    requires i < |s|
    ensures Rest(s, i) == Emitted(s, i) + Rest(s, i + 1)
  {
    hide Code, First, Second, Third, Fourth, Encode;
    var k := i % 3;
    var g := s[i - k..];
    Place3(i);
    GroupStep(g, k);
    assert g[k] == s[i] && (k > 0 ==> g[k - 1] == s[i - 1]);
    if k == 2 {
      assert g[3..] == s[i + 1..];
    }
  }

  lemma RestEnd(s: Bytes)
    ensures Rest(s, |s|) == Final(s)
  {
    hide Code, First, Second, Third, Fourth;
  }

  /** The low 16 bits of the accumulator are the last two bytes, whatever has been shifted out above. */
  predicate Holds(val: bv32, prev: bv8, last: bv8) {
    val & 0xFFFF == (prev as bv32 << 8) | last as bv32
  }

  function Low6(val: bv32): bv8 {
    (val & 0x3F) as bv8
  }

  lemma AccumulatorShift(val: bv32, prev: bv8, last: bv8, c: bv8)
    requires Holds(val, prev, last)
    ensures Holds((val << 8) + c as bv32, last, c)
  {}

  lemma AccumulatorBits(val: bv32, prev: bv8, last: bv8)
    requires Holds(val, prev, last)
    ensures Low6(val >> 2) == First(last) && Low6(val >> 4) == Second(prev, last)
    ensures Low6(val >> 6) == Third(prev, last) && Low6(val) == Fourth(last)
    ensures Low6((val << 8) >> 4) == Second(last, 0) && Low6((val << 8) >> 6) == Third(last, 0)
  {}

  /** The six bits that start at bit valb; the code's shift of a signed value differs above them only. */
  function Taken(val: bv32, valb: int): bv8 {
    if valb == 0 then Low6(val)
    else if valb == 2 then Low6(val >> 2)
    else if valb == 4 then Low6(val >> 4)
    else Low6(val >> 6)
  }

  /** The count of bits that wait, less six, after i bytes. */
  function Waiting(i: nat): int {
    if i % 3 == 0 then -6 else if i % 3 == 1 then -4 else -2
  }

  lemma EmittedBits(s: Bytes, i: nat, val: bv32, prev: bv8)
    requires i < |s| && Holds(val, prev, s[i]) && (i > 0 ==> prev == s[i - 1])
    ensures var e, v := Emitted(s, i), Waiting(i) + 8;
            e == [Code(Taken(val, v))] + if v < 6 then [] else [Code(Taken(val, 0))]
  {
    hide Code, Holds, Low6;
    AccumulatorBits(val, prev, s[i]);
  }

  /** Prints the complete groups of six bits that wait. */
  method PrintBits(dst: Bytes, val: bv32, valb: int) returns (out: Bytes, left: int)
    requires valb in {2, 4, 6}
    ensures out == dst + ([Code(Taken(val, valb))] + if valb < 6 then [] else [Code(Taken(val, 0))])
    ensures left == valb - if valb < 6 then 6 else 12
  {
    hide Code, Taken;
    out, left := dst, valb;
    while left >= 0
      invariant (left == valb && out == dst)
                || (left == valb - 6 && out == dst + [Code(Taken(val, valb))])
                || (left == valb - 12 && valb == 6 && out == dst + [Code(Taken(val, valb))] + [Code(Taken(val, 0))])
      decreases left + 6
    {
      out := out + [Code(Taken(val, left))];
      left := left - 6;
    }
  }

  method EncodeText(src: Bytes) returns (dst: Bytes)
    ensures dst == Encode(src)
  {
    hide Holds, Code, Encode, Rest, Taken, Emitted, Final, Low6;
    dst := [];
    var val: bv32, valb := 0, -6;
    ghost var prev: bv8, last: bv8 := 0, 0;
    assert Holds(val, prev, last) by { StartHolds(); }
    RestStart(src);
    for i := 0 to |src|
      invariant valb == Waiting(i) && Holds(val, prev, last)
      invariant i > 0 ==> last == src[i - 1]
      invariant dst + Rest(src, i) == Encode(src)
    {
      RestStep(src, i);
      AccumulatorShift(val, prev, last, src[i]);
      prev, last := last, src[i];
      val := (val << 8) + src[i] as bv32;
      EmittedBits(src, i, val, prev);
      ghost var before := dst;
      dst, valb := PrintBits(dst, val, valb + 8);
      assert before + (Emitted(src, i) + Rest(src, i + 1)) == dst + Rest(src, i + 1);
    }
    RestEnd(src);
    dst := PrintFinal(dst, val, valb, src, prev);
  }

  function Pads(n: nat): Bytes {
    if n % 3 == 0 then [] else if n % 3 == 1 then [PAD, PAD] else [PAD]
  }

  lemma FinalBits(s: Bytes, val: bv32, prev: bv8)
    requires |s| % 3 != 0 && Holds(val, prev, s[|s| - 1])
    ensures Final(s) == [Code(if |s| % 3 == 1 then Low6((val << 8) >> 4) else Low6((val << 8) >> 6))] + Pads(|s|)
  {
    hide Holds, Code, Low6;
    AccumulatorBits(val, prev, s[|s| - 1]);
  }

  /** Prints the bits of an incomplete group and pads the text. */
  method PrintFinal(dst: Bytes, val: bv32, valb: int, ghost src: Bytes, ghost prev: bv8) returns (out: Bytes)
    requires valb == Waiting(|src|) && dst + Final(src) == Encode(src)
    requires |src| > 0 ==> Holds(val, prev, src[|src| - 1])
    ensures out == Encode(src)
  {
    hide Holds, Code, Encode, Low6, Final;
    out := dst;
    if valb > -6 {
      FinalBits(src, val, prev);
      ghost var c := Code(if valb == -4 then Low6((val << 8) >> 4) else Low6((val << 8) >> 6));
      assert dst + ([c] + Pads(|src|)) == dst + [c] + Pads(|src|);
      out := out + [Code(if valb == -4 then Low6((val << 8) >> 4) else Low6((val << 8) >> 6))];
    } else {
      assert Final(src) == [] by { NothingFinal(src); }
    }
    out := PrintPads(out, Pads(|src|), Encode(src));
  }

  lemma NothingFinal(s: Bytes)
    requires |s| % 3 == 0
    ensures Final(s) == []
  {}

  method PrintPads(dst: Bytes, ghost pads: Bytes, ghost goal: Bytes) returns (out: Bytes)
    requires dst + pads == goal && |goal| % 4 == 0 && |pads| < 4 && forall i | 0 <= i < |pads| :: pads[i] == PAD
    ensures out == goal
  {
    out := dst;
    ghost var k := 0;
    while |out| % 4 != 0
      invariant 0 <= k <= |pads| && out + pads[k..] == goal
      decreases |pads| - k
    {
      out := out + [PAD];
      k := k + 1;
    }
  }

  lemma StartHolds()
    ensures Holds(0, 0, 0)
  {}

  lemma RestStart(s: Bytes)
    ensures [] + Rest(s, 0) == Encode(s)
  {
    hide Encode;
    assert s[0..] == s;
  }

  // ---- The decoders.

  /** Shifts of the code's signed characters: the sign is kept. */
  function SignedShift4(c: bv8): bv8 {
    if c < 0x80 then c >> 4 else (c >> 4) | 0xF0
  }

  function SignedShift2(c: bv8): bv8 {
    if c < 0x80 then c >> 2 else (c >> 2) | 0xC0
  }

  /** The part of a group that its first k characters give. */
  function Begun(t: Bytes, k: nat): Bytes
    requires |t| >= 4 && k < 4
  {
    var v0, v1, v2 := Reverse(t[0]), Reverse(t[1]), Reverse(t[2]);
    if k < 2 then [] else if k == 2 then [Byte0(v0, v1)] else [Byte0(v0, v1), Byte1(v1, v2)]
  }

  /** The bits of the last character that the next byte starts with. */
  function Kept(t: Bytes, k: nat): bv8
    requires |t| >= 4 && 0 < k < 4
  {
    if k == 1 then Up2(Reverse(t[0])) else if k == 2 then Up4(Reverse(t[1])) else Up6(Reverse(t[2]))
  }

  lemma ValidShifts(c: bv8)
    requires IsCode(c)
    ensures SignedShift4(Reverse(c)) == Down4(Reverse(c)) && SignedShift2(Reverse(c)) == Down2(Reverse(c))
  {}

  lemma GroupOf(t: Bytes, g: nat)
    requires g < |t| && Padded(t[g..])
    ensures g + 4 <= |t|
    ensures Decode(t[g..]) == Group(t[g..]) + Decode(t[g + 4..])
    ensures Padded(t[g + 4..])
    ensures IsCode(t[g]) && IsCode(t[g + 1])
    ensures t[g + 2] == PAD ==> t[g + 3] == PAD
    ensures !IsCode(t[g + 2]) ==> t[g + 2] == PAD
    ensures !IsCode(t[g + 3]) ==> t[g + 3] == PAD
    ensures t[g + 3] == PAD ==> g + 4 == |t|
  {
    hide Reverse, Byte0, Byte1, Byte2;
    PaddedSize(t[g..]);
    PaddingIsNoCode();
    var u := t[g..];
    assert u[4..] == t[g + 4..];
    assert t[g] == u[0] && t[g + 1] == u[1] && t[g + 2] == u[2] && t[g + 3] == u[3];
  }

  lemma {:induction false} PaddedSize(t: Bytes)
    requires Padded(t)
    ensures |t| % 4 == 0
  {
    hide IsCode;
    if |t| > 4 {
      PaddedSize(t[4..]);
    }
  }

  /** One character of the plain decoder, the k-th of its group. */
  method PutChar(dst: array<bv8>, d: nat, k: nat, c: bv8, curval: bv8) returns (d': nat, curval': bv8)
    requires k < 4 && d < dst.Length
    modifies dst
    ensures d' == if k == 0 then d else d + 1
    ensures dst[..d] == old(dst[..d])
    ensures k == 0 ==> curval' == Up2(Reverse(c))
    ensures k == 1 ==> dst[d] == Or(curval, SignedShift4(Reverse(c))) && curval' == Up4(Reverse(c))
    ensures k == 2 ==> dst[d] == Or(curval, SignedShift2(Reverse(c))) && curval' == Up6(Reverse(c))
    ensures k == 3 ==> dst[d] == Or(curval, Reverse(c))
  {
    hide Reverse, SignedShift2, SignedShift4;
    var decoded := Reverse(c);
    d', curval' := d, curval;
    if k == 0 {
      curval' := decoded << 2;
    } else if k == 1 {
      dst[d] := curval | SignedShift4(decoded);
      d' := d + 1;
      curval' := decoded << 4;
    } else if k == 2 {
      dst[d] := curval | SignedShift2(decoded);
      d' := d + 1;
      curval' := decoded << 6;
    } else {
      dst[d] := curval | decoded;
      d' := d + 1;
    }
  }

  /** Where the plain decoder stands inside the group that starts at g. */
  ghost predicate Decoding(src: Bytes, g: nat, k: nat, done: Bytes, out: Bytes, curval: bv8) {
    && g < |src| && k < 4 && g + 4 <= |src| && Padded(src[g..]) && done + Decode(src[g..]) == Decode(src)
    && out == done + Begun(src[g..], k) && (k > 0 ==> curval == Kept(src[g..], k))
    && (k == 3 ==> src[g + 2] != PAD)
  }

  /** A character that is not padding moves the decoder on inside its group. */
  lemma DecodingChar(src: Bytes, g: nat, k: nat, done: Bytes, out: Bytes, curval: bv8, out': Bytes, curval': bv8)
    requires Decoding(src, g, k, done, out, curval) && k < 3 && src[g + k] != PAD
    requires k == 0 ==> out' == out && curval' == Up2(Reverse(src[g]))
    requires k == 1 ==>
               && out' == out + [Or(curval, SignedShift4(Reverse(src[g + 1])))]
               && curval' == Up4(Reverse(src[g + 1]))
    requires k == 2 ==>
               && out' == out + [Or(curval, SignedShift2(Reverse(src[g + 2])))]
               && curval' == Up6(Reverse(src[g + 2]))
    ensures Decoding(src, g, k + 1, done, out', curval')
  {
    hide Reverse, SignedShift2, SignedShift4, Decode, Padded, IsCode, Or, Up2, Up4, Up6, Down2, Down4;
    GroupOf(src, g);
    ValidShifts(src[g + 1]);
    if k == 2 {
      ValidShifts(src[g + 2]);
    }
    assert src[g..][0] == src[g] && src[g..][1] == src[g + 1] && src[g..][2] == src[g + 2];
  }

  /** The last character of a full group. */
  lemma DecodingGroup(src: Bytes, g: nat, done: Bytes, out: Bytes, curval: bv8)
    requires Decoding(src, g, 3, done, out, curval) && src[g + 3] != PAD
    ensures var out' := out + [Or(curval, Reverse(src[g + 3]))];
            && out' + Decode(src[g + 4..]) == Decode(src) && Padded(src[g + 4..])
  {
    hide Reverse, Decode, Padded, IsCode, Or, Up2, Up4, Up6, Down2, Down4;
    GroupOf(src, g);
    assert src[g..][0] == src[g] && src[g..][1] == src[g + 1] && src[g..][2] == src[g + 2] && src[g..][3] == src[g + 3];
    assert Group(src[g..]) == Begun(src[g..], 3) + [Byte2(Reverse(src[g + 2]), Reverse(src[g + 3]))];
  }

  /** Padding ends the text; what has been written is all of it. */
  lemma DecodingPad(src: Bytes, g: nat, k: nat, done: Bytes, out: Bytes, curval: bv8)
    requires Decoding(src, g, k, done, out, curval) && src[g + k] == PAD
    ensures out == Decode(src)
  {
    hide Reverse, Padded, IsCode, Byte0, Byte1, Byte2;
    GroupOf(src, g);
    PaddingIsNoCode();
    assert src[g..][2] == src[g + 2] && src[g..][3] == src[g + 3];
    assert Decode(src[g + 4..]) == [];
  }

  lemma DecodingStart(src: Bytes, g: nat, done: Bytes, curval: bv8)
    requires g < |src| && Padded(src[g..]) && done + Decode(src[g..]) == Decode(src)
    ensures Decoding(src, g, 0, done, done, curval)
  {
    hide Reverse, Padded, IsCode, Byte0, Byte1, Byte2, Decode;
    GroupOf(src, g);
  }

  /** Where the plain decoder stands after s characters of a correctly padded text. */
  ghost predicate Standing(src: Bytes, s: nat, done: Bytes, out: Bytes, curval: bv8) {
    s <= |src| && if s == |src| then out == Decode(src) else Decoding(src, s - s % 4, s % 4, done, out, curval)
  }

  /** One character that is not padding. */
  method PlainChar(dst: array<bv8>, d: nat, src: Bytes, s: nat, curval: bv8, ghost done: Bytes)
    returns (d': nat, curval': bv8, ghost done': Bytes)
    requires d < dst.Length && s < |src| && src[s] != PAD
    modifies dst
    ensures d' == if s % 4 == 0 then d else d + 1
    ensures old(Standing(src, s, done, dst[..d], curval)) ==> Standing(src, s + 1, done', dst[..d'], curval')
  {
    hide Reverse, Padded, IsCode, Decode, Decoding, SignedShift2, SignedShift4, Or, Up2, Up4, Up6;
    ghost var out, g, k := dst[..d], s - s % 4, s % 4;
    NextPlace(s);
    ghost var standing := Standing(src, s, done, out, curval);
    d', curval' := PutChar(dst, d, s % 4, src[s], curval);
    done' := done;
    assert dst[..d'] == if k == 0 then out else out + [dst[d]];
    if standing {
      if k < 3 {
        DecodingChar(src, g, k, done, out, curval, dst[..d'], curval');
        assert s + 1 < |src| by { DecodingInside(src, g, k, done, out, curval); }
      } else {
        DecodingGroup(src, g, done, out, curval);
        done' := dst[..d'];
        if s + 1 < |src| {
          DecodingStart(src, s + 1, done', curval');
        } else {
          DecodeNothing();
          assert src[s + 1..] == [] && done' + [] == done';
        }
      }
    }
  }

  lemma NextPlace(s: nat)
    ensures s % 4 < 3 ==> (s + 1) % 4 == s % 4 + 1 && s + 1 - (s + 1) % 4 == s - s % 4
    ensures s % 4 == 3 ==> (s + 1) % 4 == 0 && s - s % 4 + 4 == s + 1
  {}

  lemma DecodingInside(src: Bytes, g: nat, k: nat, done: Bytes, out: Bytes, curval: bv8)
    requires Decoding(src, g, k, done, out, curval)
    ensures g + 4 <= |src|
  {}

  /** The plain decoder: one pass with a switch on the position inside the group. */
  method PlainDecode(dst: array<bv8>, src: Bytes) returns (d: nat)
    requires dst.Length == |src| * 3 / 4
    modifies dst
    ensures d <= dst.Length && (|src| % 4 != 0 ==> d == 0)
    ensures Padded(src) ==> dst[..d] == Decode(src)
  {
    hide Reverse, Padded, IsCode, Decode, Decoding;
    d := 0;
    if |src| % 4 != 0 {
      NotPadded(src);
      return;
    }
    var curval: bv8 := 0;
    ghost var done := [];
    StandingStart(src);
    var s := 0;
    while s < |src|
      invariant 0 <= s <= |src|
      invariant d == 3 * (s / 4) + (if s % 4 < 2 then 0 else s % 4 - 1)
      invariant Padded(src) ==> Standing(src, s, done, dst[..d], curval)
    {
      if src[s] == PAD {
        ghost var out := dst[..d];
        if Padded(src) {
          DecodingPad(src, s - s % 4, s % 4, done, out, curval);
        }
        dst[d] := curval;
        assert dst[..d] == out;
        break;
      }
      d, curval, done := PlainChar(dst, d, src, s, curval, done);
      s := s + 1;
    }
  }

  lemma StandingStart(src: Bytes)
    ensures Padded(src) ==> Standing(src, 0, [], [], 0)
  {
    hide Padded, Decode, Decoding;
    assert src[0..] == src && [] + Decode(src) == Decode(src);
    DecodeNothing();
    if Padded(src) && src != [] {
      DecodingStart(src, 0, [], 0);
    }
  }

  lemma NotPadded(t: Bytes)
    requires |t| % 4 != 0
    ensures !Padded(t)
  {
    if Padded(t) {
      PaddedSize(t);
    }
  }

  /** One group of the scalar loop; stop tells whether padding ended it. */
  method ScalarGroup(src: Bytes, i: nat) returns (out: Bytes, stop: bool)
    requires i + 4 <= |src|
    ensures Padded(src[i..]) ==> out == Group(src[i..]) && (stop ==> i + 4 == |src|)
  {
    hide Reverse, Padded, IsCode, Or, Up2, Up4, Up6, Down2, Down4;
    if Padded(src[i..]) {
      GroupOf(src, i);
      PaddingIsNoCode();
    }
    assert src[i..][0] == src[i] && src[i..][1] == src[i + 1] && src[i..][2] == src[i + 2] && src[i..][3] == src[i + 3];
    var c := Or(Up2(Reverse(src[i])), Down4(Reverse(src[i + 1])));
    if src[i + 1] == PAD {
      return [], true;
    }
    out := [c];
    c := Or(Up4(Reverse(src[i + 1])), Down2(Reverse(src[i + 2])));
    if src[i + 2] == PAD {
      return out, true;
    }
    out := out + [c];
    c := Or(Up6(Reverse(src[i + 2])), Reverse(src[i + 3]));
    if src[i + 3] == PAD {
      return out, true;
    }
    out := out + [c];
    stop := false;
  }

  /** A padded text can be decoded in two parts, cut between any two groups. */
  lemma {:induction false} DecodeSplit(t: Bytes, n: nat)
    requires Padded(t) && n % 4 == 0 && n <= |t|
    ensures Padded(t[n..]) && Decode(t) == Decode(t[..n]) + Decode(t[n..])
    decreases |t|
  {
    hide Padded, Decode, Group;
    DecodeNothing();
    if n == 0 {
      assert t[..n] == [] && t[0..] == t;
    } else {
      var u := t[4..];
      TakeGroup(t, n);
      DecodeSplit(u, n - 4);
      assert u[..n - 4] == t[..n][4..] && u[n - 4..] == t[n..];
      assert Group(t) + (Decode(u[..n - 4]) + Decode(t[n..])) == Group(t) + Decode(u[..n - 4]) + Decode(t[n..]);
    }
  }

  lemma TakeGroup(t: Bytes, n: nat)
    requires Padded(t) && 4 <= n <= |t|
    ensures Padded(t[4..])
    ensures Decode(t) == Group(t) + Decode(t[4..]) && Decode(t[..n]) == Group(t) + Decode(t[..n][4..])
  {
    hide IsCode, Reverse, Byte0, Byte1, Byte2;
    assert t[..n][0] == t[0] && t[..n][1] == t[1] && t[..n][2] == t[2] && t[..n][3] == t[3];
  }

  /** The loop that follows the vectorised decoder: whole groups at a time, from where that one stopped. */
  method ScalarDecode(src: Bytes, start: nat, done: Bytes) returns (dst: Bytes)
    requires |src| % 4 == 0 && forall i | 0 <= i < |src| :: src[i] < 0x80
    requires start % 4 == 0 && start <= |src|
    ensures Padded(src) && done == Decode(src[..start]) ==> dst == Decode(src)
  {
    hide Reverse, Padded, IsCode, Decode, Group;
    dst := done;
    ghost var ok := Padded(src) && done == Decode(src[..start]);
    if ok {
      DecodeSplit(src, start);
    }
    var i, stop := start, false;
    while i < |src| && !stop
      invariant 0 <= i <= |src| && i % 4 == 0
      invariant ok ==> Padded(src[i..]) && dst + Decode(src[i..]) == Decode(src) && (stop ==> i == |src|)
    {
      var out;
      out, stop := ScalarGroup(src, i);
      if ok {
        GroupOf(src, i);
        assert dst + (out + Decode(src[i + 4..])) == dst + out + Decode(src[i + 4..]);
      }
      dst := dst + out;
      i := i + 4;
    }
    if ok {
      DecodeNothing();
      assert src[i..] == [] && dst + [] == dst;
    }
  }

  /** Both decoders give back what was encoded, and they agree on every correctly padded text, wherever the scalar loop
      takes over. */
  method DecodersAgree(src: Bytes, start: nat) returns (plain: array<bv8>, n: nat, scalar: Bytes)
    requires |src| % 4 == 0 && forall i | 0 <= i < |src| :: src[i] < 0x80
    requires start % 4 == 0 && start <= |src|
    ensures n <= plain.Length && (Padded(src) ==> plain[..n] == scalar)
  {
    plain := new bv8[|src| * 3 / 4](_ => 0);
    n := PlainDecode(plain, src);
    scalar := ScalarDecode(src, start, Decode(src[..start]));
  }
}
