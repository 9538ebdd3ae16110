/** Bytes, byte vectors and little-endian integers, the base of every frame format. */
module Codec {

  type byte = x: int | 0 <= x < 0x100
  type uint16 = x: int | 0 <= x < 0x1_0000
  type uint32 = x: int | 0 <= x < 0x1_0000_0000
  type bytes = seq<byte>

  // ---- The same bytes as bit vectors, for the ciphers.

  function ToBits(b: bytes): (v: seq<bv8>)
    ensures |v| == |b|
  {
    seq(|b|, i requires 0 <= i < |b| => b[i] as bv8)
  }

  function FromBits(v: seq<bv8>): (b: bytes)
    ensures |b| == |v|
  {
    seq(|v|, i requires 0 <= i < |v| => v[i] as int)
  }

  lemma BitsRoundTrip(b: bytes)
    ensures FromBits(ToBits(b)) == b
  {
    forall i | 0 <= i < |b| ensures FromBits(ToBits(b))[i] == b[i] {
      ByteBits(b[i]);
    }
  }

  lemma NextByte(v: bv8)
    requires v != 0xFF
    ensures (v + 1) as int == v as int + 1
  {}

  /** A byte survives the way through a bit vector. */
  lemma {:induction false} ByteBits(x: byte)
    ensures (x as bv8) as int == x
    decreases x
  {
    if x > 0 {
      ByteBits(x - 1);
      var v := (x - 1) as bv8;
      NextByte(v);
      BitsByte(v + 1);
    }
  }

  lemma BitsRoundTripBack(v: seq<bv8>)
    ensures ToBits(FromBits(v)) == v
  {
    forall i | 0 <= i < |v| ensures ToBits(FromBits(v))[i] == v[i] {
      BitsByte(v[i]);
    }
  }

  lemma BitsByte(x: bv8)
    ensures (x as int) as bv8 == x
  {}

  // ---- Little-endian integers.

  /** The part of a number that n bytes can hold. */
  function Truncate(num: uint32, n: nat): uint32
    requires n <= 4
  {
    match n
    case 0 => 0
    case 1 => num % 0x100
    case 2 => num % 0x1_0000
    case 3 => num % 0x100_0000
    case _ => num
  }

  /** The low n bytes of a number, least significant first. */
  function Le(num: uint32, n: nat): (b: bytes)
    requires n <= 4
    ensures |b| == n
  {
    [num % 0x100, num / 0x100 % 0x100, num / 0x1_0000 % 0x100, num / 0x100_0000][..n]
  }

  function ByteAt(b: bytes, i: nat): byte {
    if i < |b| then b[i] else 0
  }

  /** The number a little-endian byte string stands for. */
  function FromLe(b: bytes): uint32
    requires |b| <= 4
  {
    ByteAt(b, 0) + 0x100 * ByteAt(b, 1) + 0x1_0000 * ByteAt(b, 2) + 0x100_0000 * ByteAt(b, 3)
  }

  /** Decoding an encoded number gives it back, cut to the bytes it was written in. */
  lemma FromLeOfLe(num: uint32, n: nat)
    requires n <= 4
    ensures FromLe(Le(num, n)) == Truncate(num, n)
  {
    Digits(num);
    match n
    case 0 =>
    case 1 =>
    case 2 =>
    case 3 =>
    case _ =>
  }

  lemma Digits(num: uint32)
    ensures num % 0x1_0000 == num % 0x100 + 0x100 * (num / 0x100 % 0x100)
    ensures num % 0x100_0000 == num % 0x1_0000 + 0x1_0000 * (num / 0x1_0000 % 0x100)
    ensures num == num % 0x100_0000 + 0x100_0000 * (num / 0x100_0000)
    ensures num / 0x100_0000 < 0x100
  {}

  /** Encoding a decoded byte string gives it back, so both directions lose nothing. */
  lemma LeOfFromLe(b: bytes)
    requires |b| <= 4
    ensures Le(FromLe(b), |b|) == b
  {
    Undigits(ByteAt(b, 0), ByteAt(b, 1), ByteAt(b, 2), ByteAt(b, 3));
  }

  lemma Undigits(a: byte, b: byte, c: byte, d: byte)
    ensures var num := a + 0x100 * b + 0x1_0000 * c + 0x100_0000 * d;
            && num % 0x100 == a && num / 0x100 % 0x100 == b && num / 0x1_0000 % 0x100 == c && num / 0x100_0000 == d
  {
    LowDigit(a, b + 0x100 * c + 0x1_0000 * d);
    LowDigit(b, c + 0x100 * d);
    LowDigit(c, d);
    var num := a + 0x100 * b + 0x1_0000 * c + 0x100_0000 * d;
    assert num / 0x1_0000 == num / 0x100 / 0x100;
    assert num / 0x100_0000 == num / 0x1_0000 / 0x100;
  }

  lemma LowDigit(a: byte, rest: nat)
    ensures (a + 0x100 * rest) % 0x100 == a && (a + 0x100 * rest) / 0x100 == rest
  {}

  /** Appends the low bytes of a number to a vector. */
  method ConcatInt(bs: bytes, num: uint32, numBytes: nat) returns (out: bytes)
    requires numBytes <= 4
    ensures out == bs + Le(num, numBytes)
  {
    out := bs;
    if numBytes > 0 {
      out := out + [num % 0x100];
    }
    if numBytes > 1 {
      out := out + [num / 0x100 % 0x100];
    }
    if numBytes > 2 {
      out := out + [num / 0x1_0000 % 0x100];
    }
    if numBytes > 3 {
      out := out + [num / 0x100_0000];
    }
  }

  /** Reads numBytes bytes from offset o. */
  method ExtractInt(from: bytes, o: nat, numBytes: nat) returns (res: uint32)
    requires numBytes <= 4 && o + numBytes <= |from|
    ensures res == FromLe(from[o..o + numBytes])
  {
    res := 0;
    if numBytes > 0 {
      res := res + from[o];
    }
    if numBytes > 1 {
      res := res + (from[o + 1] as int) * 0x100;
    }
    if numBytes > 2 {
      res := res + (from[o + 2] as int) * 0x1_0000;
    }
    if numBytes > 3 {
      res := res + (from[o + 3] as int) * 0x100_0000;
    }
  }

  // ---- Hexadecimal digits.

  function HexDigit(h: nat): byte
    requires h < 16
  {
    if h < 10 then 0x30 + h else 0x61 + h - 10
  }
}
