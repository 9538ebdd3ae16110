/** Hexadecimal text of byte strings: device identifiers and keys are written and read in this form. */
module Hex {
  import opened Codec

  /** The value of a digit of either case; any other character counts as zero. */
  function DigitValue(c: byte): (v: nat)
    ensures v < 16
  {
    if 0x30 <= c <= 0x39 then c - 0x30
    else if 0x61 <= c <= 0x66 then c - 0x61 + 10
    else if 0x41 <= c <= 0x46 then c - 0x41 + 10
    else 0
  }

  function HexText(b: bytes): (t: bytes)
    ensures |t| == 2 * |b|
    ensures forall i | 0 <= i < |b| :: t[2 * i] == HexDigit(b[i] / 16) && t[2 * i + 1] == HexDigit(b[i] % 16)
  {
    if b == [] then []
    else
      var n := |b| - 1;
      HexText(b[..n]) + [HexDigit(b[n] / 16), HexDigit(b[n] % 16)]
  }

  method HexToString(hex: bytes) returns (result: bytes)
    ensures result == HexText(hex)
  {
    result := [];
    for i := 0 to |hex|
      invariant result == HexText(hex[..i])
    {
      assert hex[..i + 1][..i] == hex[..i];
      result := result + [HexDigit(hex[i] / 16)];
      result := result + [HexDigit(hex[i] % 16)];
    }
    assert hex[..|hex|] == hex;
  }

  /** Byte i that a text stands for; a last single digit is the high half of a byte. */
  function ByteOf(text: bytes, i: nat): byte
    requires 2 * i < |text|
  {
    16 * DigitValue(text[2 * i]) + if 2 * i + 1 < |text| then DigitValue(text[2 * i + 1]) else 0
  }

  /** Writes into the buffer what fits, and gives the number of complete bytes. */
  method StringToHex(str: bytes, hex: array<byte>) returns (n: nat)
    modifies hex
    ensures n == if |str| / 2 < hex.Length then |str| / 2 else hex.Length
    ensures forall i | 0 <= i < hex.Length :: hex[i] == if 2 * i < |str| then ByteOf(str, i) else old(hex[i])
  {
    var pos := 0;
    while pos < |str|
      invariant 0 <= pos <= |str| && pos <= 2 * hex.Length
      invariant forall i | 0 <= i < hex.Length ::
                  hex[i] == if 2 * i + 1 < pos then ByteOf(str, i)
                            else if 2 * i < pos then 16 * DigitValue(str[2 * i])
                            else old(hex[i])
    {
      if pos / 2 >= hex.Length {
        return pos / 2;
      }
      var value := DigitValue(str[pos]);
      if pos % 2 != 0 {
        hex[pos / 2] := hex[pos / 2] + value;
      } else {
        hex[pos / 2] := 16 * value;
      }
      pos := pos + 1;
    }
    n := pos / 2;
  }

  lemma DigitBack(v: nat)
    requires v < 16
    ensures DigitValue(HexDigit(v)) == v
  {}

  /** Digits are written in lower case and read in either case; whatever is no digit counts as zero. */
  lemma DigitTable(v: nat, c: byte)
    requires v < 16
    ensures HexDigit(v) == if v < 10 then '0' as int + v else 'a' as int + v - 10
    ensures DigitValue(c) == if '0' as int <= c <= '9' as int then c - '0' as int
                             else if 'a' as int <= c <= 'f' as int then c - 'a' as int + 10
                             else if 'A' as int <= c <= 'F' as int then c - 'A' as int + 10
                             else 0
  {}

  /** The high half of a byte comes first: 1F is written 1f, and A5 read from either case. */
  lemma HighFirst()
    ensures HexText([0x1F]) == ['1' as int, 'f' as int]
    ensures ByteOf(['A' as int, '5' as int], 0) == 0xA5 && ByteOf(['a' as int, '5' as int], 0) == 0xA5
  {}

  /** Reading the text of a byte string gives every byte back. */
  lemma HexTextBack(b: bytes, i: nat)
    requires i < |b|
    ensures ByteOf(HexText(b), i) == b[i]
  {
    DigitBack(b[i] / 16);
    DigitBack(b[i] % 16);
  }

  /** Different byte strings have different texts, so the text of two identifiers can serve as a key. */
  lemma HexTextInjective(a: bytes, b: bytes)
    requires HexText(a) == HexText(b)
    ensures a == b
  {
    forall i | 0 <= i < |a| ensures a[i] == b[i] {
      HexTextBack(a, i);
      HexTextBack(b, i);
    }
  }
}
