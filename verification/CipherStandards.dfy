/** The integrity code and the payload cipher as their standards describe them, with every constant spelled out. */
module CipherStandards {
  import opened Codec
  import opened Aes
  import opened AesCode
  import opened Wrappers
  import Cmac
  import LoraCipher
  import LoraAes

  // ---- RFC 4493: one pass over the message.

  function Plus(a: Block, b: Block): Block {
    seq(16, i requires 0 <= i < 16 => a[i] ^ b[i])
  }

  function Zeros(n: nat): Bytes {
    seq(n, _ => 0 as bv8)
  }

  /** The digest of the rest of a message, x being the state of the cipher before it. */
  function Absorbed(key: Key, k1: Block, k2: Block, x: Block, m: Bytes): Block
    decreases |m|
  {
    if |m| > 16 then Absorbed(key, k1, k2, Encrypt(key, Plus(x, m[..16])), m[16..])
    else if |m| == 16 then Encrypt(key, Plus(x, Plus(m, k1)))
    else Encrypt(key, Plus(x, Plus(m + [0x80] + Zeros(15 - |m|), k2)))
  }

  lemma PlusComm(a: Block, b: Block)
    ensures Plus(a, b) == Plus(b, a) && Cmac.Xor(a, b) == Plus(a, b)
  {
    forall i | 0 <= i < 16 ensures Plus(a, b)[i] == Plus(b, a)[i] && Cmac.Xor(a, b)[i] == Plus(a, b)[i] {
      Cmac.BytesComm(a[i], b[i]);
    }
  }

  lemma LastAbsorbed(key: Key, msg: Bytes, i: nat, m: Bytes)
    requires 16 * i <= |msg| && m == msg[16 * i..] && |m| <= 16 && (|m| == 0 ==> i == 0)
    ensures var k1 := Cmac.Subkey(Encrypt(key, Zeros(16)));
            Cmac.Cmac(key, msg) == Absorbed(key, k1, Cmac.Subkey(k1), Cmac.Chain(key, msg, i), m)
  {
    hide Encrypt, Cmac.Subkey, Cmac.Chain, Plus, Cmac.Xor;
    var x := Cmac.Chain(key, msg, i);
    assert Cmac.BlockCount(|msg|) == i + 1;
    assert Cmac.ZERO == Zeros(16);
    var l := Encrypt(key, Zeros(16));
    var k1 := Cmac.Subkey(l);
    var full := if |m| == 16 then m else m + [0x80] + Zeros(15 - |m|);
    assert |m| < 16 ==> Cmac.Pad(m) == full;
    var last := Plus(full, if |m| == 16 then k1 else Cmac.Subkey(k1));
    PlusComm(full, if |m| == 16 then k1 else Cmac.Subkey(k1));
    assert Cmac.LastBlock(key, msg) == last;
    PlusComm(last, x);
  }

  lemma {:induction false} RestAbsorbed(key: Key, msg: Bytes, i: nat, m: Bytes)
    requires 16 * i <= |msg| && m == msg[16 * i..] && (|m| == 0 ==> i == 0)
    ensures var k1 := Cmac.Subkey(Encrypt(key, Zeros(16)));
            Cmac.Cmac(key, msg) == Absorbed(key, k1, Cmac.Subkey(k1), Cmac.Chain(key, msg, i), m)
    decreases |m|
  {
    hide Encrypt, Cmac.Subkey, Cmac.Cmac, Cmac.Chain, Plus, Cmac.Xor;
    if |m| > 16 {
      assert m[..16] == msg[16 * i..16 * (i + 1)] && m[16..] == msg[16 * (i + 1)..];
      Cmac.ChainStep(key, msg, i, m[..16]);
      PlusComm(m[..16], Cmac.Chain(key, msg, i));
      RestAbsorbed(key, msg, i + 1, m[16..]);
    } else {
      LastAbsorbed(key, msg, i, m);
    }
  }

  /** Byte j of a block shifted left by one bit, with 0x87 added when a one bit falls off. */
  function DoubledByte(b: Block, j: nat): bv8
    requires j < 16
  {
    if j < 15 then (b[j] << 1) | (b[j + 1] >> 7) else (b[15] << 1) ^ (if b[0] >= 0x80 then 0x87 else 0)
  }

  lemma ShiftedBits(own: bv8, next: bv8)
    ensures Cmac.ShiftedByte(own, next) == (own << 1) | (next >> 7)
    ensures Cmac.ShiftedByte(own, 0) == own << 1
    ensures own & 0x80 != 0 <==> own >= 0x80
  {}

  lemma AddedNothing(x: bv8)
    ensures x ^ 0 == x
  {}

  lemma SubkeyByte(b: Block, j: nat)
    requires j < 16
    ensures Cmac.Subkey(b)[j] == DoubledByte(b, j)
  {
    hide Cmac.ShiftedByte;
    Cmac.ShiftLeftAt(b, j);
    ShiftedBits(b[j], if j < 15 then b[j + 1] else 0);
    ShiftedBits(b[0], 0);
    AddedNothing(b[15] << 1);
  }

  /** The digest at every length: a left fold over the blocks, the last of which takes the first subkey when it is
      complete, and the second one after a one bit and zeros when it is not. The subkeys double the encrypted zero
      block once and twice. */
  lemma DigestIsStandard(key: Key, msg: Bytes, k1: Block, k2: Block)
    requires k1 == Cmac.Subkey(Encrypt(key, Zeros(16))) && k2 == Cmac.Subkey(k1)
    ensures Cmac.Cmac(key, msg) == Absorbed(key, k1, k2, Zeros(16), msg)
    ensures forall j | 0 <= j < 16 :: k1[j] == DoubledByte(Encrypt(key, Zeros(16)), j) && k2[j] == DoubledByte(k1, j)
  {
    hide Encrypt, Cmac.Subkey, Cmac.Cmac, DoubledByte, Absorbed;
    assert msg[0..] == msg;
    Cmac.ChainStart(key, msg);
    assert Cmac.ZERO == Zeros(16);
    RestAbsorbed(key, msg, 0, msg);
    forall j | 0 <= j < 16 ensures k1[j] == DoubledByte(Encrypt(key, Zeros(16)), j) && k2[j] == DoubledByte(k1, j) {
      SubkeyByte(Encrypt(key, Zeros(16)), j);
      SubkeyByte(k1, j);
    }
  }

  // ---- Vectors of bytes.

  /** A vector padded with zeros to whole blocks is encrypted block by block. */
  lemma VectorBlock(key: Key, x: Bytes, i: nat)
    requires 16 * i < |x|
    ensures var y := LoraCipher.Aes128Encrypt(key, x);
            && |y| == (|x| + 15) / 16 * 16
            && y[16 * i..16 * i + 16] ==
               Encrypt(key, seq(16, j requires 0 <= j < 16 => if 16 * i + j < |x| then x[16 * i + j] else 0))
  {
    hide Encrypt, Decrypt;
    var p := LoraCipher.ZeroPad(x);
    LoraCipher.EcbBlock(key, p, |p| / 16, false, i);
    assert LoraCipher.BlockOf(p, i) ==
           seq(16, j requires 0 <= j < 16 => if 16 * i + j < |x| then x[16 * i + j] else 0);
  }

  // ---- LoRaWAN 1.0.2 section 4.3.3: the payload cipher.

  /** The exclusive or of two bytes. */
  function XorBytes(a: byte, b: byte): byte {
    (a as bv8 ^ b as bv8) as int
  }

  /** The block A_i. */
  function KeystreamInput(fcnt: uint32, devAddr: uint32, direction: byte, i: byte): bytes {
    [1, 0, 0, 0, 0, direction, devAddr % 256, devAddr / 256 % 256, devAddr / 65536 % 256, devAddr / 16777216,
     fcnt % 256, fcnt / 256 % 256, fcnt / 65536 % 256, fcnt / 16777216, 0, i]
  }

  lemma InputBytes(st: LoraCipher.Stream, i: byte)
    ensures KeystreamInput(st.fcnt, st.devAddr, st.direction, i) ==
            [0x01, 0, 0, 0, 0, st.direction] + Le(st.devAddr, 4) + Le(st.fcnt, 4) + [0, i]
  {}

  lemma EncryptedBlock(key: LoraAes.Key, a: bytes, j: nat)
    requires |a| == 16 && j < 16
    ensures |LoraAes.EncryptVector(key, a)| == 16
    ensures LoraAes.EncryptVector(key, a)[j] as bv8 == Encrypt(ToBits(key), ToBits(a))[j]
  {
    hide Encrypt;
    LoraCipher.EncryptOneBlock(ToBits(key), ToBits(a));
    BitsByte(Encrypt(ToBits(key), ToBits(a))[j]);
  }

  /** Byte j of a payload is added to byte j of the encrypted blocks A_1, A_2 and so on. A block is numbered in one
      byte, which covers every frame, and the number starts again from zero after 255 blocks. */
  lemma PayloadByte(key: LoraAes.Key, fcnt: uint32, devAddr: uint32, direction: byte, x: bytes, j: nat)
    requires |x| < 65536 && j < |x|
    ensures var s := LoraAes.EncryptVector(key, KeystreamInput(fcnt, devAddr, direction, (j / 16 + 1) % 256));
            && |s| == 16
            && LoraAes.Crypt(key, fcnt, devAddr, direction, x)[j] == XorBytes(x[j], s[j % 16])
  {
    hide Encrypt, LoraCipher.LoramacCrypt, LoraAes.EncryptVector, Le, KeystreamInput;
    var st := LoraAes.Stream(key, fcnt, devAddr, direction);
    var a := KeystreamInput(fcnt, devAddr, direction, (j / 16 + 1) % 256);
    InputBytes(st, (j / 16 + 1) % 256);
    LoraCipher.CryptIsStandard(st, ToBits(x), j);
    EncryptedBlock(key, a, j % 16);
  }

  /** An integrity code is the first four bytes of the digest. */
  lemma CodeByte(key: LoraAes.Key, msg: bytes, i: nat)
    requires i < 4
    ensures LoraAes.Mic(key, msg)[i] == Cmac.Cmac(ToBits(key), ToBits(msg))[i] as int
  {
    hide Cmac.Cmac;
  }
}
