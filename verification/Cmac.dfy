/** AES-CMAC: the definition of RFC 4493 and the code that computes it in place. */
module Cmac {
  import opened Aes
  import opened AesCode
  import opened Wrappers

  // ---- RFC 4493 section 2.3: subkeys, as 128-bit strings.

  function Pack4(a: bv8, b: bv8, c: bv8, d: bv8): bv32 {
    (a as bv32 << 24) | (b as bv32 << 16) | (c as bv32 << 8) | d as bv32
  }

  function Pack16(a: bv32, b: bv32, c: bv32, d: bv32): bv128 {
    (a as bv128 << 96) | (b as bv128 << 64) | (c as bv128 << 32) | d as bv128
  }

  /** Four bytes of a block read as a bit string, first byte first. */
  function Word32(b: Block, i: nat): bv32
    requires i < 4
  {
    Pack4(b[4 * i], b[4 * i + 1], b[4 * i + 2], b[4 * i + 3])
  }

  /** A block read as a bit string, first byte first. */
  function Bits(b: Block): bv128 {
    Pack16(Word32(b, 0), Word32(b, 1), Word32(b, 2), Word32(b, 3))
  }

  /** Multiplication by x in GF(2^128): shift left, and reduce when a one bit falls off. */
  function Double(x: bv128): bv128 {
    if x >> 127 == 1 then (x << 1) ^ 0x87 else x << 1
  }

  /** A byte of a block shifted left by one bit; next is the byte that follows it. */
  function ShiftedByte(own: bv8, next: bv8): bv8 {
    ((own << 1) & 0xfe) | ((next >> 7) & 0x01)
  }

  function ShiftedByteAt(b: Block, i: nat): bv8
    requires i < 16
  {
    ShiftedByte(b[i], if i < 15 then b[i + 1] else 0)
  }

  function ShiftLeft(b: Block): Block {
    seq(16, i requires 0 <= i < 16 => ShiftedByteAt(b, i))
  }

  /** The subkey the code derives from a block: both subkeys are formed in the same way. */
  function Subkey(b: Block): Block {
    var s := ShiftLeft(b);
    if b[0] & 0x80 != 0 then s[15 := s[15] ^ 0x87] else s
  }

  /** A word shifted left by one bit; next is the word that follows it. */
  function ShiftedWord(own: bv32, next: bv32): bv32 {
    (own << 1) | (next >> 31)
  }

  function ShiftedBits(x: bv128): bv128 {
    x << 1
  }

  function ReducedWord(x: bv32): bv32 {
    x ^ 0x87
  }

  function ReducedBits(x: bv128): bv128 {
    x ^ 0x87
  }

  lemma ShiftPack4(a: bv8, b: bv8, c: bv8, d: bv8, e: bv8)
    ensures Pack4(ShiftedByte(a, b), ShiftedByte(b, c), ShiftedByte(c, d), ShiftedByte(d, e)) ==
            (Pack4(a, b, c, d) << 1) | (e >> 7) as bv32
  {}

  lemma TopBitPack4(a: bv8, b: bv8, c: bv8, d: bv8)
    ensures Pack4(a, b, c, d) >> 31 == (a >> 7) as bv32
  {}

  lemma ShiftLeftAt(b: Block, j: nat)
    requires j < 16
    ensures ShiftLeft(b)[j] == ShiftedByte(b[j], if j < 15 then b[j + 1] else 0)
  {
    hide ShiftedByte;
  }

  lemma ShiftWord(b: Block, i: nat)
    requires i < 4
    ensures Word32(ShiftLeft(b), i) == ShiftedWord(Word32(b, i), if i < 3 then Word32(b, i + 1) else 0)
  {
    hide Pack4, ShiftedByte, ShiftLeft;
    var j := 4 * i;
    ShiftLeftAt(b, j);
    ShiftLeftAt(b, j + 1);
    ShiftLeftAt(b, j + 2);
    ShiftLeftAt(b, j + 3);
    ShiftPack4(b[j], b[j + 1], b[j + 2], b[j + 3], if i < 3 then b[j + 4] else 0);
    if i < 3 {
      TopBitPack4(b[j + 4], b[j + 5], b[j + 6], b[j + 7]);
    }
  }

  lemma ShiftPacked(a: bv32, b: bv32, c: bv32, d: bv32)
    ensures Pack16((a << 1) | (b >> 31), (b << 1) | (c >> 31), (c << 1) | (d >> 31), d << 1) == Pack16(a, b, c, d) << 1
  {}

  lemma LastWord(d: bv32)
    ensures ShiftedWord(d, 0) == d << 1
  {}

  lemma ShiftPack16(a: bv32, b: bv32, c: bv32, d: bv32)
    ensures Pack16(ShiftedWord(a, b), ShiftedWord(b, c), ShiftedWord(c, d), ShiftedWord(d, 0)) ==
            ShiftedBits(Pack16(a, b, c, d))
  {
    hide Pack16;
    ShiftPacked(a, b, c, d);
    LastWord(d);
  }

  lemma TopBitPack16(a: bv32, b: bv32, c: bv32, d: bv32)
    ensures Pack16(a, b, c, d) >> 127 == (a >> 31) as bv128
  {}

  lemma LowBytePack4(a: bv8, b: bv8, c: bv8, d: bv8)
    ensures Pack4(a, b, c, d ^ 0x87) == ReducedWord(Pack4(a, b, c, d))
  {}

  lemma LowBytePack16(a: bv32, b: bv32, c: bv32, d: bv32)
    ensures Pack16(a, b, c, ReducedWord(d)) == ReducedBits(Pack16(a, b, c, d))
  {}

  lemma TopBitSet(a: bv8)
    ensures (a & 0x80 != 0) <==> a >> 7 == 1
    ensures a >> 7 == 0 || a >> 7 == 1
  {}

  lemma ShiftLeftBits(b: Block)
    ensures Bits(ShiftLeft(b)) == ShiftedBits(Bits(b))
  {
    hide Word32, ShiftLeft, Pack16, ShiftedWord, ShiftedBits;
    ShiftWord(b, 0);
    ShiftWord(b, 1);
    ShiftWord(b, 2);
    ShiftWord(b, 3);
    ShiftPack16(Word32(b, 0), Word32(b, 1), Word32(b, 2), Word32(b, 3));
  }

  lemma TopBit(b: Block)
    ensures Bits(b) >> 127 == 1 <==> b[0] & 0x80 != 0
  {
    hide Pack4, Pack16;
    TopBitPack16(Word32(b, 0), Word32(b, 1), Word32(b, 2), Word32(b, 3));
    TopBitPack4(b[0], b[1], b[2], b[3]);
    TopBitSet(b[0]);
  }

  lemma LowWords(b: Block)
    ensures var x := b[15 := b[15] ^ 0x87];
            Word32(x, 0) == Word32(b, 0) && Word32(x, 1) == Word32(b, 1) && Word32(x, 2) == Word32(b, 2)
            && Word32(x, 3) == ReducedWord(Word32(b, 3))
  {
    hide Pack4, ReducedWord;
    LowBytePack4(b[12], b[13], b[14], b[15]);
  }

  lemma LowByte(b: Block)
    ensures Bits(b[15 := b[15] ^ 0x87]) == ReducedBits(Bits(b))
  {
    hide Word32, Pack16, ReducedWord, ReducedBits;
    LowWords(b);
    LowBytePack16(Word32(b, 0), Word32(b, 1), Word32(b, 2), Word32(b, 3));
  }

  /** The byte-wise shift and the conditional exclusive or are the doubling of RFC 4493 section 2.3. */
  lemma SubkeyDoubles(b: Block)
    ensures Bits(Subkey(b)) == Double(Bits(b))
  {
    hide Bits, ShiftLeft;
    ShiftLeftBits(b);
    TopBit(b);
    LowByte(ShiftLeft(b));
  }

  // ---- RFC 4493 section 2.4.

  const ZERO: Block := Repeated(0, 16)

  function Xor(a: Block, b: Block): Block {
    seq(16, i requires 0 <= i < 16 => a[i] ^ b[i])
  }

  /** A final block that is not complete gets a one bit and then zeros. */
  function Pad(m: Bytes): Block
    requires |m| < 16
  {
    m + [0x80] + Repeated(0, 15 - |m|)
  }

  /** The number of blocks of a message; the empty message has one. */
  function BlockCount(n: nat): (count: nat)
    ensures 16 * (count - 1) <= n <= 16 * count && count > 0
    ensures n > 0 ==> 16 * (count - 1) < n
  {
    if n == 0 then 1 else (n + 15) / 16
  }

  /** The cipher state after the first i blocks. */
  function Chain(key: Key, msg: Bytes, i: nat): Block
    requires 16 * i <= |msg|
  {
    if i == 0 then ZERO else Encrypt(key, Xor(Chain(key, msg, i - 1), msg[16 * (i - 1)..16 * i]))
  }

  function LastBlock(key: Key, msg: Bytes): Block {
    var l := Encrypt(key, ZERO);
    var last := msg[16 * (BlockCount(|msg|) - 1)..];
    if |last| == 16 then Xor(last, Subkey(l)) else Xor(Pad(last), Subkey(Subkey(l)))
  }

  function Cmac(key: Key, msg: Bytes): Block {
    Encrypt(key, Xor(LastBlock(key, msg), Chain(key, msg, BlockCount(|msg|) - 1)))
  }

  // ---- The code. A context holds the expanded key, so its round keys are KeySchedule(key).

  /** Encrypts a buffer that holds exactly one block. */
  method EncryptBuffer(buf: array<bv8>, w: RoundKeys, ghost key: Key)
    requires buf.Length == 16 && w == KeySchedule(key)
    modifies buf
    ensures buf[..] == Encrypt(key, old(buf[..]))
  {
    hide Cipher, KeySchedule;
    ghost var block: Block := buf[..];
    assert BlockAt(buf[..], 0) == block;
    CipherInPlace(buf, 0, w);
    assert Spliced(block, 0, Cipher(block, w)) == Cipher(block, w);
  }

  /** One byte of a shifted block: the last byte has no next one to take a bit from. */
  method ShiftOne(from: Block, i: nat) returns (r: bv8)
    requires i < 16
    ensures r == ShiftedByteAt(from, i)
  {
    ShiftedByteCoded(from[i], if i < 15 then from[i + 1] else 0);
    r := (from[i] << 1) & 0xfe;
    if i < 15 {
      r := r | ((from[i + 1] >> 7) & 0x01);
    }
  }

  lemma ShiftedByteCoded(own: bv8, next: bv8)
    ensures ShiftedByte(own, next) == ((own << 1) & 0xfe) | ((next >> 7) & 0x01)
    ensures ShiftedByte(own, 0) == (own << 1) & 0xfe
  {}

  /** Fills one subkey from the block it doubles. */
  method FillSubkey(k: array<bv8>, from: array<bv8>)
    requires k.Length == 16 && from.Length == 16 && k != from
    modifies k
    ensures k[..] == Subkey(from[..])
  {
    hide ShiftedByteAt;
    ghost var shifted := ShiftLeft(from[..]);
    for i := 0 to 16
      invariant from[..] == old(from[..])
      invariant k[..i] == shifted[..i]
    {
      k[i] := ShiftOne(from[..], i);
    }
    assert k[..] == shifted;
    if from[0] & 0x80 != 0 {
      k[15] := k[15] ^ 0x87;
    }
  }

  method KeyGen(w: RoundKeys, ghost key: Key, k1: array<bv8>, k2: array<bv8>)
    requires k1.Length == 16 && k2.Length == 16 && k1 != k2
    requires w == KeySchedule(key)
    modifies k1, k2
    ensures k1[..] == Subkey(Encrypt(key, ZERO))
    ensures k2[..] == Subkey(Subkey(Encrypt(key, ZERO)))
  {
    hide Subkey, Encrypt, KeySchedule;
    var l := new bv8[16](i => 0);
    assert l[..] == ZERO;
    EncryptBuffer(l, w, key);
    FillSubkey(k1, l);
    FillSubkey(k2, k1);
  }

  /** Pads the block when it is not complete and adds the subkey that belongs to it, in one pass. */
  method FinishLastBlock(mi: array<bv8>, ghost m: Bytes, blockLen: nat, flag: bool, k1: array<bv8>, k2: array<bv8>)
    requires mi.Length == 16 && k1.Length == 16 && k2.Length == 16 && mi != k1 && mi != k2
    requires |m| == blockLen <= 16 && mi[..blockLen] == m && (flag <==> blockLen == 16)
    modifies mi
    ensures mi[..] == if flag then Xor(m, k1[..]) else Xor(Pad(m), k2[..])
  {
    ghost var padded: Block := if flag then m else Pad(m);
    ghost var subkey: Block := if flag then k1[..] else k2[..];
    var k := 0;
    while k < 16
      invariant 0 <= k <= 16
      invariant k1[..] == old(k1[..]) && k2[..] == old(k2[..])
      invariant forall j | 0 <= j < k :: mi[j] == padded[j] ^ subkey[j]
      invariant forall j | k <= j < blockLen :: mi[j] == m[j]
    {
      if k == blockLen {
        mi[k] := 0x80;
      } else if k > blockLen {
        mi[k] := 0;
      }
      if flag {
        mi[k] := mi[k] ^ k1[k];
      } else {
        mi[k] := mi[k] ^ k2[k];
      }
      k := k + 1;
    }
  }

  method XorInto(cmac: array<bv8>, mi: array<bv8>)
    requires cmac.Length == 16 && mi.Length == 16 && cmac != mi
    modifies cmac
    ensures cmac[..] == Xor(mi[..], old(cmac[..]))
  {
    var k := 0;
    while k < 16
      invariant 0 <= k <= 16
      invariant mi[..] == old(mi[..])
      invariant forall j | 0 <= j < 16 :: cmac[j] == if j < k then old(mi[j]) ^ old(cmac[j]) else old(cmac[j])
    {
      cmac[k] := cmac[k] ^ mi[k];
      k := k + 1;
    }
  }

  method LoadBlock(mi: array<bv8>, buf: Bytes, i: nat, blockLen: nat)
    requires mi.Length == 16 && blockLen <= 16 && i + blockLen <= |buf|
    modifies mi
    ensures mi[..blockLen] == buf[i..i + blockLen]
  {
    for k := 0 to blockLen
      invariant mi[..k] == buf[i..i + k]
    {
      mi[k] := buf[i + k];
    }
  }

  lemma ChainStart(key: Key, msg: Bytes)
    ensures Chain(key, msg, 0) == ZERO
  {}

  lemma ChainStep(key: Key, msg: Bytes, i: nat, m: Block)
    requires 16 * (i + 1) <= |msg| && m == msg[16 * i..16 * (i + 1)]
    ensures Chain(key, msg, i + 1) == Encrypt(key, Xor(m, Chain(key, msg, i)))
  {
    hide Encrypt;
    XorComm(m, Chain(key, msg, i));
  }

  lemma XorComm(a: Block, b: Block)
    ensures Xor(a, b) == Xor(b, a)
  {
    forall i | 0 <= i < 16 ensures Xor(a, b)[i] == Xor(b, a)[i] {
      BytesComm(a[i], b[i]);
    }
  }

  lemma BytesComm(a: bv8, b: bv8)
    ensures a ^ b == b ^ a
  {}

  /** Adds a block to the state and encrypts the state. */
  method Absorb(w: RoundKeys, ghost key: Key, mi: array<bv8>, cmac: array<bv8>)
    requires mi.Length == 16 && cmac.Length == 16 && cmac != mi && w == KeySchedule(key)
    modifies cmac
    ensures cmac[..] == Encrypt(key, Xor(old(mi[..]), old(cmac[..])))
  {
    hide Encrypt, KeySchedule, Xor;
    XorInto(cmac, mi);
    EncryptBuffer(cmac, w, key);
  }

  /** One block of the message, which starts at i: the last one is padded if need be and takes a subkey. */
  method OneBlock(w: RoundKeys, ghost key: Key, buf: Bytes, i: nat, ghost done: nat, blockLen: nat, last: bool,
                  flag: bool, k1: array<bv8>, k2: array<bv8>, mi: array<bv8>, cmac: array<bv8>)
    requires w == KeySchedule(key) && i == 16 * done && blockLen <= 16 && i + blockLen <= |buf|
    requires k1.Length == 16 && k2.Length == 16 && mi.Length == 16 && cmac.Length == 16
    requires mi != k1 && mi != k2 && mi != cmac && cmac != k1 && cmac != k2
    requires k1[..] == Subkey(Encrypt(key, ZERO)) && k2[..] == Subkey(Subkey(Encrypt(key, ZERO)))
    requires cmac[..] == Chain(key, buf, done)
    requires if last then done == BlockCount(|buf|) - 1 && i + blockLen == |buf| && (flag <==> blockLen == 16)
             else blockLen == 16
    modifies mi, cmac
    ensures cmac[..] == if last then Cmac(key, buf) else Chain(key, buf, done + 1)
  {
    hide Encrypt, KeySchedule, Xor, Subkey, Pad, Chain, BlockCount;
    LoadBlock(mi, buf, i, blockLen);
    ghost var m, before := buf[i..i + blockLen], cmac[..];
    if last {
      FinishLastBlock(mi, m, blockLen, flag, k1, k2);
      assert m == buf[16 * (BlockCount(|buf|) - 1)..];
      assert mi[..] == LastBlock(key, buf);
    } else {
      ChainStep(key, buf, done, m);
      assert mi[..] == mi[..blockLen] == m;
    }
    Absorb(w, key, mi, cmac);
  }

  /** The loop over the message: the in-place code computes the RFC 4493 value for every length. */
  method AesEcbCmac(w: RoundKeys, ghost key: Key, buf: Bytes, cmac: array<bv8>)
    requires cmac.Length == 16 && w == KeySchedule(key)
    modifies cmac
    ensures cmac[..] == Cmac(key, buf)
  {
    hide Encrypt, KeySchedule, Xor, Subkey, Pad, Cmac, Chain, BlockCount;
    var k1 := new bv8[16](i => 0);
    var k2 := new bv8[16](i => 0);
    var mi := new bv8[16](i => 0);
    for j := 0 to 16
      invariant cmac[..j] == ZERO[..j]
    {
      cmac[j] := 0;
    }
    KeyGen(w, key, k1, k2);
    var len := |buf|;
    ghost var count := BlockCount(len);
    var flag := len % 16 == 0 && len > 0;
    var last := false;
    var i := 0;
    ghost var done := 0;
    ChainStart(key, buf);
    assert cmac[..] == ZERO;
    while i < len + (if len == 0 then 1 else 0)
      invariant i == 16 * done && 0 <= done <= count
      invariant last <==> done == count
      invariant k1[..] == Subkey(Encrypt(key, ZERO)) && k2[..] == Subkey(Subkey(Encrypt(key, ZERO)))
      invariant cmac[..] == if last then Cmac(key, buf) else Chain(key, buf, done)
      decreases 16 * count - i
    {
      var blockLen := len - i;
      if blockLen > 16 {
        blockLen := 16;
      } else {
        last := true;
      }
      OneBlock(w, key, buf, i, done, blockLen, last, flag, k1, k2, mi, cmac);
      i := i + 16;
      done := done + 1;
    }
  }
}
