/** The block modes built on AES: whole-vector encryption and decryption, the message digest, and the
    LoRaWAN payload cipher, which is its own inverse. */
module LoraCipher {
  import opened Aes
  import opened AesCode
  import opened Codec
  import opened Wrappers
  import Cmac

  // ---- Electronic codebook over a vector padded with zeros.

  function ZeroPad(x: Bytes): (p: Bytes)
    ensures |p| % 16 == 0 && |x| <= |p| < |x| + 16
  {
    x + Repeated(0, (|x| + 15) / 16 * 16 - |x|)
  }

  function BlockOf(x: Bytes, i: nat): Block
    requires 16 * i + 16 <= |x|
  {
    x[16 * i..16 * i + 16]
  }

  /** The first n blocks of x, each encrypted, or each decrypted, on its own. */
  function Ecb(key: Key, x: Bytes, n: nat, decrypting: bool): (y: Bytes)
    requires 16 * n <= |x|
    ensures |y| == 16 * n
  {
    if n == 0 then []
    else Ecb(key, x, n - 1, decrypting) +
         (if decrypting then Decrypt(key, BlockOf(x, n - 1)) else Encrypt(key, BlockOf(x, n - 1)))
  }

  function Aes128Encrypt(key: Key, plain: Bytes): Bytes {
    Ecb(key, ZeroPad(plain), |ZeroPad(plain)| / 16, false)
  }

  function Aes128Decrypt(key: Key, cypher: Bytes): Bytes {
    Ecb(key, ZeroPad(cypher), |ZeroPad(cypher)| / 16, true)
  }

  lemma BlockOfPrefix(a: Bytes, b: Bytes, i: nat)
    requires 16 * i + 16 <= |a|
    ensures BlockOf(a + b, i) == BlockOf(a, i)
  {}

  lemma {:induction false} EcbBlock(key: Key, x: Bytes, n: nat, decrypting: bool, i: nat)
    requires 16 * n <= |x| && i < n
    ensures BlockOf(Ecb(key, x, n, decrypting), i) ==
            if decrypting then Decrypt(key, BlockOf(x, i)) else Encrypt(key, BlockOf(x, i))
  {
    hide Encrypt, Decrypt;
    if i < n - 1 {
      EcbBlock(key, x, n - 1, decrypting, i);
      BlockOfPrefix(Ecb(key, x, n - 1, decrypting),
                    if decrypting then Decrypt(key, BlockOf(x, n - 1)) else Encrypt(key, BlockOf(x, n - 1)), i);
    }
  }

  lemma {:induction false} EcbInverse(key: Key, x: Bytes, n: nat, m: nat, decrypting: bool)
    requires 16 * n <= |x| && m <= n
    ensures Ecb(key, Ecb(key, x, n, decrypting), m, !decrypting) == x[..16 * m]
  {
    hide Encrypt, Decrypt, Ecb, BlockOf;
    var y := Ecb(key, x, n, decrypting);
    EcbFirst(key, y, m, !decrypting);
    if m > 0 {
      EcbInverse(key, x, n, m - 1, decrypting);
      EcbBlock(key, x, n, decrypting, m - 1);
      EncryptDecryptInverse(key, BlockOf(x, m - 1));
      OneBlockMore(x, m);
    }
  }

  lemma EcbFirst(key: Key, x: Bytes, n: nat, decrypting: bool)
    requires 16 * n <= |x|
    ensures n == 0 ==> Ecb(key, x, n, decrypting) == []
    ensures n > 0 ==>
              Ecb(key, x, n, decrypting) ==
              Ecb(key, x, n - 1, decrypting) +
              (if decrypting then Decrypt(key, BlockOf(x, n - 1)) else Encrypt(key, BlockOf(x, n - 1)))
  {
    hide Encrypt, Decrypt, BlockOf;
  }

  lemma OneBlockMore(x: Bytes, m: nat)
    requires 0 < m && 16 * m <= |x|
    ensures x[..16 * m] == x[..16 * (m - 1)] + BlockOf(x, m - 1)
  {}

  /** What a device gets by encrypting a body the server produced by decrypting, and the other way round:
      the original vector, padded with zeros to whole blocks. */
  lemma EncryptUndoesDecrypt(key: Key, x: Bytes)
    ensures Aes128Encrypt(key, Aes128Decrypt(key, x)) == ZeroPad(x)
    ensures Aes128Decrypt(key, Aes128Encrypt(key, x)) == ZeroPad(x)
  {
    hide Ecb;
    var p := ZeroPad(x);
    var n := |p| / 16;
    EcbInverse(key, p, n, n, true);
    EcbInverse(key, p, n, n, false);
    PaddedAlready(Aes128Decrypt(key, x));
    PaddedAlready(Aes128Encrypt(key, x));
    assert p[..16 * n] == p;
  }

  lemma PaddedAlready(x: Bytes)
    requires |x| % 16 == 0
    ensures ZeroPad(x) == x
  {}

  /** The round keys a context holds after initialisation. */
  method InitContext(key: Key) returns (w: RoundKeys)
    ensures w == KeySchedule(key)
  {
    hide KeySchedule;
    var roundKey := new bv8[176](i => 0);
    KeyExpansion(roundKey, key);
    w := roundKey[..];
  }

  /** The first i blocks have been replaced. */
  ghost predicate BlocksDone(key: Key, p: Bytes, all: Bytes, i: nat, decrypting: bool) {
    && |all| == |p| && 16 * i <= |p|
    && all[..16 * i] == Ecb(key, p, i, decrypting) && all[16 * i..] == p[16 * i..]
  }

  lemma NextBlock(key: Key, p: Bytes, before: Bytes, after: Bytes, i: nat, decrypting: bool, b: Block)
    requires 16 * i + 16 <= |p| && BlocksDone(key, p, before, i, decrypting)
    requires after == Spliced(before, 16 * i, b)
    requires b == if decrypting then Decrypt(key, BlockOf(p, i)) else Encrypt(key, BlockOf(p, i))
    ensures BlocksDone(key, p, after, i + 1, decrypting)
  {
    hide Encrypt, Decrypt;
    assert after[..16 * (i + 1)] == before[..16 * i] + b;
    assert after[16 * (i + 1)..] == before[16 * i..][16..];
  }

  lemma BlockToDo(key: Key, p: Bytes, before: Bytes, i: nat, decrypting: bool)
    requires 16 * i + 16 <= |p| && BlocksDone(key, p, before, i, decrypting)
    ensures BlockAt(before, 16 * i) == BlockOf(p, i)
  {
    hide Ecb;
    var o := 16 * i;
    assert before[o..o + 16] == before[o..][..16] == p[o..][..16] == p[o..o + 16];
  }

  method CipherBlock(result: array<bv8>, o: nat, w: RoundKeys, decrypting: bool)
    requires o + 16 <= result.Length
    modifies result
    ensures var b := BlockAt(old(result[..]), o);
            result[..] == Spliced(old(result[..]), o, if decrypting then InvCipher(b, w) else Cipher(b, w))
  {
    hide Cipher, InvCipher;
    if decrypting {
      InvCipherInPlace(result, o, w);
    } else {
      CipherInPlace(result, o, w);
    }
  }

  /** Both directions pad a copy of the vector and then overwrite it block by block. */
  method EcbInPlace(key: Key, x: Bytes, decrypting: bool) returns (result: array<bv8>)
    ensures fresh(result)
    ensures result[..] == if decrypting then Aes128Decrypt(key, x) else Aes128Encrypt(key, x)
  {
    hide KeySchedule, Cipher, InvCipher, Encrypt, Decrypt, BlocksDone, BlockAt, BlockOf, Spliced;
    var length := ((|x| + 15) / 16) * 16;
    ghost var p := ZeroPad(x);
    result := new bv8[length](i requires 0 <= i < length => if i < |x| then x[i] else 0);
    assert result[..] == p;
    var w := InitContext(key);
    NothingDone(key, p, decrypting);
    for i := 0 to length / 16
      invariant BlocksDone(key, p, result[..], i, decrypting)
    {
      ghost var before := result[..];
      BlockToDo(key, p, before, i, decrypting);
      EncryptUnfolded(key, BlockOf(p, i));
      CipherBlock(result, i * 16, w, decrypting);
      NextBlock(key, p, before, result[..], i, decrypting,
                if decrypting then Decrypt(key, BlockOf(p, i)) else Encrypt(key, BlockOf(p, i)));
    }
    AllDone(key, p, result[..], length / 16, decrypting);
  }

  lemma NothingDone(key: Key, p: Bytes, decrypting: bool)
    ensures BlocksDone(key, p, p, 0, decrypting)
  {
    assert p[..0] == [];
  }

  lemma AllDone(key: Key, p: Bytes, all: Bytes, n: nat, decrypting: bool)
    requires BlocksDone(key, p, all, n, decrypting) && 16 * n == |p|
    ensures all == Ecb(key, p, n, decrypting)
  {
    assert all == all[..16 * n];
  }

  lemma EncryptUnfolded(key: Key, b: Block)
    ensures Encrypt(key, b) == Cipher(b, KeySchedule(key))
    ensures Decrypt(key, b) == InvCipher(b, KeySchedule(key))
  {}

  method Aes128Cmac(key: Key, msg: Bytes) returns (cmac: Bytes)
    ensures cmac == Cmac.Cmac(key, msg)
  {
    var w := InitContext(key);
    var buf := new bv8[16](i => 0);
    Cmac.AesEcbCmac(w, key, msg, buf);
    cmac := buf[..];
  }

  lemma EncryptOneBlock(key: Key, b: Block)
    ensures Aes128Encrypt(key, b) == Encrypt(key, b)
  {
    hide Encrypt, Decrypt;
    PaddedAlready(b);
    assert BlockOf(b, 0) == b;
    assert Ecb(key, b, 1, false) == Ecb(key, b, 0, false) + Encrypt(key, BlockOf(b, 0));
  }

  // ---- The payload cipher of LoRaWAN 1.0.2 section 4.3.3.

  /** What a keystream depends on. */
  datatype Stream = Stream(key: Key, fcnt: uint32, devAddr: uint32, direction: byte)

  /** The block A_i; its last byte holds the low byte of the block counter. */
  function BytesA(st: Stream, i: nat): (b: bytes)
    ensures |b| == 16
  {
    [0x01, 0, 0, 0, 0, st.direction] + Le(st.devAddr, 4) + Le(st.fcnt, 4) + [0, i % 256]
  }

  function BlockA(st: Stream, i: nat): Block {
    ToBits(BytesA(st, i))
  }

  function StreamBlock(st: Stream, i: nat): Block {
    Encrypt(st.key, BlockA(st, i))
  }

  /** x with the first m bytes of s added at offset o. */
  function XorAt(x: Bytes, o: nat, s: Block, m: nat): (y: Bytes)
    requires m <= 16 && o + m <= |x|
    ensures |y| == |x|
  {
    seq(|x|, j requires 0 <= j < |x| => if o <= j < o + m then Add(x[j], s[j - o]) else x[j])
  }

  /** The offset of block n: a 16-bit number, so it starts again from zero. */
  function Offset(n: nat): (o: nat)
    ensures o % 16 == 0 && o <= 16 * n && o + 16 <= 65536
    ensures 16 * n < 65536 ==> o == 16 * n
  {
    16 * n % 65536
  }

  function FullBlocks(st: Stream, x: Bytes, n: nat): (y: Bytes)
    requires 16 * n <= |x|
    ensures |y| == |x|
  {
    if n == 0 then x else XorAt(FullBlocks(st, x, n - 1), Offset(n - 1), StreamBlock(st, n), 16)
  }

  /** The payload after all complete blocks and the rest. */
  function LoramacCrypt(st: Stream, x: Bytes): (y: Bytes)
    ensures |y| == |x|
  {
    var n := |x| / 16;
    XorAt(FullBlocks(st, x, n), Offset(n), StreamBlock(st, n + 1), |x| % 16)
  }

  /** What the complete blocks add to position j; it does not depend on the payload. */
  function FullMask(st: Stream, n: nat, j: nat): bv8 {
    if n == 0 then 0
    else if Offset(n - 1) <= j < Offset(n - 1) + 16 then
      Add(FullMask(st, n - 1, j), StreamBlock(st, n)[j - Offset(n - 1)])
    else FullMask(st, n - 1, j)
  }

  function Mask(st: Stream, length: nat, j: nat): bv8 {
    var n := length / 16;
    if Offset(n) <= j < Offset(n) + length % 16 then Add(FullMask(st, n, j), StreamBlock(st, n + 1)[j - Offset(n)])
    else FullMask(st, n, j)
  }

  lemma AddZero(x: bv8)
    ensures Add(x, 0) == x && Add(0, x) == x
  {}

  lemma AddSame(x: bv8, y: bv8)
    ensures Add(Add(x, y), y) == x
  {}

  lemma {:induction false} FullBlocksMask(st: Stream, x: Bytes, n: nat, j: nat)
    requires 16 * n <= |x| && j < |x|
    ensures FullBlocks(st, x, n)[j] == Add(x[j], FullMask(st, n, j))
  {
    hide Add, StreamBlock;
    if n == 0 {
      AddZero(x[j]);
    } else {
      FullBlocksMask(st, x, n - 1, j);
      if Offset(n - 1) <= j < Offset(n - 1) + 16 {
        AddAssoc(x[j], FullMask(st, n - 1, j), StreamBlock(st, n)[j - Offset(n - 1)]);
      }
    }
  }

  lemma XorAtByte(x: Bytes, o: nat, s: Block, m: nat, j: nat, x0: bv8, fm: bv8, mask: bv8)
    requires m <= 16 && o + m <= |x| && j < |x| && x[j] == Add(x0, fm)
    requires mask == if o <= j < o + m then Add(fm, s[j - o]) else fm
    ensures XorAt(x, o, s, m)[j] == Add(x0, mask)
  {
    hide Add;
    if o <= j < o + m {
      AddAssoc(x0, fm, s[j - o]);
    }
  }

  lemma CryptUnfolded(st: Stream, x: Bytes, n: nat, m: nat)
    requires |x| == 16 * n + m && m < 16
    ensures LoramacCrypt(st, x) == XorAt(FullBlocks(st, x, n), Offset(n), StreamBlock(st, n + 1), m)
  {
    hide StreamBlock, FullBlocks, XorAt, Offset;
    assert n == |x| / 16 && m == |x| % 16;
  }

  lemma MaskUnfolded(st: Stream, n: nat, m: nat, j: nat)
    requires m < 16
    ensures Mask(st, 16 * n + m, j) ==
            if Offset(n) <= j < Offset(n) + m then Add(FullMask(st, n, j), StreamBlock(st, n + 1)[j - Offset(n)])
            else FullMask(st, n, j)
  {
    hide StreamBlock, FullMask, Offset;
    assert n == (16 * n + m) / 16 && m == (16 * n + m) % 16;
  }

  lemma CryptMask(st: Stream, x: Bytes, j: nat)
    requires j < |x|
    ensures LoramacCrypt(st, x)[j] == Add(x[j], Mask(st, |x|, j))
  {
    hide Add, StreamBlock, FullMask, FullBlocks, XorAt, Offset, LoramacCrypt, Mask;
    var n, m := |x| / 16, |x| % 16;
    CryptUnfolded(st, x, n, m);
    MaskUnfolded(st, n, m, j);
    FullBlocksMask(st, x, n, j);
    XorAtByte(FullBlocks(st, x, n), Offset(n), StreamBlock(st, n + 1), m, j, x[j],
              FullMask(st, n, j), Mask(st, |x|, j));
  }

  /** The payload cipher is its own inverse, at every length and under every key, address and counter. */
  lemma CryptTwice(st: Stream, x: Bytes)
    ensures LoramacCrypt(st, LoramacCrypt(st, x)) == x
  {
    hide Add, LoramacCrypt, Mask;
    var y := LoramacCrypt(st, x);
    forall j | 0 <= j < |x| ensures LoramacCrypt(st, y)[j] == x[j] {
      CryptMask(st, x, j);
      CryptMask(st, y, j);
      AddSame(x[j], Mask(st, |x|, j));
    }
  }

  lemma AddCancel(x: bv8, y: bv8, z: bv8)
    ensures Add(x, y) == Add(x, z) <==> y == z
  {}

  predicate MasksAgree(st: Stream, st2: Stream, length: nat) {
    forall j | 0 <= j < length :: Mask(st, length, j) == Mask(st2, length, j)
  }

  lemma {:induction false} AgreeOnMasks(st: Stream, st2: Stream, x: Bytes)
    ensures LoramacCrypt(st, x) == LoramacCrypt(st2, x) <==> MasksAgree(st, st2, |x|)
  {
    hide Add, LoramacCrypt, Mask;
    forall j | 0 <= j < |x|
      ensures LoramacCrypt(st, x)[j] == LoramacCrypt(st2, x)[j] <==> Mask(st, |x|, j) == Mask(st2, |x|, j)
    {
      CryptMask(st, x, j);
      CryptMask(st2, x, j);
      AddCancel(x[j], Mask(st, |x|, j), Mask(st2, |x|, j));
    }
    assert LoramacCrypt(st, x) == LoramacCrypt(st2, x) <==>
           forall j | 0 <= j < |x| :: LoramacCrypt(st, x)[j] == LoramacCrypt(st2, x)[j];
  }

  /** Whether two streams encrypt a payload alike depends on its length only. */
  lemma StreamsAgree(st: Stream, st2: Stream, x: Bytes, y: Bytes)
    requires |x| == |y|
    ensures LoramacCrypt(st, x) == LoramacCrypt(st2, x) <==> LoramacCrypt(st, y) == LoramacCrypt(st2, y)
  {
    hide LoramacCrypt, MasksAgree;
    AgreeOnMasks(st, st2, x);
    AgreeOnMasks(st, st2, y);
  }

  /** Byte j of the keystream S = S_1 | S_2 | ... of section 4.3.3. The standard numbers up to 255 blocks; beyond them
      the number starts again from zero. */
  function StandardKeystream(st: Stream, j: nat): bv8 {
    Encrypt(st.key, ToBits([0x01, 0, 0, 0, 0, st.direction] + Le(st.devAddr, 4) + Le(st.fcnt, 4)
                        + [0, (j / 16 + 1) % 256]))[j % 16]
  }

  lemma {:induction false} FullMaskStandard(st: Stream, n: nat, j: nat)
    requires n <= 4096
    ensures FullMask(st, n, j) == if j < 16 * n then StandardKeystream(st, j) else 0
  {
    hide Add, Encrypt;
    if n > 0 {
      FullMaskStandard(st, n - 1, j);
      if 16 * (n - 1) <= j < 16 * n {
        assert j / 16 + 1 == n && j % 16 == j - 16 * (n - 1);
        assert FullMask(st, n - 1, j) == 0;
        AddZero(StreamBlock(st, n)[j - Offset(n - 1)]);
      }
    }
  }

  lemma MaskStandard(st: Stream, length: nat, j: nat)
    requires length < 65536 && j < length
    ensures Mask(st, length, j) == StandardKeystream(st, j)
  {
    hide Add, Encrypt, FullMask;
    var n := length / 16;
    FullMaskStandard(st, n, j);
    if 16 * n <= j {
      assert j / 16 == n && j % 16 == j - 16 * n;
      AddZero(StreamBlock(st, n + 1)[j - Offset(n)]);
    }
  }

  /** Up to the length where the 16-bit offset runs over, the result is payload xor keystream. */
  lemma CryptIsStandard(st: Stream, x: Bytes, j: nat)
    requires |x| < 65536 && j < |x|
    ensures LoramacCrypt(st, x)[j] == Add(x[j], StandardKeystream(st, j))
  {
    hide Add, StandardKeystream, Mask, LoramacCrypt;
    CryptMask(st, x, j);
    MaskStandard(st, |x|, j);
  }

  // ---- Different counters or addresses have different keystreams, because the cipher is injective.

  lemma EncryptInjective(key: Key, a: Block, b: Block)
    ensures Encrypt(key, a) == Encrypt(key, b) ==> a == b
  {
    hide Encrypt, Decrypt;
    EncryptDecryptInverse(key, a);
    EncryptDecryptInverse(key, b);
  }

  lemma BlocksDiffer(st: Stream, st2: Stream, i: nat)
    requires st.fcnt != st2.fcnt || st.devAddr != st2.devAddr
    ensures BlockA(st, i) != BlockA(st2, i)
  {
    hide Le, ToBits;
    var a, b := BytesA(st, i), BytesA(st2, i);
    BitsRoundTrip(a);
    BitsRoundTrip(b);
    assert a[6..10] == Le(st.devAddr, 4) && a[10..14] == Le(st.fcnt, 4);
    assert b[6..10] == Le(st2.devAddr, 4) && b[10..14] == Le(st2.fcnt, 4);
    FromLeOfLe(st.devAddr, 4);
    FromLeOfLe(st2.devAddr, 4);
    FromLeOfLe(st.fcnt, 4);
    FromLeOfLe(st2.fcnt, 4);
  }

  lemma FirstBlockByte(st: Stream, x: Bytes, j: nat)
    requires j < 16 <= |x| <= 16 * 255
    ensures LoramacCrypt(st, x)[j] == Add(x[j], StreamBlock(st, 1)[j])
  {
    hide Add, Encrypt, LoramacCrypt, Le;
    CryptIsStandard(st, x, j);
    assert j / 16 + 1 == 1 && j % 16 == j;
  }

  /** A payload of at least one block, and of no more blocks than one byte can count, is never encrypted alike under one
      key with two different counters or addresses. */
  lemma StreamsDiffer(st: Stream, st2: Stream, x: Bytes)
    requires st.key == st2.key && (st.fcnt != st2.fcnt || st.devAddr != st2.devAddr)
    requires 16 <= |x| <= 16 * 255
    ensures LoramacCrypt(st, x) != LoramacCrypt(st2, x)
  {
    hide Add, Encrypt, LoramacCrypt, BlockA;
    BlocksDiffer(st, st2, 1);
    EncryptInjective(st.key, BlockA(st, 1), BlockA(st2, 1));
    var a, b := StreamBlock(st, 1), StreamBlock(st2, 1);
    var j :| 0 <= j < 16 && a[j] != b[j];
    FirstBlockByte(st, x, j);
    FirstBlockByte(st2, x, j);
    AddCancel(x[j], a[j], b[j]);
  }

  /** A block like the A_i but for its last byte. */
  predicate LikeA(st: Stream, b: bytes) {
    |b| == 16 && b[..15] == BytesA(st, 0)[..15]
  }

  lemma LikeAWithCounter(st: Stream, b: bytes, i: nat, ctr: nat)
    requires LikeA(st, b) && ctr == i % 65536
    ensures b[15 := ctr % 256] == BytesA(st, i) && LikeA(st, BytesA(st, i))
  {
    hide Le;
    assert ctr % 256 == i % 256;
    var next, a := b[15 := ctr % 256], BytesA(st, i);
    assert a[..15] == BytesA(st, 0)[..15];
    assert next == next[..15] + [next[15]] && a == a[..15] + [a[15]];
  }

  /** One keystream block: the counter goes into the last byte of the block, which is encrypted. */
  method NextStreamBlock(st: Stream, aBlock: bytes, ctr: nat, ghost i: nat) returns (next: bytes, sBlock: Block)
    requires LikeA(st, aBlock) && ctr == i % 65536
    ensures LikeA(st, next) && sBlock == StreamBlock(st, i)
  {
    hide Encrypt, Aes128Encrypt, BytesA;
    LikeAWithCounter(st, aBlock, i, ctr);
    next := aBlock[15 := ctr % 256];
    EncryptOneBlock(st.key, ToBits(next));
    var result := EcbInPlace(st.key, ToBits(next), false);
    sBlock := result[..];
  }

  lemma NextCounters(n: nat)
    ensures ((n + 1) % 65536 + 1) % 65536 == (n + 2) % 65536
    ensures (Offset(n) + 16) % 65536 == Offset(n + 1)
  {
    AddModulo(n + 1, 1);
    AddModulo(16 * n, 16);
  }

  lemma AddModulo(a: nat, k: nat)
    requires k <= 16
    ensures (a % 65536 + k) % 65536 == (a + k) % 65536
  {
    var q, r := a / 65536, a % 65536;
    if r + k < 65536 {
      Quotient(q, r + k);
    } else {
      Quotient(q + 1, r + k - 65536);
    }
  }

  lemma Quotient(q: nat, r: nat)
    requires r < 65536
    ensures (65536 * q + r) % 65536 == r
  {}

  /** The complete blocks. */
  method CryptFullBlocks(encrypted: array<bv8>, st: Stream, ghost payload: Bytes, first: bytes)
    returns (aBlock: bytes, ctr: nat, bn: nat, size: nat)
    requires encrypted[..] == payload && LikeA(st, first)
    modifies encrypted
    ensures var n := |payload| / 16;
            && size == |payload| % 16 && ctr == (n + 1) % 65536 && bn == Offset(n) && LikeA(st, aBlock)
            && encrypted[..] == FullBlocks(st, payload, n)
  {
    hide StreamBlock, FullBlocks, XorAt, Offset, LikeA;
    ghost var n := 0;
    aBlock := first;
    ctr, bn, size := 1, 0, encrypted.Length;
    FullBlocksEmpty(st, payload);
    while size >= 16
      invariant size == |payload| - 16 * n
      invariant ctr == (n + 1) % 65536 && bn == Offset(n) && LikeA(st, aBlock)
      invariant encrypted[..] == FullBlocks(st, payload, n)
    {
      var sBlock;
      aBlock, sBlock := NextStreamBlock(st, aBlock, ctr, n + 1);
      NextCounters(n);
      ctr := (ctr + 1) % 65536;
      AddStream(encrypted, bn, sBlock, 16);
      size := size - 16;
      bn := (bn + 16) % 65536;
      FullBlocksNext(st, payload, n);
      n := n + 1;
    }
  }

  /** The code: a running 16-bit offset and counter, a loop over complete blocks, and the rest. */
  method LoramacDecrypt(key: Key, payload: Bytes, fcnt: uint32, devAddr: uint32, direction: byte)
    returns (encrypted: array<bv8>)
    ensures fresh(encrypted)
    ensures encrypted[..] == LoramacCrypt(Stream(key, fcnt, devAddr, direction), payload)
  {
    hide StreamBlock, FullBlocks, XorAt, Offset, LikeA, LoramacCrypt;
    var st := Stream(key, fcnt, devAddr, direction);
    var first := FirstBlockA(st);
    encrypted := new bv8[|payload|](i requires 0 <= i < |payload| => payload[i]);
    assert encrypted[..] == payload;
    var aBlock, ctr, bn, size := CryptFullBlocks(encrypted, st, payload, first);
    ghost var n := |payload| / 16;
    if size > 0 {
      var next, sBlock := NextStreamBlock(st, aBlock, ctr, n + 1);
      AddStream(encrypted, bn, sBlock, size);
    } else {
      XorAtNothing(encrypted[..], Offset(n), StreamBlock(st, n + 1));
    }
    CryptUnfolded(st, payload, n, size);
  }

  method FirstBlockA(st: Stream) returns (aBlock: bytes)
    ensures LikeA(st, aBlock)
  {
    hide Le;
    aBlock := [0x01] + [0, 0, 0, 0] + [st.direction] + Le(st.devAddr, 4) + Le(st.fcnt, 4) + [0, 0];
  }

  lemma XorAtNothing(x: Bytes, o: nat, s: Block)
    requires o <= |x|
    ensures XorAt(x, o, s, 0) == x
  {}

  lemma FullBlocksEmpty(st: Stream, x: Bytes)
    ensures FullBlocks(st, x, 0) == x
  {}

  lemma FullBlocksNext(st: Stream, x: Bytes, n: nat)
    requires 16 * (n + 1) <= |x|
    ensures FullBlocks(st, x, n + 1) == XorAt(FullBlocks(st, x, n), Offset(n), StreamBlock(st, n + 1), 16)
  {}

  method AddStream(encrypted: array<bv8>, bn: nat, sBlock: Block, m: nat)
    requires m <= 16 && bn + m <= encrypted.Length
    modifies encrypted
    ensures encrypted[..] == XorAt(old(encrypted[..]), bn, sBlock, m)
  {
    for i := 0 to m
      invariant forall j | 0 <= j < encrypted.Length ::
                  encrypted[j] == if bn <= j < bn + i then Add(old(encrypted[j]), sBlock[j - bn]) else old(encrypted[j])
    {
      encrypted[bn + i] := encrypted[bn + i] ^ sBlock[i];
    }
  }
}
