/** The ciphers as the rest of the server sees them: functions and calls on byte vectors. */
module LoraAes {
  import opened Codec
  import Aes
  import Cmac
  import LoraCipher
  import opened Wrappers

  type Key = k: bytes | |k| == 16 witness [0, 0, 0, 0, 0, 0, 0, 0, 0, 0, 0, 0, 0, 0, 0, 0]

  function Stream(key: Key, fcnt: uint32, devAddr: uint32, direction: byte): LoraCipher.Stream {
    LoraCipher.Stream(ToBits(key), fcnt, devAddr, direction)
  }

  /** The payload cipher. */
  function Crypt(key: Key, fcnt: uint32, devAddr: uint32, direction: byte, x: bytes): (y: bytes)
    ensures |y| == |x|
  {
    FromBits(LoraCipher.LoramacCrypt(Stream(key, fcnt, devAddr, direction), ToBits(x)))
  }

  /** The 16 bytes of the message digest. */
  function Digest(key: Key, msg: bytes): (d: bytes)
    ensures |d| == 16
  {
    FromBits(Cmac.Cmac(ToBits(key), ToBits(msg)))
  }

  /** The first four bytes of the digest, which are sent as the integrity code. */
  function Mic(key: Key, msg: bytes): (m: bytes)
    ensures |m| == 4
  {
    Digest(key, msg)[..4]
  }

  function EncryptVector(key: Key, x: bytes): bytes {
    FromBits(LoraCipher.Aes128Encrypt(ToBits(key), ToBits(x)))
  }

  function DecryptVector(key: Key, x: bytes): bytes {
    FromBits(LoraCipher.Aes128Decrypt(ToBits(key), ToBits(x)))
  }

  /** Applying the payload cipher twice gives the payload back, at every length. */
  lemma CryptTwice(key: Key, fcnt: uint32, devAddr: uint32, direction: byte, x: bytes)
    ensures Crypt(key, fcnt, devAddr, direction, Crypt(key, fcnt, devAddr, direction, x)) == x
  {
    hide LoraCipher.LoramacCrypt, ToBits, FromBits;
    var st := Stream(key, fcnt, devAddr, direction);
    BitsRoundTripBack(LoraCipher.LoramacCrypt(st, ToBits(x)));
    LoraCipher.CryptTwice(st, ToBits(x));
    BitsRoundTrip(x);
  }

  lemma FromBitsInjective(v: seq<bv8>, w: seq<bv8>)
    ensures FromBits(v) == FromBits(w) <==> v == w
  {
    hide ToBits, FromBits;
    BitsRoundTripBack(v);
    BitsRoundTripBack(w);
  }

  /** The bytes the payload cipher adds to a payload: what it makes of as many zeros. */
  function Keystream(key: Key, fcnt: uint32, devAddr: uint32, direction: byte, n: nat): bytes {
    Crypt(key, fcnt, devAddr, direction, Repeated(0, n))
  }

  /** Two streams encrypt a payload alike if and only if they have the same keystream over its length. */
  lemma SameKeystream(key: Key, fcnt: uint32, devAddr: uint32, key2: Key, fcnt2: uint32, devAddr2: uint32,
                      direction: byte, x: bytes)
    ensures Crypt(key, fcnt, devAddr, direction, x) == Crypt(key2, fcnt2, devAddr2, direction, x) <==>
            Keystream(key, fcnt, devAddr, direction, |x|) == Keystream(key2, fcnt2, devAddr2, direction, |x|)
  {
    hide LoraCipher.LoramacCrypt, FromBits;
    var st, st2 := Stream(key, fcnt, devAddr, direction), Stream(key2, fcnt2, devAddr2, direction);
    var u, v := ToBits(x), ToBits(Repeated(0, |x|));
    LoraCipher.StreamsAgree(st, st2, u, v);
    FromBitsInjective(LoraCipher.LoramacCrypt(st, u), LoraCipher.LoramacCrypt(st2, u));
    FromBitsInjective(LoraCipher.LoramacCrypt(st, v), LoraCipher.LoramacCrypt(st2, v));
  }

  lemma ToBitsInjective(a: bytes, b: bytes)
    ensures ToBits(a) == ToBits(b) <==> a == b
  {
    hide ToBits, FromBits;
    BitsRoundTrip(a);
    BitsRoundTrip(b);
  }

  /** From one block on, and up to 255 blocks, keystreams under one key differ with counter or address. */
  lemma KeystreamsDiffer(key: Key, fcnt: uint32, devAddr: uint32, fcnt2: uint32, devAddr2: uint32,
                        direction: byte, n: nat)
    requires fcnt != fcnt2 || devAddr != devAddr2
    requires 16 <= n <= 16 * 255
    ensures Keystream(key, fcnt, devAddr, direction, n) != Keystream(key, fcnt2, devAddr2, direction, n)
  {
    hide LoraCipher.LoramacCrypt, FromBits;
    var st, st2 := Stream(key, fcnt, devAddr, direction), Stream(key, fcnt2, devAddr2, direction);
    var zeros := ToBits(Repeated(0, n));
    LoraCipher.StreamsDiffer(st, st2, zeros);
    FromBitsInjective(LoraCipher.LoramacCrypt(st, zeros), LoraCipher.LoramacCrypt(st2, zeros));
  }

  /** A body of whole blocks produced by the inverse cipher is recovered by the cipher. */
  lemma EncryptUndoesDecrypt(key: Key, x: bytes)
    requires |x| % 16 == 0
    ensures EncryptVector(key, DecryptVector(key, x)) == x
  {
    hide LoraCipher.Aes128Encrypt, LoraCipher.Aes128Decrypt, ToBits, FromBits;
    BitsRoundTripBack(LoraCipher.Aes128Decrypt(ToBits(key), ToBits(x)));
    LoraCipher.EncryptUndoesDecrypt(ToBits(key), ToBits(x));
    LoraCipher.PaddedAlready(ToBits(x));
    BitsRoundTrip(x);
  }

  /** Different bodies of whole blocks encrypt to different ones. */
  lemma EncryptVectorInjective(key: Key, x: bytes, y: bytes)
    requires |x| % 16 == 0 && |y| % 16 == 0
    ensures EncryptVector(key, x) == EncryptVector(key, y) ==> x == y
  {
    hide LoraCipher.Aes128Encrypt, LoraCipher.Aes128Decrypt, ToBits, FromBits;
    var k, u, v := ToBits(key), ToBits(x), ToBits(y);
    FromBitsInjective(LoraCipher.Aes128Encrypt(k, u), LoraCipher.Aes128Encrypt(k, v));
    LoraCipher.EncryptUndoesDecrypt(k, u);
    LoraCipher.EncryptUndoesDecrypt(k, v);
    LoraCipher.PaddedAlready(u);
    LoraCipher.PaddedAlready(v);
    ToBitsInjective(x, y);
  }

  lemma VectorLength(key: Key, x: bytes)
    requires |x| % 16 == 0
    ensures |EncryptVector(key, x)| == |x| == |DecryptVector(key, x)|
  {
    LoraCipher.PaddedAlready(ToBits(x));
  }

  // ---- The calls.

  method LoramacDecrypt(key: Key, payload: bytes, fcnt: uint32, devAddr: uint32, direction: byte) returns (y: bytes)
    ensures y == Crypt(key, fcnt, devAddr, direction, payload)
  {
    hide LoraCipher.LoramacCrypt;
    var r := LoraCipher.LoramacDecrypt(ToBits(key), ToBits(payload), fcnt, devAddr, direction);
    y := FromBits(r[..]);
  }

  method Aes128Cmac(key: Key, msg: bytes) returns (d: bytes)
    ensures d == Digest(key, msg)
  {
    hide Cmac.Cmac;
    var r := LoraCipher.Aes128Cmac(ToBits(key), ToBits(msg));
    d := FromBits(r);
  }

  method Aes128Encrypt(key: Key, x: bytes) returns (y: bytes)
    ensures y == EncryptVector(key, x)
  {
    hide LoraCipher.Aes128Encrypt;
    var r := LoraCipher.EcbInPlace(ToBits(key), ToBits(x), false);
    y := FromBits(r[..]);
  }

  method Aes128Decrypt(key: Key, x: bytes) returns (y: bytes)
    ensures y == DecryptVector(key, x)
  {
    hide LoraCipher.Aes128Decrypt;
    var r := LoraCipher.EcbInPlace(ToBits(key), ToBits(x), true);
    y := FromBits(r[..]);
  }
}
