/** Data frames byte by byte: what is sent and what is read, with every constant, place and key spelled out. */
module FrameBytes {
  import opened Codec
  import opened LoraAes
  import opened DataFrame
  import opened Wrappers

  /** The type code in the high three bits of the first byte. */
  predicate OfType(k: Kind, p: bytes)
    requires |p| > 0
  {
    match k
    case UnconfirmedUp => p[0] / 32 == 2
    case UnconfirmedDown => p[0] / 32 == 3
    case ConfirmedUp => p[0] / 32 == 4
    case ConfirmedDown => p[0] / 32 == 5
  }

  /** Zero for uplinks, one for downlinks. */
  function LinkByte(k: Kind): byte {
    match k
    case UnconfirmedUp => 0
    case ConfirmedUp => 0
    case UnconfirmedDown => 1
    case ConfirmedDown => 1
  }

  lemma LinkOf(k: Kind)
    ensures Direction(k) == LinkByte(k)
  {}

  lemma TypeOf(k: Kind, p: bytes)
    requires |p| > 0
    ensures OfType(k, p) <==> p[0] / 32 == TypeCode(k)
  {}

  function Little(a: int, b: int, c: int, d: int): int {
    a + 256 * b + 65536 * c + 16777216 * d
  }

  function AddressIn(p: bytes): uint32
    requires |p| >= 8
  {
    Little(p[1], p[2], p[3], p[4])
  }

  function CounterIn(p: bytes): uint16
    requires |p| >= 8
  {
    Little(p[6], p[7], 0, 0)
  }

  lemma NumbersIn(p: bytes)
    requires |p| >= 8
    ensures FromLe(p[1..5]) == AddressIn(p) && FromLe(p[6..8]) % 0x1_0000 == CounterIn(p)
  {}

  /** Network data, on port zero, has the network key, all other data the key of the application. */
  function KeyOfPort(keys: SessionKeys, port: byte): Key {
    if port == 0 then keys.nwkSEncKey else keys.appSKey
  }

  /** What a session reads in the bytes of a frame. Without data the port is zero. */
  lemma ReceivedBytes(k: Kind, p: bytes, keys: SessionKeys)
    requires |p| >= 8 && |p| >= 8 + p[5] % 16
    ensures var r, n, addr, cnt := Received(k, p, keys), p[5] % 16, AddressIn(p), CounterIn(p);
            && r.kind == k && r.devAddr == addr && r.cnt == cnt && r.ctrl == p[5]
            && r.opts == Crypt(keys.nwkSEncKey, cnt, addr, LinkByte(k), p[8..8 + n])
            && (|p| <= n + 12 ==> r.port == 0 && r.data == [])
            && (|p| > n + 12 ==>
                  && r.port == p[8 + n]
                  && r.data == Crypt(KeyOfPort(keys, p[8 + n]), cnt, addr, LinkByte(k), p[9 + n..|p| - 4]))
  {
    hide Crypt, FromLe, Received, AddressIn, CounterIn;
    ReceivedHeader(k, p, keys);
    NumbersIn(p);
    LinkOf(k);
  }

  /** Block B0 of LoRaWAN 1.0.2 section 4.4 for a received frame. */
  function CodeBlock(k: Kind, p: bytes): bytes
    requires |p| >= 8
  {
    [0x49, 0, 0, 0, 0, LinkByte(k)] + p[1..5] + p[6..8] + [0, 0, 0, (|p| - 4) % 256]
  }

  lemma BlockBytes(k: Kind, p: bytes)
    requires |p| >= 8
    ensures BlockB0(k, FromLe(p[1..5]), FromLe(p[6..8]) % 0x1_0000, |p| - 4) == CodeBlock(k, p)
  {
    LinkOf(k);
    LeOfFromLe(p[1..5]);
    LittleCounter(p[6], p[7]);
  }

  lemma LittleCounter(a: byte, b: byte)
    ensures Le(a + 256 * b, 4) == [a, b, 0, 0]
  {
    LowDigit(a, b);
  }

  /** A frame is accepted when its last four bytes are the integrity code of block B0 and all bytes before them. This
      is so for frames of the type the session expects, with the low bits of the first byte zero, and long enough for
      the options and, when there is a port, at least one byte of data. */
  lemma VerifiesBytes(k: Kind, p: bytes, keys: SessionKeys)
    requires |p| > 0 && OfType(k, p) && p[0] % 32 == 0
    requires |p| >= 12 && |p| >= 12 + p[5] % 16 && |p| != 13 + p[5] % 16
    ensures Verifies(Received(k, p, keys), keys) <==>
            p[|p| - 4..] == Mic(keys.sNwkSIntKey, CodeBlock(k, p) + p[..|p| - 4])
  {
    hide Received, FromLe, Mic, BlockB0, CodeBlock, Verifies;
    TypeOf(k, p);
    BlockBytes(k, p);
    VerifyOverReceivedBytes(k, p, keys);
  }

  /** The bytes of a frame with its integrity code, from its fields. */
  function FrameText(k: Kind, addr: uint32, ctrl: byte, cnt: uint16, port: byte, opts: bytes, data: bytes,
                     keys: SessionKeys): bytes {
    [match k case UnconfirmedUp => 0x40 case UnconfirmedDown => 0x60 case ConfirmedUp => 0x80
             case ConfirmedDown => 0xA0,
     addr % 256, addr / 256 % 256, addr / 65536 % 256, addr / 16777216,
     ctrl / 16 * 16 + |opts| % 16, cnt % 256, cnt / 256]
    + Crypt(keys.nwkSEncKey, cnt, addr, LinkByte(k), opts)
    + if data == [] then []
      else [port] + Crypt(KeyOfPort(keys, port), cnt, addr, LinkByte(k), data)
  }

  function SentBlock(k: Kind, addr: uint32, cnt: uint16, length: nat): bytes {
    [0x49, 0, 0, 0, 0, LinkByte(k), addr % 256, addr / 256 % 256, addr / 65536 % 256, addr / 16777216,
     cnt % 256, cnt / 256, 0, 0, 0, length % 256]
  }

  lemma SentBlockBytes(k: Kind, addr: uint32, cnt: uint16, length: nat)
    ensures BlockB0(k, addr, cnt, length) == SentBlock(k, addr, cnt, length)
  {
    LinkOf(k);
  }

  lemma HeaderText(k: Kind, addr: uint32, c: byte, cnt: uint16)
    ensures Header(k, addr, c, cnt) ==
            [match k case UnconfirmedUp => 0x40 case UnconfirmedDown => 0x60 case ConfirmedUp => 0x80
                     case ConfirmedDown => 0xA0,
             addr % 256, addr / 256 % 256, addr / 65536 % 256, addr / 16777216, c, cnt % 256, cnt / 256]
  {}

  lemma MsgText(f: Frame, keys: SessionKeys)
    requires f.optsEncrypted == [] && f.dataEncrypted == []
    ensures Msg(Encrypted(f, keys)) == FrameText(f.kind, f.devAddr, f.ctrl, f.cnt, f.port, f.opts, f.data, keys)
  {
    hide Crypt, Header;
    var e := Encrypted(f, keys);
    LinkOf(f.kind);
    HeaderText(f.kind, f.devAddr, WireCtrl(f.ctrl, |e.optsEncrypted|), f.cnt);
    assert e.dataEncrypted == Crypt(KeyOfPort(keys, f.port), f.cnt, f.devAddr, LinkByte(f.kind), f.data);
  }

  /** The bytes that are composed for a message whose caches are empty. */
  lemma ComposedBytes(f: Frame, keys: SessionKeys)
    requires f.optsEncrypted == [] && f.dataEncrypted == []
    ensures var msg := FrameText(f.kind, f.devAddr, f.ctrl, f.cnt, f.port, f.opts, f.data, keys);
            Composed(f, keys).payload ==
            msg + Mic(keys.sNwkSIntKey, SentBlock(f.kind, f.devAddr, f.cnt, |msg|) + msg)
  {
    hide Crypt, Mic, Msg, FrameText, BlockB0, SentBlock;
    MsgText(f, keys);
    var msg := FrameText(f.kind, f.devAddr, f.ctrl, f.cnt, f.port, f.opts, f.data, keys);
    SentBlockBytes(f.kind, f.devAddr, f.cnt, |msg|);
  }
}
