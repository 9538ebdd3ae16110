/** Data frames: the fields of a data message, the bytes they are sent as, and verification of the
    message integrity code of a received frame. */
module DataFrame {
  import opened Codec
  import opened LoraAes
  import opened Wrappers

  /** The four data message classes; they differ in their type code and direction only. */
  datatype Kind = UnconfirmedUp | ConfirmedUp | UnconfirmedDown | ConfirmedDown

  function TypeCode(k: Kind): (c: nat)
    ensures c < 8
  {
    match k
    case UnconfirmedUp => 2
    case UnconfirmedDown => 3
    case ConfirmedUp => 4
    case ConfirmedDown => 5
  }

  function Direction(k: Kind): byte {
    if k == UnconfirmedUp || k == ConfirmedUp then 0 else 1
  }

  datatype SessionKeys = SessionKeys(nwkSEncKey: Key, sNwkSIntKey: Key, appSKey: Key)

  /** The fields of a message object. The encrypted fields and the payload are caches: empty means not computed. */
  datatype Frame = Frame(
    kind: Kind, session: Option<SessionKeys>, payload: bytes,
    devAddr: uint32, ctrl: byte, cnt: uint16, port: byte, opts: bytes, data: bytes,
    optsEncrypted: bytes, dataEncrypted: bytes)

  function Fresh(k: Kind): Frame {
    Frame(k, None, [], 0, 0, 0, 0, [], [], [], [])
  }

  // ---- Encryption and layout.

  function OptsCrypt(f: Frame, keys: SessionKeys, x: bytes): (y: bytes)
    ensures |y| == |x|
  {
    Crypt(keys.nwkSEncKey, f.cnt, f.devAddr, Direction(f.kind), x)
  }

  /** Data on port 0 is network data and uses the network key. */
  function DataCrypt(f: Frame, keys: SessionKeys, x: bytes): (y: bytes)
    ensures |y| == |x|
  {
    Crypt(if f.port == 0 then keys.nwkSEncKey else keys.appSKey, f.cnt, f.devAddr, Direction(f.kind), x)
  }

  /** Fills the encrypted fields that are empty. */
  function Encrypted(f: Frame, keys: SessionKeys): Frame {
    f.(optsEncrypted := if f.optsEncrypted == [] then OptsCrypt(f, keys, f.opts) else f.optsEncrypted,
       dataEncrypted := if f.dataEncrypted == [] then DataCrypt(f, keys, f.data) else f.dataEncrypted)
  }

  /** The control byte on the wire: the flags (high four bits) and the low four bits of the option length. */
  function WireCtrl(ctrl: byte, optLen: nat): byte {
    ctrl / 16 * 16 + optLen % 16
  }

  function Flags(ctrl: byte): byte {
    ctrl / 16 * 16
  }

  function OptLen(wireCtrl: byte): (n: nat)
    ensures n < 16
  {
    wireCtrl % 16
  }

  function Header(k: Kind, devAddr: uint32, wireCtrl: byte, cnt: uint16): (h: bytes)
    ensures |h| == 8
  {
    [TypeCode(k) * 32] + Le(devAddr, 4) + [wireCtrl] + Le(cnt, 2)
  }

  /** The part of a message after the options: the port is sent only when there is data. */
  function PortAndData(f: Frame): bytes {
    if f.dataEncrypted == [] then [] else [f.port] + f.dataEncrypted
  }

  /** The frame without its integrity code. */
  function Msg(f: Frame): bytes {
    Header(f.kind, f.devAddr, WireCtrl(f.ctrl, |f.optsEncrypted|), f.cnt) + f.optsEncrypted + PortAndData(f)
  }

  /** Block B0 of LoRaWAN 1.0.2 section 4.4. */
  function BlockB0(k: Kind, devAddr: uint32, cnt: uint16, length: nat): (b: bytes)
    ensures |b| == 16
  {
    [0x49] + Le(0, 2) + [0] + [0] + [Direction(k)] + Le(devAddr, 4) + Le(cnt, 4) + [0] + [length % 0x100]
  }

  /** The first four bytes of the digest of B0 followed by the message. */
  function FrameMic(f: Frame, keys: SessionKeys, msg: bytes): (m: bytes)
    ensures |m| == 4
  {
    Mic(keys.sNwkSIntKey, BlockB0(f.kind, f.devAddr, f.cnt, |msg|) + msg)
  }

  /** Composing fills the caches and the payload. */
  function Composed(f: Frame, keys: SessionKeys): Frame {
    var e := Encrypted(f, keys);
    e.(payload := Msg(e) + FrameMic(e, keys, Msg(e)))
  }

  // ---- Parsing.

  /** The bytes the parser reads without looking at the length of the payload first. */
  predicate Readable(p: bytes) {
    |p| >= 8 && |p| >= 8 + OptLen(p[5])
  }

  /** The header and options; options are decrypted only when there is a session. */
  function ParsedHeader(f: Frame): Frame
    requires Readable(f.payload)
  {
    var p := f.payload;
    var g := f.(devAddr := FromLe(p[1..5]), ctrl := p[5], cnt := FromLe(p[6..8]) % 0x1_0000,
                optsEncrypted := p[8..8 + OptLen(p[5])]);
    if g.session.Some? then g.(opts := OptsCrypt(g, g.session.value, g.optsEncrypted)) else g
  }

  function Parsed(f: Frame): Frame
    requires Readable(f.payload)
  {
    var p, n := f.payload, OptLen(f.payload[5]);
    var g := ParsedHeader(f);
    if |p| <= n + 8 + 4 then g
    else
      var h := g.(port := p[8 + n], dataEncrypted := p[9 + n..|p| - 4]);
      if h.session.Some? then h.(data := DataCrypt(h, h.session.value, h.dataEncrypted)) else h
  }

  // ---- The integrity code.

  function MicOf(p: bytes): uint32 {
    if |p| < 4 then 0 else FromLe(p[|p| - 4..])
  }

  /** Verification recomposes the frame from its fields and compares the two codes. */
  predicate Verifies(f: Frame, keys: SessionKeys) {
    f.payload != [] ==> MicOf(Composed(f.(payload := []), keys).payload) == MicOf(f.payload)
  }

  /** The state of a message that has received a payload and then been given a session. */
  function Received(k: Kind, p: bytes, keys: SessionKeys): Frame
    requires Readable(p)
  {
    Parsed(Parsed(Fresh(k).(payload := p)).(session := Some(keys)))
  }

  // ---- Bytes of the header.

  lemma WireCtrlSplit(ctrl: byte, n: nat)
    requires n < 16
    ensures OptLen(WireCtrl(ctrl, n)) == n
    ensures Flags(WireCtrl(ctrl, n)) == Flags(ctrl)
  {}

  lemma WireCtrlBack(c: byte)
    ensures WireCtrl(c, OptLen(c)) == c
  {}

  lemma CounterBack(cnt: uint16)
    ensures FromLe(Le(cnt, 2)) % 0x1_0000 == cnt
  {
    FromLeOfLe(cnt, 2);
  }

  lemma CounterForth(b: bytes)
    requires |b| == 2
    ensures Le(FromLe(b) % 0x1_0000, 2) == b
  {
    LeOfFromLe(b);
    assert FromLe(b) < 0x1_0000;
  }

  lemma Layout<T>(h: seq<T>, opts: seq<T>, rest: seq<T>, tail: seq<T>)
    requires |h| == 8
    ensures var p, n := h + opts + rest + tail, |opts|;
            && |p| == 8 + n + |rest| + |tail|
            && p[0] == h[0] && p[5] == h[5] && p[1..5] == h[1..5] && p[6..8] == h[6..8]
            && p[8..8 + n] == opts && p[8 + n..|p| - |tail|] == rest && p[|p| - |tail|..] == tail
            && (rest != [] ==> p[8 + n] == rest[0] && p[9 + n..|p| - |tail|] == rest[1..])
  {}

  lemma HeaderBytes(k: Kind, devAddr: uint32, c: byte, cnt: uint16)
    ensures var h := Header(k, devAddr, c, cnt);
            && h[0] == TypeCode(k) * 32 && h[1..5] == Le(devAddr, 4) && h[5] == c && h[6..8] == Le(cnt, 2)
  {
    hide Le;
  }

  /** A string that starts with the message of a frame shows every field at its place. */
  lemma MsgBytes(f: Frame, tail: bytes)
    requires |f.optsEncrypted| < 16
    ensures var p, n := Msg(f) + tail, |f.optsEncrypted|;
            && |p| == 8 + n + |PortAndData(f)| + |tail|
            && p[5] == WireCtrl(f.ctrl, n) && OptLen(p[5]) == n
            && p[0] == TypeCode(f.kind) * 32
            && p[1..5] == Le(f.devAddr, 4)
            && p[6..8] == Le(f.cnt, 2)
            && p[8..8 + n] == f.optsEncrypted
            && p[|p| - |tail|..] == tail
            && (f.dataEncrypted != [] ==> p[8 + n] == f.port && p[9 + n..|p| - |tail|] == f.dataEncrypted)
  {
    hide Header, Le;
    var h := Header(f.kind, f.devAddr, WireCtrl(f.ctrl, |f.optsEncrypted|), f.cnt);
    Layout(h, f.optsEncrypted, PortAndData(f), tail);
    HeaderBytes(f.kind, f.devAddr, WireCtrl(f.ctrl, |f.optsEncrypted|), f.cnt);
    WireCtrlSplit(f.ctrl, |f.optsEncrypted|);
  }

  // ---- Round trip.

  /** What a message carries from sender to receiver. */
  datatype Content = Content(devAddr: uint32, flags: byte, cnt: uint16, opts: bytes, port: byte, data: bytes)

  function ContentOf(f: Frame): Content {
    Content(f.devAddr, Flags(f.ctrl), f.cnt, f.opts, f.port, f.data)
  }

  /** Encrypted options are as long as the options unless they are short; every message object is like this. */
  predicate OptsFit(f: Frame) {
    |f.optsEncrypted| < 16 || |f.optsEncrypted| == |f.opts|
  }

  /** The caches of a message hold what encryption under its present fields gives. Setting the counter, the address
      or the port does not clear them, so a message that was composed before may not be current. */
  predicate Current(f: Frame, keys: SessionKeys) {
    && (f.optsEncrypted == [] || f.optsEncrypted == OptsCrypt(f, keys, f.opts))
    && (f.dataEncrypted == [] || f.dataEncrypted == DataCrypt(f, keys, f.data))
  }

  lemma ParsedHeaderOfMsg(f: Frame, e: Frame, mic: bytes)
    requires |mic| == 4 && |e.optsEncrypted| < 16
    requires f.kind == e.kind && f.payload == Msg(e) + mic
    ensures Readable(f.payload)
    ensures var g := ParsedHeader(f);
            && g.devAddr == e.devAddr && g.cnt == e.cnt && g.ctrl == WireCtrl(e.ctrl, |e.optsEncrypted|)
            && g.optsEncrypted == e.optsEncrypted
            && g == f.(devAddr := g.devAddr, cnt := g.cnt, ctrl := g.ctrl,
                       optsEncrypted := g.optsEncrypted, opts := g.opts)
            && g.opts == if f.session.Some? then OptsCrypt(e, f.session.value, e.optsEncrypted) else f.opts
  {
    hide Msg, Crypt, Le, FromLe;
    MsgBytes(e, mic);
    FromLeOfLe(e.devAddr, 4);
    CounterBack(e.cnt);
  }

  lemma ParsedOfMsg(f: Frame, e: Frame, mic: bytes)
    requires |mic| == 4 && |e.optsEncrypted| < 16
    requires f.kind == e.kind && f.payload == Msg(e) + mic
    ensures Readable(f.payload)
    ensures var g := Parsed(f);
            && g == f.(devAddr := e.devAddr, cnt := e.cnt, ctrl := WireCtrl(e.ctrl, |e.optsEncrypted|),
                       optsEncrypted := e.optsEncrypted, opts := g.opts,
                       port := g.port, dataEncrypted := g.dataEncrypted, data := g.data)
            && g.opts == (if f.session.Some? then OptsCrypt(e, f.session.value, e.optsEncrypted) else f.opts)
            && (if e.dataEncrypted == [] then
                  g.port == f.port && g.dataEncrypted == f.dataEncrypted && g.data == f.data
                else
                  && g.port == e.port && g.dataEncrypted == e.dataEncrypted
                  && g.data == if f.session.Some? then DataCrypt(e, f.session.value, e.dataEncrypted) else f.data)
  {
    hide Msg, Crypt, Le, FromLe, ParsedHeader;
    ParsedHeaderOfMsg(f, e, mic);
    MsgBytes(e, mic);
  }

  lemma CryptsTwice(f: Frame, keys: SessionKeys, x: bytes)
    ensures OptsCrypt(f, keys, OptsCrypt(f, keys, x)) == x
    ensures DataCrypt(f, keys, DataCrypt(f, keys, x)) == x
  {
    hide Crypt;
    CryptTwice(keys.nwkSEncKey, f.cnt, f.devAddr, Direction(f.kind), x);
    CryptTwice(if f.port == 0 then keys.nwkSEncKey else keys.appSKey, f.cnt, f.devAddr, Direction(f.kind), x);
  }

  /** What the receiver of a composed message holds: the caches, and what they decrypt to. */
  lemma ReceivedFields(f: Frame, keys: SessionKeys)
    requires |Encrypted(f, keys).optsEncrypted| < 16
    ensures var e, p := Encrypted(f, keys), Composed(f, keys).payload;
            && Readable(p)
            && var r := Received(f.kind, p, keys);
            && r.kind == f.kind && r.payload == p && r.session == Some(keys)
            && r.devAddr == f.devAddr && r.cnt == f.cnt && r.ctrl == WireCtrl(f.ctrl, |e.optsEncrypted|)
            && r.optsEncrypted == e.optsEncrypted && r.dataEncrypted == e.dataEncrypted
            && r.opts == OptsCrypt(f, keys, e.optsEncrypted)
            && (if e.dataEncrypted == [] then r.port == 0 && r.data == []
                else r.port == f.port && r.data == DataCrypt(f, keys, e.dataEncrypted))
  {
    hide Msg, Crypt, Parsed, FrameMic, OptsCrypt, DataCrypt;
    var e := Encrypted(f, keys);
    var mic := FrameMic(e, keys, Msg(e));
    var p := Msg(e) + mic;
    var first := Fresh(f.kind).(payload := p);
    ParsedOfMsg(first, e, mic);
    var second := Parsed(first).(session := Some(keys));
    ParsedOfMsg(second, e, mic);
    EncryptedKeepsLink(f, keys, e.optsEncrypted);
    EncryptedKeepsLink(f, keys, e.dataEncrypted);
  }

  lemma EncryptedKeepsLink(f: Frame, keys: SessionKeys, x: bytes)
    ensures OptsCrypt(Encrypted(f, keys), keys, x) == OptsCrypt(f, keys, x)
    ensures DataCrypt(Encrypted(f, keys), keys, x) == DataCrypt(f, keys, x)
  {
    hide Crypt;
  }

  /** The receiver can read the composed message and finds the content that was put in. */
  ghost predicate Arrives(f: Frame, keys: SessionKeys) {
    var p := Composed(f, keys).payload;
    Readable(p) && ContentOf(Received(f.kind, p, keys)) == ContentOf(f)
  }

  lemma CryptInjective(f: Frame, keys: SessionKeys, x: bytes, y: bytes)
    ensures OptsCrypt(f, keys, x) == y <==> x == OptsCrypt(f, keys, y)
    ensures DataCrypt(f, keys, x) == y <==> x == DataCrypt(f, keys, y)
  {
    hide OptsCrypt, DataCrypt;
    CryptsTwice(f, keys, x);
    CryptsTwice(f, keys, y);
  }

  /** A message sent and received under the same session keys arrives with its content unchanged exactly when
      its option length fits into four bits, it does not name a port without carrying data, and its caches are
      current; and then it passes verification. */
  lemma RoundTrip(f: Frame, keys: SessionKeys)
    requires OptsFit(f)
    ensures Arrives(f, keys) <==> |f.opts| < 16 && (f.data == [] ==> f.port == 0) && Current(f, keys)
    ensures Arrives(f, keys) ==> Verifies(Received(f.kind, Composed(f, keys).payload, keys), keys)
  {
    hide Crypt, Parsed, Received, Composed, Verifies, OptsCrypt, DataCrypt;
    var e := Encrypted(f, keys);
    if |e.optsEncrypted| < 16 {
      ReceivedFields(f, keys);
      WireCtrlSplit(f.ctrl, |e.optsEncrypted|);
      RoundTripVerifies(f, keys);
      CryptInjective(f, keys, e.optsEncrypted, f.opts);
      CryptInjective(f, keys, e.dataEncrypted, f.data);
    } else {
      var p := Composed(f, keys).payload;
      if Readable(p) {
        ShortOptions(f.kind, p, keys);
      }
    }
  }

  /** A message that was composed, then given another counter, address, port or control byte, and is composed again:
      it keeps the encrypted options and data of the first time. */
  function Changed(f: Frame, keys: SessionKeys, devAddr: uint32, ctrl: byte, cnt: uint16, port: byte): Frame {
    Composed(f, keys).(devAddr := devAddr, ctrl := ctrl, cnt := cnt, port := port, payload := [])
  }

  function OptsStream(f: Frame, keys: SessionKeys): bytes {
    Keystream(keys.nwkSEncKey, f.cnt, f.devAddr, Direction(f.kind), |f.opts|)
  }

  function DataStream(f: Frame, keys: SessionKeys): bytes {
    Keystream(if f.port == 0 then keys.nwkSEncKey else keys.appSKey, f.cnt, f.devAddr, Direction(f.kind), |f.data|)
  }

  lemma ChangedCaches(f: Frame, keys: SessionKeys, devAddr: uint32, ctrl: byte, cnt: uint16, port: byte)
    requires Current(f, keys)
    ensures var g := Changed(f, keys, devAddr, ctrl, cnt, port);
            && g.opts == f.opts && g.data == f.data && OptsFit(g)
            && (Current(g, keys) <==>
                OptsStream(f, keys) == OptsStream(g, keys) && DataStream(f, keys) == DataStream(g, keys))
  {
    hide Crypt, Keystream, Msg, FrameMic;
    var g := Changed(f, keys, devAddr, ctrl, cnt, port);
    assert g.optsEncrypted == OptsCrypt(f, keys, f.opts) && g.dataEncrypted == DataCrypt(f, keys, f.data);
    SameKeystream(keys.nwkSEncKey, f.cnt, f.devAddr, keys.nwkSEncKey, cnt, devAddr, Direction(f.kind), f.opts);
    SameKeystream(if f.port == 0 then keys.nwkSEncKey else keys.appSKey, f.cnt, f.devAddr,
                  if port == 0 then keys.nwkSEncKey else keys.appSKey, cnt, devAddr, Direction(f.kind), f.data);
    CryptNothing(g, keys);
  }

  /** Such a message arrives if and only if it could arrive the first time and the keystreams of its old and its new
      fields agree over the lengths of options and data. */
  lemma ChangedArrives(f: Frame, keys: SessionKeys, devAddr: uint32, ctrl: byte, cnt: uint16, port: byte)
    requires Current(f, keys)
    ensures var g := Changed(f, keys, devAddr, ctrl, cnt, port);
            Arrives(g, keys) <==>
            && |f.opts| < 16 && (f.data == [] ==> port == 0)
            && OptsStream(f, keys) == OptsStream(g, keys) && DataStream(f, keys) == DataStream(g, keys)
  {
    hide Arrives, Changed, OptsStream, DataStream, Current, OptsFit;
    var g := Changed(f, keys, devAddr, ctrl, cnt, port);
    ChangedCaches(f, keys, devAddr, ctrl, cnt, port);
    RoundTrip(g, keys);
    ChangedFields(f, keys, devAddr, ctrl, cnt, port);
  }

  /** With data of one to 255 blocks and the same key for it, such a message arrives if and only if neither counter nor
      address has changed and its options are shorter than 16. So a counter that is set after a message was composed
      makes it arrive as something else. */
  lemma ChangedArrivesExactly(f: Frame, keys: SessionKeys, devAddr: uint32, ctrl: byte, cnt: uint16, port: byte)
    requires Current(f, keys) && 16 <= |f.data| <= 16 * 255 && (port == 0 <==> f.port == 0)
    ensures Arrives(Changed(f, keys, devAddr, ctrl, cnt, port), keys) <==>
            |f.opts| < 16 && cnt == f.cnt && devAddr == f.devAddr
  {
    hide Arrives, Changed, Current, Keystream;
    var g := Changed(f, keys, devAddr, ctrl, cnt, port);
    ChangedArrives(f, keys, devAddr, ctrl, cnt, port);
    ChangedFields(f, keys, devAddr, ctrl, cnt, port);
    if cnt != f.cnt || devAddr != f.devAddr {
      var key := if port == 0 then keys.nwkSEncKey else keys.appSKey;
      KeystreamsDiffer(key, f.cnt, f.devAddr, cnt, devAddr, Direction(f.kind), |f.data|);
    }
  }

  lemma ChangedFields(f: Frame, keys: SessionKeys, devAddr: uint32, ctrl: byte, cnt: uint16, port: byte)
    ensures var g := Changed(f, keys, devAddr, ctrl, cnt, port);
            && g.kind == f.kind && g.opts == f.opts && g.data == f.data
            && g.devAddr == devAddr && g.cnt == cnt && g.port == port
  {}

  lemma ShortOptions(k: Kind, p: bytes, keys: SessionKeys)
    requires Readable(p)
    ensures |Received(k, p, keys).opts| < 16
  {
    hide Crypt;
  }

  lemma RoundTripVerifies(f: Frame, keys: SessionKeys)
    requires |Encrypted(f, keys).optsEncrypted| < 16
    ensures Readable(Composed(f, keys).payload)
    ensures Verifies(Received(f.kind, Composed(f, keys).payload, keys), keys)
  {
    hide Crypt, Parsed, Received, Mic, OptsCrypt, DataCrypt, Header, FromLe;
    hide Msg, FrameMic, Encrypted, WireCtrl;
    ReceivedFields(f, keys);
    var e, r := Encrypted(f, keys), Received(f.kind, Composed(f, keys).payload, keys);
    var e' := Encrypted(r.(payload := []), keys);
    EncryptedFields(f, keys);
    WireCtrlSplit(f.ctrl, |e.optsEncrypted|);
    SameLink(f, r.(payload := []), keys, e.optsEncrypted);
    SameLink(f, r.(payload := []), keys, e.dataEncrypted);
    EncryptedAgain(r.(payload := []), keys);
    SameFrame(e, e', keys);
  }

  lemma SameLink(f: Frame, g: Frame, keys: SessionKeys, x: bytes)
    requires g.kind == f.kind && g.devAddr == f.devAddr && g.cnt == f.cnt
    ensures OptsCrypt(g, keys, x) == OptsCrypt(f, keys, x)
    ensures g.port == f.port ==> DataCrypt(g, keys, x) == DataCrypt(f, keys, x)
  {
    hide Crypt;
  }

  lemma EncryptedFields(f: Frame, keys: SessionKeys)
    ensures var e := Encrypted(f, keys);
            e == f.(optsEncrypted := e.optsEncrypted, dataEncrypted := e.dataEncrypted)
  {}

  /** Caches that decrypt to the present options and data are not computed again. */
  lemma EncryptedAgain(r: Frame, keys: SessionKeys)
    requires r.opts == OptsCrypt(r, keys, r.optsEncrypted)
    requires if r.dataEncrypted == [] then r.data == [] else r.data == DataCrypt(r, keys, r.dataEncrypted)
    ensures Encrypted(r, keys) == r
  {
    hide Crypt;
    CryptNothing(r, keys);
  }

  lemma SameFrame(e: Frame, e': Frame, keys: SessionKeys)
    requires e'.kind == e.kind && e'.devAddr == e.devAddr && e'.cnt == e.cnt && Flags(e'.ctrl) == Flags(e.ctrl)
    requires e'.optsEncrypted == e.optsEncrypted && e'.dataEncrypted == e.dataEncrypted
    requires e.dataEncrypted != [] ==> e'.port == e.port
    ensures Msg(e') == Msg(e) && FrameMic(e', keys, Msg(e')) == FrameMic(e, keys, Msg(e))
  {
    hide Header, Mic, BlockB0;
  }

  lemma CryptNothing(f: Frame, keys: SessionKeys)
    ensures OptsCrypt(f, keys, []) == [] && DataCrypt(f, keys, []) == []
  {}

  // ---- Verification of a received frame.

  lemma ReceivedHeader(k: Kind, p: bytes, keys: SessionKeys)
    requires Readable(p)
    ensures var r, n := Received(k, p, keys), OptLen(p[5]);
            && r.kind == k && r.payload == p && r.session == Some(keys)
            && r.devAddr == FromLe(p[1..5]) && r.cnt == FromLe(p[6..8]) % 0x1_0000 && r.ctrl == p[5]
            && r.optsEncrypted == p[8..8 + n]
            && r.opts == OptsCrypt(r, keys, p[8..8 + n])
            && (if |p| <= n + 12 then r.port == 0 && r.dataEncrypted == [] && r.data == []
                else && r.port == p[8 + n] && r.dataEncrypted == p[9 + n..|p| - 4]
                     && r.data == DataCrypt(r, keys, p[9 + n..|p| - 4]))
  {
    hide Crypt, FromLe;
  }

  /** The frame verification composes again. */
  function Recomposed(k: Kind, p: bytes, keys: SessionKeys): Frame
    requires Readable(p)
  {
    Encrypted(Received(k, p, keys).(payload := []), keys)
  }

  lemma RecomposedCaches(k: Kind, p: bytes, keys: SessionKeys)
    requires Readable(p)
    ensures var g, n := Recomposed(k, p, keys), OptLen(p[5]);
            && g.kind == k && g.devAddr == FromLe(p[1..5]) && g.cnt == FromLe(p[6..8]) % 0x1_0000 && g.ctrl == p[5]
            && g.optsEncrypted == p[8..8 + n]
            && (if |p| <= n + 12 then g.dataEncrypted == []
                else g.port == p[8 + n] && g.dataEncrypted == p[9 + n..|p| - 4])
  {
    hide Crypt, Received, FromLe, OptsCrypt, DataCrypt;
    ReceivedHeader(k, p, keys);
    var r := Received(k, p, keys);
    CryptNothing(r, keys);
    CryptNothing(r.(payload := []), keys);
  }

  lemma HeaderBack(k: Kind, p: bytes)
    requires |p| >= 8
    ensures var h := Header(k, FromLe(p[1..5]), WireCtrl(p[5], OptLen(p[5])), FromLe(p[6..8]) % 0x1_0000);
            && h[1..] == p[1..8] && h[0] == TypeCode(k) * 32
  {
    hide Le, FromLe;
    LeOfFromLe(p[1..5]);
    CounterForth(p[6..8]);
    WireCtrlBack(p[5]);
    var h := Header(k, FromLe(p[1..5]), WireCtrl(p[5], OptLen(p[5])), FromLe(p[6..8]) % 0x1_0000);
    assert h == [TypeCode(k) * 32] + (p[1..5] + [p[5]] + p[6..8]);
    assert p[1..8] == p[1..5] + [p[5]] + p[6..8];
  }

  /** Frames the composer could have produced: low header bits zero, no port without data. */
  predicate Canonical(p: bytes)
    requires Readable(p)
  {
    p[0] % 32 == 0 && |p| >= 12 + OptLen(p[5]) && |p| != 13 + OptLen(p[5])
  }

  /** A string in which the first byte is replaced, by parts: seven more header bytes, n bytes of options, the rest. */
  lemma Parts<T>(p: seq<T>, n: nat, m: nat)
    requires 8 + n <= m <= |p|
    ensures p[1..8] + p[8..8 + n] + p[8 + n..m] == p[1..m]
    ensures [p[0]] + p[1..m] == p[..m]
  {}

  lemma Joined<T>(c: T, a: seq<T>, b: seq<T>, rest: seq<T>)
    ensures ([c] + a) + b + rest == [c] + (a + b + rest)
  {}

  /** What verification composes, but for the first byte: all the received bytes, or only header and options. */
  lemma RecomposedParts(k: Kind, p: bytes, keys: SessionKeys)
    requires Readable(p)
    ensures var g, n := Recomposed(k, p, keys), OptLen(p[5]);
            Msg(g) == [TypeCode(k) * 32] + (p[1..8] + p[8..8 + n] + if |p| <= n + 12 then [] else p[8 + n..|p| - 4])
            || |p| == 13 + n
    ensures |p| == 13 + OptLen(p[5]) ==> |Msg(Recomposed(k, p, keys))| == 8 + OptLen(p[5])
  {
    hide Recomposed, FromLe, Header, PortAndData, WireCtrl;
    var g, n := Recomposed(k, p, keys), OptLen(p[5]);
    RecomposedCaches(k, p, keys);
    HeaderBack(k, p);
    var h := Header(k, g.devAddr, WireCtrl(p[5], n), g.cnt);
    assert h == [h[0]] + p[1..8];
    PortAndDataBack(g, p, n);
    Joined(h[0], p[1..8], p[8..8 + n], PortAndData(g));
  }

  lemma PortAndDataBack(g: Frame, p: bytes, n: nat)
    requires n < 16 && |p| >= 8 + n
    requires if |p| <= n + 12 then g.dataEncrypted == []
             else g.port == p[8 + n] && g.dataEncrypted == p[9 + n..|p| - 4]
    ensures |p| <= n + 13 ==> PortAndData(g) == []
    ensures |p| > n + 13 ==> PortAndData(g) == p[8 + n..|p| - 4]
  {}

  /** Verification composes exactly the received bytes for the canonical frames and for no others. */
  lemma RecomposedMsg(k: Kind, p: bytes, keys: SessionKeys)
    requires Readable(p) && p[0] / 32 == TypeCode(k)
    ensures Msg(Recomposed(k, p, keys)) == p[..|p| - 4] <==> Canonical(p)
  {
    hide Recomposed, Msg;
    var g, n := Recomposed(k, p, keys), OptLen(p[5]);
    RecomposedParts(k, p, keys);
    if |p| >= 12 + n && |p| != 13 + n {
      Parts(p, n, |p| - 4);
      assert |p| == 12 + n ==> p[8 + n..|p| - 4] == [];
      assert Msg(g) == [TypeCode(k) * 32] + p[1..|p| - 4];
      assert p[..|p| - 4][0] == p[0];
    } else {
      assert |Msg(g)| == 8 + n;
    }
  }

  /** For a canonical frame, verification succeeds exactly when the last four received bytes are the first
      four bytes of the digest of B0 followed by the other received bytes. */
  lemma VerifyOverReceivedBytes(k: Kind, p: bytes, keys: SessionKeys)
    requires Readable(p) && p[0] / 32 == TypeCode(k) && Canonical(p)
    ensures Verifies(Received(k, p, keys), keys) <==>
            p[|p| - 4..] == Mic(keys.sNwkSIntKey,
                                BlockB0(k, FromLe(p[1..5]), FromLe(p[6..8]) % 0x1_0000, |p| - 4) + p[..|p| - 4])
  {
    hide Received, FromLe, Msg, Mic, BlockB0, Crypt;
    RecomposedMsg(k, p, keys);
    RecomposedCaches(k, p, keys);
    ReceivedHeader(k, p, keys);
    var g := Recomposed(k, p, keys);
    var mic := FrameMic(g, keys, Msg(g));
    var composed := Composed(Received(k, p, keys).(payload := []), keys).payload;
    assert composed == Msg(g) + mic;
    assert composed[|composed| - 4..] == mic;
    LeOfFromLe(mic);
    LeOfFromLe(p[|p| - 4..]);
  }
}
