/** Joining: the join request and join accept messages, the session keys, and the agreement of both sides. */
module Join {
  import opened Codec
  import opened LoraAes
  import opened DataFrame
  import opened Wrappers

  type Eui = e: bytes | |e| == 8 witness [0, 0, 0, 0, 0, 0, 0, 0]

  lemma ReversedTwice(b: bytes)
    ensures Reversed(Reversed(b)) == b
  {}

  lemma LowBytes(n: uint32)
    ensures Le(n % 0x100_0000, 3) == Le(n, 3)
    ensures Le(n % 0x1_0000, 2) == Le(n, 2)
  {
    hide Le, FromLe;
    FromLeOfLe(n, 3);
    LeOfFromLe(Le(n, 3));
    FromLeOfLe(n, 2);
    LeOfFromLe(Le(n, 2));
  }

  // ---- The join request.

  datatype Request = Request(payload: bytes, appEui: Eui, devEui: Eui, devNOnce: uint32)

  function RequestMsg(r: Request): (m: bytes)
    ensures |m| == 19
  {
    [0] + Reversed(r.appEui) + Reversed(r.devEui) + Le(r.devNOnce, 2)
  }

  function RequestComposed(r: Request, appKey: Key): Request {
    r.(payload := RequestMsg(r) + Mic(appKey, RequestMsg(r)))
  }

  /** The parser reads 19 bytes and checks no length. */
  function RequestParsed(r: Request): Request
    requires |r.payload| >= 19
  {
    r.(appEui := Reversed(r.payload[1..9]), devEui := Reversed(r.payload[9..17]), devNOnce := FromLe(r.payload[17..19]))
  }

  /** The nonce of a request on the wire has 16 bits. */
  lemma ParsedNonce(r: Request)
    requires |r.payload| >= 19
    ensures RequestParsed(r).devNOnce < 0x1_0000
  {
    hide Reversed;
    assert |r.payload[17..19]| == 2;
  }

  predicate RequestVerifies(r: Request, appKey: Key) {
    r.payload != [] ==> MicOf(RequestComposed(r.(payload := []), appKey).payload) == MicOf(r.payload)
  }

  class JoinRequest {
    var payload: bytes
    var appEui: Eui
    var devEui: Eui
    var devNOnce: uint32

    function State(): Request
      reads this
    {
      Request(payload, appEui, devEui, devNOnce)
    }

    constructor (p: bytes)
      ensures payload == p
    {
      payload, devNOnce := p, 0;
      appEui, devEui := [0, 0, 0, 0, 0, 0, 0, 0], [0, 0, 0, 0, 0, 0, 0, 0];
    }

    method SetDevNOnce(value: uint32)
      modifies this
      ensures State() == old(State()).(devNOnce := value, payload := [])
    {
      devNOnce := value;
      payload := [];
    }

    method Compose(appKey: Key)
      modifies this
      ensures State() == RequestComposed(old(State()), appKey)
    {
      hide Digest, Le;
      var first, second := Reversed(appEui), Reversed(devEui);
      payload := [0];
      payload := payload + first + second;
      var p := ConcatInt(payload, devNOnce, 2);
      var mic := Aes128Cmac(appKey, p);
      payload := p + mic[..4];
    }

    method Parse()
      requires |payload| >= 19
      modifies this
      ensures State() == RequestParsed(old(State()))
    {
      hide FromLe;
      appEui := Reversed(payload[1..9]);
      devEui := Reversed(payload[9..17]);
      devNOnce := ExtractInt(payload, 17, 2);
    }

    method Verify(appKey: Key) returns (ok: bool)
      requires payload == [] || |payload| >= 4
      modifies this
      ensures ok <==> RequestVerifies(old(State()), appKey)
      ensures State() == old(State())
    {
      hide Mic, FromLe, RequestMsg;
      if |payload| == 0 {
        return true;
      }
      var oldMic := ExtractInt(payload, |payload| - 4, 4);
      assert payload[|payload| - 4..] == payload[|payload| - 4..|payload| - 4 + 4];
      var received := payload;
      payload := [];
      Compose(appKey);
      var newMic := ExtractInt(payload, |payload| - 4, 4);
      assert payload[|payload| - 4..] == payload[|payload| - 4..|payload| - 4 + 4];
      payload := received;
      ok := newMic == oldMic;
    }
  }

  lemma RequestLayout<T>(h: seq<T>, a: seq<T>, b: seq<T>, n: seq<T>, tail: seq<T>)
    requires |h| == 1 && |a| == 8 && |b| == 8 && |n| == 2 && |tail| == 4
    ensures var p := h + a + b + n + tail;
            |p| == 23 && p[..1] == h && p[1..9] == a && p[9..17] == b && p[17..19] == n && p[19..] == tail
  {}

  /** A composed request has 23 bytes, is read back with the low 16 bits of its nonce, and verifies. */
  lemma RequestRoundTrip(r: Request, q: Request, appKey: Key)
    requires q.payload == RequestComposed(r, appKey).payload
    ensures |q.payload| == 23
    ensures RequestParsed(q) == q.(appEui := r.appEui, devEui := r.devEui, devNOnce := r.devNOnce % 0x1_0000)
    ensures RequestVerifies(RequestParsed(q), appKey)
  {
    hide Mic, Le, FromLe, Reversed;
    var m := RequestMsg(r);
    RequestLayout([0], Reversed(r.appEui), Reversed(r.devEui), Le(r.devNOnce, 2), Mic(appKey, m));
    ReversedTwice(r.appEui);
    ReversedTwice(r.devEui);
    FromLeOfLe(r.devNOnce, 2);
    LowBytes(r.devNOnce);
    assert RequestMsg(RequestParsed(q).(payload := [])) == m;
  }

  /** The bytes of a composed request: both identifiers and the nonce go least significant byte first. */
  lemma RequestBytes(r: Request, appKey: Key)
    ensures var a, d, p := r.appEui, r.devEui, RequestComposed(r, appKey).payload;
            && p[..19] == [0, a[7], a[6], a[5], a[4], a[3], a[2], a[1], a[0],
                           d[7], d[6], d[5], d[4], d[3], d[2], d[1], d[0],
                           r.devNOnce % 256, r.devNOnce / 256 % 256]
            && p[19..] == Mic(appKey, p[..19])
  {
    hide Mic;
    var a, d, m := r.appEui, r.devEui, RequestMsg(r);
    assert Reversed(a) == [a[7], a[6], a[5], a[4], a[3], a[2], a[1], a[0]];
    assert Reversed(d) == [d[7], d[6], d[5], d[4], d[3], d[2], d[1], d[0]];
    assert Le(r.devNOnce, 2) == [r.devNOnce % 256, r.devNOnce / 256 % 256];
    assert RequestComposed(r, appKey).payload[..19] == m;
  }

  lemma RequestBack(p: bytes)
    requires |p| >= 19
    ensures var r := RequestParsed(Request(p, [0, 0, 0, 0, 0, 0, 0, 0], [0, 0, 0, 0, 0, 0, 0, 0], 0));
            RequestMsg(r) == [0] + p[1..19]
  {
    hide Le, FromLe, Reversed;
    ReversedTwice(p[1..9]);
    ReversedTwice(p[9..17]);
    LeOfFromLe(p[17..19]);
    assert p[1..19] == p[1..9] + p[9..17] + p[17..19];
  }

  /** A received request verifies exactly when its last four bytes are the digest prefix of a zero header and
      the 18 bytes after the received header; for 23 bytes with a zero header that is the digest over the
      received bytes themselves. */
  lemma RequestVerifiesReceived(p: bytes, appKey: Key)
    requires |p| >= 19
    ensures var r := RequestParsed(Request(p, [0, 0, 0, 0, 0, 0, 0, 0], [0, 0, 0, 0, 0, 0, 0, 0], 0));
            && (RequestVerifies(r, appKey) <==> p[|p| - 4..] == Mic(appKey, [0] + p[1..19]))
            && (|p| == 23 && p[0] == 0 ==> (RequestVerifies(r, appKey) <==> p[19..] == Mic(appKey, p[..19])))
  {
    hide Mic, FromLe, RequestMsg;
    RequestBack(p);
    var r := RequestParsed(Request(p, [0, 0, 0, 0, 0, 0, 0, 0], [0, 0, 0, 0, 0, 0, 0, 0], 0));
    var mic := Mic(appKey, RequestMsg(r));
    assert RequestMsg(r.(payload := [])) == RequestMsg(r) by { MsgIgnoresRequestPayload(r); }
    assert (RequestMsg(r) + mic)[19..] == mic;
    LeOfFromLe(mic);
    LeOfFromLe(p[|p| - 4..]);
    if |p| == 23 && p[0] == 0 {
      assert [0] + p[1..19] == p[..19];
    }
  }

  /** Whatever the other fields held before parsing, they have no part in verification. */
  lemma VerifiesAsReceived(r: Request, appKey: Key)
    requires |r.payload| >= 19
    ensures var p := r.payload;
            RequestVerifies(RequestParsed(r), appKey) <==> p[|p| - 4..] == Mic(appKey, [0] + p[1..19])
  {
    hide Mic, FromLe, Reversed, RequestVerifies;
    RequestVerifiesReceived(r.payload, appKey);
  }

  lemma MsgIgnoresRequestPayload(r: Request)
    ensures RequestMsg(r.(payload := [])) == RequestMsg(r)
  {}

  // ---- The join accept.

  type CFList = c: seq<uint32> | |c| == 5 witness [0, 0, 0, 0, 0]

  datatype Accept = Accept(payload: bytes, joinNOnce: uint32, networkId: uint32, devAddress: uint32,
                           dlSettings: uint32, rxDelay: uint32, cfList: CFList)

  /** The number of channels before the first zero frequency. */
  function Channels(cfList: CFList): (n: nat)
    ensures n <= 5
    ensures forall i | 0 <= i < n :: cfList[i] != 0
    ensures n < 5 ==> cfList[n] == 0
  {
    if cfList[0] == 0 then 0
    else if cfList[1] == 0 then 1
    else if cfList[2] == 0 then 2
    else if cfList[3] == 0 then 3
    else if cfList[4] == 0 then 4
    else 5
  }

  function ChannelBytes(cfList: CFList, n: nat): (b: bytes)
    requires n <= 5
    ensures |b| == 3 * n
  {
    if n == 0 then [] else ChannelBytes(cfList, n - 1) + Le(cfList[n - 1], 3)
  }

  function Padding(n: nat): nat {
    (16 - 3 * n % 16) % 16
  }

  function AcceptHead(a: Accept): (h: bytes)
    ensures |h| == 12
  {
    Le(a.joinNOnce, 3) + Le(a.networkId, 3) + Le(a.devAddress, 4) + [a.dlSettings % 0x100] + [a.rxDelay % 0x100]
  }

  /** The fields in the clear, without header and integrity code. */
  function AcceptPlain(a: Accept): bytes {
    var n := Channels(a.cfList);
    AcceptHead(a) + (ChannelBytes(a.cfList, n) + Repeated(0, Padding(n)))
  }

  function AcceptMic(a: Accept, appKey: Key): (m: bytes)
    ensures |m| == 4
  {
    Mic(appKey, [0x20] + AcceptPlain(a))
  }

  function AcceptComposed(a: Accept, appKey: Key): Accept {
    a.(payload := [0x20] + DecryptVector(appKey, AcceptPlain(a) + AcceptMic(a, appKey)))
  }

  /** The encrypted part is always one block, or two when channels are listed. */
  lemma AcceptBodyLength(a: Accept)
    ensures |AcceptPlain(a)| + 4 == if a.cfList[0] == 0 then 16 else 32
  {
    hide Le, AcceptHead, ChannelBytes;
  }

  class JoinAccept {
    var payload: bytes
    var joinNOnce: uint32
    var networkId: uint32
    var devAddress: uint32
    var dlSettings: uint32
    var rxDelay: uint32
    var cfList: CFList

    function State(): Accept
      reads this
    {
      Accept(payload, joinNOnce, networkId, devAddress, dlSettings, rxDelay, cfList)
    }

    constructor ()
      ensures State() == Accept([], 0, 0, 0, 0, 0, [0, 0, 0, 0, 0])
    {
      payload, joinNOnce, networkId, devAddress, dlSettings, rxDelay := [], 0, 0, 0, 0, 0;
      cfList := [0, 0, 0, 0, 0];
    }

    method SetFields(nonce: uint32, net: uint32, addr: uint32, dl: uint32, delay: uint32)
      modifies this
      ensures State() == old(State()).(payload := [], joinNOnce := nonce, networkId := net, devAddress := addr,
                                       dlSettings := dl, rxDelay := delay)
    {
      joinNOnce, networkId, devAddress, dlSettings, rxDelay := nonce, net, addr, dl, delay;
      payload := [];
    }

    method SetCFListEntry(i: nat, value: uint32)
      requires i < 5
      modifies this
      ensures State() == old(State()).(payload := [], cfList := old(cfList)[i := value])
    {
      cfList := cfList[i := value];
      payload := [];
    }

    method AppendChannels(p: bytes) returns (out: bytes)
      ensures out == p + (ChannelBytes(cfList, Channels(cfList)) + Repeated(0, Padding(Channels(cfList))))
    {
      hide Le;
      ghost var m := Channels(cfList);
      out := p;
      var cfListSize := 0;
      while cfListSize < 5 && cfList[cfListSize] != 0
        invariant 0 <= cfListSize <= m
        invariant out == p + ChannelBytes(cfList, cfListSize)
      {
        out := ConcatInt(out, cfList[cfListSize], 3);
        cfListSize := cfListSize + 1;
      }
      var paddingSize := (16 - cfListSize * 3 % 16) % 16;
      ghost var unpadded := out;
      for i := 0 to paddingSize
        invariant out == unpadded + Repeated(0, i)
      {
        out := out + [0];
      }
    }

    method Compose(appKey: Key)
      modifies this
      ensures State() == AcceptComposed(old(State()), appKey)
    {
      hide Le, Digest, DecryptVector, ChannelBytes, Channels, Padding;
      var p := ConcatInt([], joinNOnce, 3);
      p := ConcatInt(p, networkId, 3);
      p := ConcatInt(p, devAddress, 4);
      p := p + [dlSettings % 0x100] + [rxDelay % 0x100];
      assert p == AcceptHead(State());
      p := AppendChannels(p);
      assert p == AcceptPlain(State());
      var mic := Aes128Cmac(appKey, [0x20] + p);
      var body := Aes128Decrypt(appKey, p + mic[..4]);
      payload := [0x20] + body;
    }
  }

  // ---- What the device does with a join accept (LoRaWAN 1.0.2 section 6.2.5): encrypt the body.

  datatype Opened = Opened(joinNOnce: uint32, networkId: uint32, devAddress: uint32, dlSettings: byte, rxDelay: byte,
                           channels: bytes, mic: bytes, genuine: bool)

  /** The fields of the clear body at their places. */
  function Fields(appKey: Key, x: bytes): Opened
    requires |x| >= 16
  {
    var end := |x| - 4;
    Opened(FromLe(x[..3]), FromLe(x[3..6]), FromLe(x[6..10]), x[10], x[11], x[12..end], x[end..],
           x[end..] == Mic(appKey, [0x20] + x[..end]))
  }

  function DeviceOpens(appKey: Key, payload: bytes): Option<Opened> {
    if |payload| == 0 || payload[0] != 0x20 then None
    else
      var x := EncryptVector(appKey, payload[1..]);
      if |x| < 16 then None else Some(Fields(appKey, x))
  }

  lemma AcceptLayout<T>(a: seq<T>, b: seq<T>, c: seq<T>, d: seq<T>, e: seq<T>, rest: seq<T>, mic: seq<T>)
    requires |a| == 3 && |b| == 3 && |c| == 4 && |d| == 1 && |e| == 1 && |mic| == 4
    ensures var x := a + b + c + d + e + rest + mic;
            && |x| == 16 + |rest| && x[..3] == a && x[3..6] == b && x[6..10] == c && x[10] == d[0] && x[11] == e[0]
            && x[12..|x| - 4] == rest && x[|x| - 4..] == mic && x[..|x| - 4] == a + b + c + d + e + rest
  {}

  /** The fields of a join accept, cut to their width on the wire, and the channel bytes with their padding. */
  function Disclosed(a: Accept, appKey: Key): Opened {
    Opened(Truncate(a.joinNOnce, 3), Truncate(a.networkId, 3), a.devAddress, a.dlSettings % 0x100, a.rxDelay % 0x100,
           ChannelBytes(a.cfList, Channels(a.cfList)) + Repeated(0, Padding(Channels(a.cfList))),
           AcceptMic(a, appKey), true)
  }

  /** A device that encrypts the body recovers these fields and the integrity code, which it finds genuine. */
  lemma DeviceRecovers(a: Accept, appKey: Key)
    ensures DeviceOpens(appKey, AcceptComposed(a, appKey).payload) == Some(Disclosed(a, appKey))
  {
    hide Mic, Le, FromLe, EncryptVector, DecryptVector, ChannelBytes, Channels, Padding;
    var n := Channels(a.cfList);
    var rest, mic := ChannelBytes(a.cfList, n) + Repeated(0, Padding(n)), AcceptMic(a, appKey);
    var body := AcceptPlain(a) + mic;
    AcceptBodyLength(a);
    EncryptUndoesDecrypt(appKey, body);
    var payload := AcceptComposed(a, appKey).payload;
    assert payload[1..] == DecryptVector(appKey, body);
    AcceptLayout(Le(a.joinNOnce, 3), Le(a.networkId, 3), Le(a.devAddress, 4),
                 [a.dlSettings % 0x100], [a.rxDelay % 0x100], rest, mic);
    FromLeOfLe(a.joinNOnce, 3);
    FromLeOfLe(a.networkId, 3);
    FromLeOfLe(a.devAddress, 4);
  }

  /** The channel frequencies a device reads: three bytes each. */
  lemma {:induction false} ChannelRead(cfList: CFList, n: nat, i: nat, tail: bytes)
    requires i < n <= 5
    ensures var b := ChannelBytes(cfList, n) + tail;
            FromLe(b[3 * i..3 * i + 3]) == cfList[i] % 0x100_0000
  {
    hide Le, FromLe;
    var last := Le(cfList[n - 1], 3);
    assert ChannelBytes(cfList, n) + tail == ChannelBytes(cfList, n - 1) + (last + tail);
    if i < n - 1 {
      ChannelRead(cfList, n - 1, i, last + tail);
    } else {
      FromLeOfLe(cfList[i], 3);
      assert (ChannelBytes(cfList, n) + tail)[3 * i..3 * i + 3] == last;
    }
  }

  /** What a device reads as channels: three bytes for each before the first zero, then zeros up to a whole block. */
  lemma ChannelsDisclosed(a: Accept, appKey: Key, n: nat)
    requires n <= 5 && (forall i | 0 <= i < n :: a.cfList[i] != 0) && (n < 5 ==> a.cfList[n] == 0)
    ensures var c := Disclosed(a, appKey).channels;
            && |c| == (if n == 0 then 0 else 16)
            && (forall i | 0 <= i < n :: FromLe(c[3 * i..3 * i + 3]) == a.cfList[i] % 0x100_0000)
            && (forall j | 3 * n <= j < |c| :: c[j] == 0)
  {
    hide Le, FromLe, ChannelBytes, Mic;
    var zeros := Repeated(0, Padding(n));
    assert Channels(a.cfList) == n;
    forall i | 0 <= i < n
      ensures FromLe((ChannelBytes(a.cfList, n) + zeros)[3 * i..3 * i + 3]) == a.cfList[i] % 0x100_0000
    {
      ChannelRead(a.cfList, n, i, zeros);
    }
  }

  // ---- Session keys.

  function KeyBlock(tag: byte, nOnce: uint32, networkId: uint32, devNOnce: uint32): (b: bytes)
    ensures |b| == 16
  {
    [tag] + Le(nOnce, 3) + Le(networkId, 3) + Le(devNOnce, 2) + Le(0, 4) + Le(0, 2) + [0]
  }

  function DerivedKey(appKey: Key, tag: byte, nOnce: uint32, networkId: uint32, devNOnce: uint32): Key {
    VectorLength(appKey, KeyBlock(tag, nOnce, networkId, devNOnce));
    EncryptVector(appKey, KeyBlock(tag, nOnce, networkId, devNOnce))
  }

  /** The network keys are one and the same key. */
  function DerivedKeys(appKey: Key, nOnce: uint32, networkId: uint32, devNOnce: uint32): SessionKeys {
    var network := DerivedKey(appKey, 1, nOnce, networkId, devNOnce);
    SessionKeys(network, network, DerivedKey(appKey, 2, nOnce, networkId, devNOnce))
  }

  /** The input of a session key in LoRaWAN 1.0.2 section 6.2.5: a tag, the join nonce and the network identifier in
      three bytes each, the nonce of the device in two, and zeros, numbers least significant byte first. */
  function KeyInput(tag: byte, nonce: uint32, network: uint32, devNOnce: uint32): bytes {
    [tag, nonce % 256, nonce / 256 % 256, nonce / 65536 % 256,
     network % 256, network / 256 % 256, network / 65536 % 256,
     devNOnce % 256, devNOnce / 256 % 256, 0, 0, 0, 0, 0, 0, 0]
  }

  /** The network key has tag 1 and the key for application data has tag 2. */
  predicate StandardKeys(keys: SessionKeys, appKey: Key, nonce: uint32, network: uint32, devNOnce: uint32) {
    && keys.nwkSEncKey == EncryptVector(appKey, KeyInput(1, nonce, network, devNOnce))
    && keys.sNwkSIntKey == EncryptVector(appKey, KeyInput(1, nonce, network, devNOnce))
    && keys.appSKey == EncryptVector(appKey, KeyInput(2, nonce, network, devNOnce))
  }

  lemma KeyBlockBytes(tag: byte, nOnce: uint32, networkId: uint32, devNOnce: uint32)
    ensures KeyBlock(tag, nOnce, networkId, devNOnce) == KeyInput(tag, nOnce, networkId, devNOnce)
  {}

  /** The keys the server derives are those of the standard. */
  lemma DerivedStandard(appKey: Key, nOnce: uint32, networkId: uint32, devNOnce: uint32)
    ensures StandardKeys(DerivedKeys(appKey, nOnce, networkId, devNOnce), appKey, nOnce, networkId, devNOnce)
  {
    hide EncryptVector, KeyBlock, KeyInput;
    KeyBlockBytes(1, nOnce, networkId, devNOnce);
    KeyBlockBytes(2, nOnce, networkId, devNOnce);
  }

  /** The keys of a session are derived under the application key of the device the session points to; a session without
      a device keeps the keys it has. */
  function NewKeys(keys: SessionKeys, deviceKey: Option<Key>, nOnce: uint32, networkId: uint32, devNOnce: uint32)
    : SessionKeys
  {
    if deviceKey.None? then keys else DerivedKeys(deviceKey.value, nOnce, networkId, devNOnce)
  }

  /** Keys derived under one application key differ when the join nonces differ in their low 24 bits, whatever the tags
      and the other inputs. */
  lemma DerivedKeysDiffer(appKey: Key, tag: byte, nOnce: uint32, networkId: uint32, devNOnce: uint32,
                          tag2: byte, nOnce2: uint32, networkId2: uint32, devNOnce2: uint32)
    requires nOnce % 0x100_0000 != nOnce2 % 0x100_0000
    ensures DerivedKey(appKey, tag, nOnce, networkId, devNOnce) !=
            DerivedKey(appKey, tag2, nOnce2, networkId2, devNOnce2)
  {
    hide Le, EncryptVector;
    var x, y := KeyBlock(tag, nOnce, networkId, devNOnce), KeyBlock(tag2, nOnce2, networkId2, devNOnce2);
    EncryptVectorInjective(appKey, x, y);
    assert x[1..4] == Le(nOnce, 3) && y[1..4] == Le(nOnce2, 3);
    FromLeOfLe(nOnce, 3);
    FromLeOfLe(nOnce2, 3);
  }

  /** Only the low 24, 24 and 16 bits of the inputs reach the keys. */
  lemma KeysTruncate(appKey: Key, nOnce: uint32, networkId: uint32, devNOnce: uint32)
    ensures DerivedKeys(appKey, nOnce % 0x100_0000, networkId % 0x100_0000, devNOnce % 0x1_0000) ==
            DerivedKeys(appKey, nOnce, networkId, devNOnce)
  {
    hide Le, EncryptVector;
    LowBytes(nOnce);
    LowBytes(networkId);
    LowBytes(devNOnce);
  }

  // ---- The server side of one join.

  /** What a join reads and changes in a session. */
  datatype Joining = Joining(networkId: uint32, deviceAddr: uint32, rxDelay1: byte, nOnce: uint32, devNOnce: uint32,
                             keys: SessionKeys, fCntUp: uint32, fCntDown: uint32)

  /** A nonce is fresh unless it repeats the last one; a last nonce of zero never counts as repeated. */
  predicate FreshNonce(last: uint32, nonce: uint32) {
    last != nonce || last == 0
  }

  /** The session after a join: the join nonce counts on, the keys change and both frame counters start again. */
  function Accepted(o: Joining, deviceKey: Option<Key>, devNOnce: uint32): Joining {
    var nOnce := (o.nOnce + 1) % 0x1_0000_0000;
    o.(nOnce := nOnce, devNOnce := devNOnce, keys := NewKeys(o.keys, deviceKey, nOnce, o.networkId, devNOnce),
       fCntUp := 0xFFFF_FFFF, fCntDown := 0)
  }

  class Session {
    const networkId: uint32
    const deviceAddr: uint32
    var nOnce: uint32
    var devNOnce: uint32
    var keys: SessionKeys
    var fCntUp: uint32
    var fCntDown: uint32
    var rxDelay1: byte

    function State(): Joining
      reads this
    {
      Joining(networkId, deviceAddr, rxDelay1, nOnce, devNOnce, keys, fCntUp, fCntDown)
    }

    constructor (o: Joining)
      ensures State() == o
    {
      networkId, deviceAddr, rxDelay1, keys := o.networkId, o.deviceAddr, o.rxDelay1, o.keys;
      nOnce, devNOnce, fCntUp, fCntDown := o.nOnce, o.devNOnce, o.fCntUp, o.fCntDown;
    }

    method GenerateSessionKeys(deviceKey: Option<Key>)
      modifies this`keys
      ensures keys == NewKeys(old(keys), deviceKey, nOnce, networkId, devNOnce)
      ensures deviceKey.None? ==> keys == old(keys)
      ensures deviceKey.Some? ==> StandardKeys(keys, deviceKey.value, nOnce, networkId, devNOnce)
    {
      hide EncryptVector, KeyBlock, StandardKeys;
      if deviceKey.None? {
        return;
      }
      DerivedStandard(deviceKey.value, nOnce, networkId, devNOnce);
      var appKey := deviceKey.value;
      var block := KeyBlock(0, nOnce, networkId, devNOnce);
      TaggedBlock(0, 1, nOnce, networkId, devNOnce);
      TaggedBlock(1, 2, nOnce, networkId, devNOnce);
      block := block[0 := 0x01];
      VectorLength(appKey, block);
      var network := Aes128Encrypt(appKey, block);
      block := block[0 := 0x02];
      VectorLength(appKey, block);
      var app := Aes128Encrypt(appKey, block);
      keys := SessionKeys(network, network, app);
    }
  }

  lemma TaggedBlock(tag: byte, other: byte, nOnce: uint32, networkId: uint32, devNOnce: uint32)
    ensures KeyBlock(tag, nOnce, networkId, devNOnce)[0 := other] == KeyBlock(other, nOnce, networkId, devNOnce)
  {
    hide Le;
  }

  /** The channel list an answer carries: at most four channels of the device. */
  function AnswerChannels(channels: seq<uint32>): CFList {
    var c := if |channels| > 4 then channels[..4] else channels;
    c + seq(5 - |c|, i => 0)
  }

  function Answer(o: Joining, channels: seq<uint32>): Accept {
    Accept([], o.nOnce, o.networkId, o.deviceAddr, 0, o.rxDelay1, AnswerChannels(channels))
  }

  /** Of the channels of a device the first four are sent, up to the first zero among them. */
  lemma AnswerDisclosed(o: Joining, channels: seq<uint32>, appKey: Key, n: nat)
    requires n <= 4 && n <= |channels| && forall i | 0 <= i < n :: channels[i] != 0
    requires n == 4 || n == |channels| || channels[n] == 0
    ensures var c := Disclosed(Answer(o, channels), appKey).channels;
            && |c| == (if n == 0 then 0 else 16)
            && (forall i | 0 <= i < n :: FromLe(c[3 * i..3 * i + 3]) == channels[i] % 0x100_0000)
            && (forall j | 3 * n <= j < |c| :: c[j] == 0)
  {
    hide Disclosed, FromLe;
    var list := AnswerChannels(channels);
    assert forall i | 0 <= i < n :: list[i] == channels[i];
    assert list[n] == 0;
    ChannelsDisclosed(Answer(o, channels), appKey, n);
  }

  /** Fills a join accept from the session and the channel list of the device. */
  method BuildAnswer(session: Session, channels: seq<uint32>) returns (accept: JoinAccept)
    ensures fresh(accept) && accept.State() == Answer(session.State(), channels)
  {
    accept := new JoinAccept();
    accept.SetFields(session.nOnce, session.networkId, session.deviceAddr, 0, session.rxDelay1);
    var i := 0;
    ghost var zero := accept.State();
    while i < |channels| && i < 4
      invariant 0 <= i <= 4 && i <= |channels|
      invariant accept.State() == zero.(cfList := channels[..i] + seq(5 - i, _ => 0))
    {
      accept.SetCFListEntry(i, channels[i]);
      i := i + 1;
    }
    assert channels[..i] == if |channels| > 4 then channels[..4] else channels;
  }

  /** One candidate device of a join request: verify, refuse a repeated nonce, count the join, answer and
      derive the session keys. The request and the answer go by the key of the candidate, the session keys by the key
      of the device the session points to. */
  method AnswerJoin(request: JoinRequest, appKey: Key, deviceKey: Option<Key>, channels: seq<uint32>, session: Session)
    returns (answer: Option<bytes>)
    requires |request.payload| >= 19
    modifies request, session
    ensures request.State() == old(RequestParsed(request.State()))
    ensures answer.Some? <==>
            RequestVerifies(request.State(), appKey) && FreshNonce(old(session.devNOnce), request.devNOnce)
    ensures answer.Some? <==>
            && (var p := old(request.payload); p[|p| - 4..] == Mic(appKey, [0] + p[1..19]))
            && (old(session.devNOnce) == 0 || old(session.devNOnce) != request.devNOnce)
    ensures answer.None? ==> unchanged(session)
    ensures answer.Some? ==>
              && session.State() == Accepted(old(session.State()), deviceKey, request.devNOnce)
              && answer.value == AcceptComposed(Answer(session.State(), channels), appKey).payload
              && session.nOnce == (old(session.nOnce) + 1) % 0x1_0000_0000 && session.devNOnce == request.devNOnce
              && session.fCntUp == 0xFFFF_FFFF && session.fCntDown == 0
    ensures answer.Some? && deviceKey.Some? ==>
              StandardKeys(session.keys, deviceKey.value, session.nOnce, session.networkId, session.devNOnce)
    ensures answer.Some? && deviceKey.None? ==> session.keys == old(session.keys)
  {
    hide RequestVerifies, AcceptComposed, DerivedKeys, FromLe, Reversed, StandardKeys, Mic;
    VerifiesAsReceived(request.State(), appKey);
    request.Parse();
    var ok := request.Verify(appKey);
    if !ok || (session.devNOnce == request.devNOnce && session.devNOnce != 0) {
      return None;
    }
    session.devNOnce := request.devNOnce;
    session.nOnce := (session.nOnce + 1) % 0x1_0000_0000;
    var accept := BuildAnswer(session, channels);
    session.GenerateSessionKeys(deviceKey);
    session.fCntUp := 0xFFFF_FFFF;
    session.fCntDown := 0;
    accept.Compose(appKey);
    answer := Some(accept.payload);
  }

  /** Whether keys are those of the device: it derives them, as the standard says, from what it read in the answer and
      from the nonce it sent. */
  predicate DeviceHolds(keys: SessionKeys, appKey: Key, o: Opened, devNOnce: uint16) {
    StandardKeys(keys, appKey, o.joinNOnce, o.networkId, devNOnce)
  }

  lemma InputTruncates(tag: byte, nonce: uint32, network: uint32, devNOnce: uint32)
    ensures KeyInput(tag, nonce % 0x100_0000, network % 0x100_0000, devNOnce) == KeyInput(tag, nonce, network, devNOnce)
  {
    hide Le, KeyInput;
    KeyBlockBytes(tag, nonce % 0x100_0000, network % 0x100_0000, devNOnce);
    KeyBlockBytes(tag, nonce, network, devNOnce);
    LowBytes(nonce);
    LowBytes(network);
  }

  lemma StandardTruncates(keys: SessionKeys, appKey: Key, nonce: uint32, network: uint32, devNOnce: uint32)
    ensures StandardKeys(keys, appKey, nonce % 0x100_0000, network % 0x100_0000, devNOnce) <==>
            StandardKeys(keys, appKey, nonce, network, devNOnce)
  {
    hide EncryptVector, KeyInput;
    InputTruncates(1, nonce, network, devNOnce);
    InputTruncates(2, nonce, network, devNOnce);
  }

  /** A whole join: the device composes a request with a new nonce, and the server receives its bytes. Whenever the
      server answers, the device accepts the answer and learns the address and delay of the session. The keys it
      derives by the standard are those the server now holds, although nonce and network id are cut to 24 bits, when
      the session points to this device, which the registry guarantees while devices and sessions correspond. */
  method KeyAgreement(device: JoinRequest, devNOnce: uint16, server: JoinRequest, appKey: Key, deviceKey: Option<Key>,
                      channels: seq<uint32>, session: Session)
    returns (answer: Option<bytes>)
    requires device != server
    modifies device, server, session
    ensures answer.Some? <==> old(session.devNOnce) == 0 || old(session.devNOnce) != devNOnce
    ensures answer.Some? ==>
              && session.nOnce == (old(session.nOnce) + 1) % 0x1_0000_0000 && session.devNOnce == devNOnce
              && session.fCntUp == 0xFFFF_FFFF && session.fCntDown == 0
              && var o := DeviceOpens(appKey, answer.value);
                 && o.Some? && o.value.genuine && o.value.dlSettings == 0
                 && o.value.channels == Disclosed(Answer(session.State(), channels), appKey).channels
                 && o.value.joinNOnce == session.nOnce % 0x100_0000
                 && o.value.networkId == session.networkId % 0x100_0000
                 && o.value.devAddress == session.deviceAddr && o.value.rxDelay == session.rxDelay1
                 && (deviceKey == Some(appKey) ==> DeviceHolds(session.keys, appKey, o.value, devNOnce))
                 && (deviceKey == None ==> session.keys == old(session.keys))
  {
    hide RequestVerifies, RequestComposed, RequestParsed, DerivedKeys, AcceptComposed, AcceptMic, DeviceOpens,
         Channels, ChannelBytes, Padding, StandardKeys, Mic;
    device.SetDevNOnce(devNOnce);
    ghost var sent := device.State();
    device.Compose(appKey);
    server.payload := device.payload;
    RequestRoundTrip(sent, server.State(), appKey);
    answer := AnswerJoin(server, appKey, deviceKey, channels, session);
    if answer.Some? {
      DeviceRecovers(Answer(session.State(), channels), appKey);
      StandardTruncates(session.keys, appKey, session.nOnce, session.networkId, devNOnce);
    }
  }
}
