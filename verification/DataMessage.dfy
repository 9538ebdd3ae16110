/** The data message object: setters that drop cached bytes, composing, parsing and verification. */
module DataMessage {
  import opened Codec
  import opened LoraAes
  import opened DataFrame
  import opened Wrappers

  class DataUp {
    const kind: Kind
    var session: Option<SessionKeys>
    var payload: bytes
    var devAddr: uint32
    var ctrl: byte
    var port: byte
    var cnt: uint16
    var optsEncrypted: bytes
    var dataEncrypted: bytes
    var opts: bytes
    var data: bytes

    function State(): Frame
      reads this
    {
      Frame(kind, session, payload, devAddr, ctrl, cnt, port, opts, data, optsEncrypted, dataEncrypted)
    }

    constructor (k: Kind)
      ensures State() == Fresh(k)
    {
      kind, session, payload := k, None, [];
      devAddr, ctrl, port, cnt := 0, 0, 0, 0;
      optsEncrypted, dataEncrypted, opts, data := [], [], [], [];
    }

    method SetDevAddress(value: uint32)
      modifies this
      ensures State() == old(State()).(devAddr := value, payload := [])
    {
      devAddr := value;
      payload := [];
    }

    method SetCtrl(value: byte)
      modifies this
      ensures State() == old(State()).(ctrl := value, payload := [])
    {
      ctrl := value;
      payload := [];
    }

    method SetCnt(value: uint16)
      modifies this
      ensures State() == old(State()).(cnt := value, payload := [])
    {
      cnt := value;
      payload := [];
    }

    method SetPort(value: byte)
      modifies this
      ensures State() == old(State()).(port := value, payload := [])
    {
      port := value;
      payload := [];
    }

    method SetOpts(value: bytes)
      modifies this
      ensures State() == old(State()).(opts := value, optsEncrypted := [], payload := [])
    {
      opts := value;
      optsEncrypted := [];
      payload := [];
    }

    method SetData(value: bytes)
      modifies this
      ensures State() == old(State()).(data := value, dataEncrypted := [], payload := [])
    {
      data := value;
      dataEncrypted := [];
      payload := [];
    }

    /** Encrypts what has not been encrypted yet. */
    method FillCaches(keys: SessionKeys)
      modifies this
      ensures State() == Encrypted(old(State()), keys)
    {
      hide Crypt;
      if |optsEncrypted| == 0 {
        optsEncrypted := LoramacDecrypt(keys.nwkSEncKey, opts, cnt, devAddr, Direction(kind));
      }
      if |dataEncrypted| == 0 {
        dataEncrypted :=
          LoramacDecrypt(if port == 0 then keys.nwkSEncKey else keys.appSKey, data, cnt, devAddr, Direction(kind));
      }
    }

    method ComposeHeader(msg: bytes) returns (out: bytes)
      ensures out == msg + Header(kind, devAddr, WireCtrl(ctrl, |optsEncrypted|), cnt)
    {
      hide Le;
      out := msg + [TypeCode(kind) * 32];
      out := ConcatInt(out, devAddr, 4);
      out := out + [ctrl / 16 * 16 + |optsEncrypted| % 16];
      out := ConcatInt(out, cnt, 2);
    }

    /** Appends the message without its integrity code to msg. */
    method ComposeMsg(msg: bytes, keys: SessionKeys) returns (out: bytes)
      modifies this
      ensures State() == Encrypted(old(State()), keys)
      ensures out == msg + Msg(State())
    {
      hide Encrypted, Header;
      FillCaches(keys);
      out := ComposeHeader(msg);
      out := out + optsEncrypted;
      if |dataEncrypted| > 0 {
        out := out + [port] + dataEncrypted;
      }
    }

    method CalcMic(keys: SessionKeys) returns (mic: uint32)
      modifies this
      ensures State() == Encrypted(old(State()), keys)
      ensures mic == FromLe(FrameMic(State(), keys, Msg(State())))
    {
      hide Crypt, Le, FromLe, Msg, Digest;
      var msg := ComposeMsg([], keys);
      var b0 := [0x49] + Le(0, 2) + [0] + [0] + [Direction(kind)] + Le(devAddr, 4) + Le(cnt, 4) + [0] + [|msg| % 0x100];
      assert [] + Msg(State()) == Msg(State());
      var cmac := Aes128Cmac(keys.sNwkSIntKey, b0 + msg);
      mic := ExtractInt(cmac, 0, 4);
    }

    method Compose(keys: SessionKeys)
      modifies this
      ensures State() == Composed(old(State()), keys)
    {
      hide Crypt, Msg, Mic, Le, FromLe;
      payload := [];
      ghost var e := Encrypted(old(State()), keys);
      var p := ComposeMsg(payload, keys);
      payload := p;
      assert State() == e.(payload := Msg(e)) by { MsgIgnoresPayload(e, []); }
      EncryptedTwice(old(State()), keys, Msg(e));
      var mic := CalcMic(keys);
      MsgIgnoresPayload(e, Msg(e));
      LeOfFromLe(FrameMic(e, keys, Msg(e)));
      p := ConcatInt(payload, mic, 4);
      payload := p;
    }

    method ParseHeader()
      requires Readable(payload)
      modifies this
      ensures State() == ParsedHeader(old(State()))
    {
      hide Crypt, FromLe;
      devAddr := ExtractInt(payload, 1, 4);
      ctrl := payload[5];
      var c := ExtractInt(payload, 6, 2);
      cnt := c % 0x1_0000;
      optsEncrypted := payload[8..8 + ctrl % 16];
      if session.Some? {
        opts := LoramacDecrypt(session.value.nwkSEncKey, optsEncrypted, cnt, devAddr, Direction(kind));
      }
    }

    method Parse()
      requires Readable(payload)
      modifies this
      ensures State() == Parsed(old(State()))
    {
      hide Crypt, FromLe;
      ParseHeader();
      var optLen := ctrl % 16;
      if |payload| <= optLen + 8 + 4 {
        return;
      }
      var dataStart := optLen + 8;
      port := payload[dataStart];
      dataStart := dataStart + 1;
      dataEncrypted := payload[dataStart..];
      dataEncrypted := dataEncrypted[..|dataEncrypted| - 4];
      assert dataEncrypted == payload[dataStart..|payload| - 4];
      if session.Some? {
        data := LoramacDecrypt(if port == 0 then session.value.nwkSEncKey else session.value.appSKey,
                               dataEncrypted, cnt, devAddr, Direction(kind));
      }
    }

    /** The payload, composed first when there is none. */
    method GetPayload(keys: SessionKeys) returns (p: bytes)
      modifies this
      ensures State() == if old(payload) == [] then Composed(old(State()), keys) else old(State())
      ensures p == payload
    {
      if |payload| == 0 {
        Compose(keys);
      }
      p := payload;
    }

    method MicOfPayload(keys: SessionKeys) returns (mic: uint32)
      modifies this
      ensures State() == if old(payload) == [] then Composed(old(State()), keys) else old(State())
      ensures mic == MicOf(payload)
    {
      hide Composed, FromLe;
      var p := GetPayload(keys);
      if |p| < 4 {
        return 0;
      }
      mic := ExtractInt(p, |p| - 4, 4);
      assert p[|p| - 4..|p| - 4 + 4] == p[|p| - 4..];
    }

    /** Sets the received payload aside, composes the frame again and compares the two integrity codes. */
    method Verify(keys: SessionKeys) returns (ok: bool)
      modifies this
      ensures ok <==> Verifies(old(State()), keys)
      ensures payload == old(payload)
      ensures State() == if payload == [] then old(State()) else Encrypted(old(State()), keys)
    {
      hide Msg, Crypt, FrameMic, MicOf;
      if |payload| == 0 {
        return true;
      }
      var oldMic := MicOfPayload(keys);
      var received := payload;
      payload := [];
      var newMic := MicOfPayload(keys);
      payload := received;
      ok := newMic == oldMic;
    }

    method SetPayload(p: bytes)
      requires Readable(p)
      modifies this
      ensures State() == Parsed(old(State()).(payload := p))
    {
      hide Parsed;
      payload := p;
      Parse();
    }

    /** Attaches a session. A message with a payload is parsed again and must verify: false stands for the
        exception the code raises. */
    method SetDevice(keys: SessionKeys) returns (ok: bool)
      requires payload == [] || Readable(payload)
      modifies this
      ensures var f := old(State()).(session := Some(keys));
              if f.payload == [] then ok && State() == f
              else (ok <==> Verifies(Parsed(f), keys)) && State() == Encrypted(Parsed(f), keys)
    {
      hide Msg, Crypt, FrameMic, MicOf, FromLe, Verifies;
      session := Some(keys);
      ok := true;
      if |payload| != 0 {
        Parse();
        ok := Verify(keys);
      }
    }
  }

  // ---- What every message object keeps.

  datatype Call =
    | SetDevAddressCall(devAddr: uint32)
    | SetCtrlCall(ctrl: byte)
    | SetCntCall(cnt: uint16)
    | SetPortCall(port: byte)
    | SetOptsCall(opts: bytes)
    | SetDataCall(data: bytes)
    | SetPayloadCall(payload: bytes)
    | SetDeviceCall(session: SessionKeys)
    | GetPayloadCall(composing: SessionKeys)
    | VerifyCall(verifying: SessionKeys)

  /** Parsing, when the payload is long enough for the bytes the code reads. */
  function ParsedIfReadable(f: Frame): Frame {
    if Readable(f.payload) then Parsed(f) else f
  }

  function Called(f: Frame, call: Call): Frame {
    match call
    case SetDevAddressCall(value) => f.(devAddr := value, payload := [])
    case SetCtrlCall(value) => f.(ctrl := value, payload := [])
    case SetCntCall(value) => f.(cnt := value, payload := [])
    case SetPortCall(value) => f.(port := value, payload := [])
    case SetOptsCall(value) => f.(opts := value, optsEncrypted := [], payload := [])
    case SetDataCall(value) => f.(data := value, dataEncrypted := [], payload := [])
    case SetPayloadCall(p) => ParsedIfReadable(f.(payload := p))
    case SetDeviceCall(keys) =>
      var g := f.(session := Some(keys));
      if f.payload == [] then g else Encrypted(ParsedIfReadable(g), keys)
    case GetPayloadCall(keys) => if f.payload == [] then Composed(f, keys) else f
    case VerifyCall(keys) => if f.payload == [] then f else Encrypted(f, keys)
  }

  function CalledAll(f: Frame, calls: seq<Call>): Frame {
    if calls == [] then f else Called(CalledAll(f, calls[..|calls| - 1]), calls[|calls| - 1])
  }

  lemma ParsedFits(f: Frame)
    requires Readable(f.payload)
    ensures OptsFit(Parsed(f))
  {
    hide Crypt, FromLe;
  }

  lemma CallFits(f: Frame, call: Call)
    requires OptsFit(f)
    ensures OptsFit(Called(f, call))
  {
    hide Parsed, Msg, FrameMic, OptsCrypt, DataCrypt;
    if call.SetPayloadCall? && Readable(call.payload) {
      ParsedFits(f.(payload := call.payload));
    }
    if call.SetDeviceCall? && Readable(f.payload) {
      ParsedFits(f.(session := Some(call.session)));
    }
  }

  /** Whatever is called on a message object, its encrypted options stay fit, so RoundTrip is about every object. */
  lemma {:induction false} ObjectFits(k: Kind, calls: seq<Call>)
    ensures OptsFit(CalledAll(Fresh(k), calls))
  {
    hide OptsFit, Called;
    if calls == [] {
      FreshFits(k);
    } else {
      ObjectFits(k, calls[..|calls| - 1]);
      CallFits(CalledAll(Fresh(k), calls[..|calls| - 1]), calls[|calls| - 1]);
    }
  }

  lemma FreshFits(k: Kind)
    ensures OptsFit(Fresh(k))
  {}

  lemma MsgIgnoresPayload(f: Frame, p: bytes)
    ensures Msg(f.(payload := p)) == Msg(f)
  {}

  lemma EncryptedTwice(f: Frame, keys: SessionKeys, p: bytes)
    ensures Encrypted(Encrypted(f, keys).(payload := p), keys) == Encrypted(f, keys).(payload := p)
  {
    hide Crypt;
  }

  /** A frame taken off the network: the object parses it without a session and then under one; its fields are
      what the frame carries, and it is accepted exactly when the frame verifies. */
  method ReceiveFields(k: Kind, p: bytes, keys: SessionKeys) returns (f: Frame, ok: bool)
    requires Readable(p)
    ensures f == Received(k, p, keys) && (ok <==> Verifies(f, keys))
  {
    hide Parsed, Verifies, Crypt, Fresh;
    var m := new DataUp(k);
    m.SetPayload(p);
    ReceivedNonEmpty(k, p);
    m.session := Some(keys);
    m.Parse();
    f := m.State();
    ok := m.Verify(keys);
  }

  /** A message object that one session refused holds, after parsing under the next session, what a new object
      would hold: nothing is left of the first attempt. */
  lemma ReparseForNextSession(k: Kind, p: bytes, first: SessionKeys, next: SessionKeys)
    requires Readable(p)
    ensures var refused := Encrypted(Received(k, p, first), first);
            refused.payload == p && Parsed(refused.(session := Some(next))) == Received(k, p, next)
  {
    hide Crypt, FromLe, Received;
    ReceivedHeader(k, p, first);
    ReceivedHeader(k, p, next);
    CryptNothing(Received(k, p, first), first);
  }

  lemma ReceivedNonEmpty(k: Kind, p: bytes)
    requires Readable(p)
    ensures var f := Parsed(Fresh(k).(payload := p));
            f.payload == p && p != []
  {
    hide Crypt, FromLe;
  }
}
