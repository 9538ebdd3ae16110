/** The keys of a session over all runs: no pair of a key and an input of the payload cipher is used twice. */
module HandlerKeys {
  import opened Codec
  import opened Wrappers
  import opened DataFrame
  import opened HandlerModel
  import opened HandlerInvariant
  import opened HandlerRuns
  import Join
  import LoraAes

  // ---- Only a join changes what the keys of a session depend on.

  predicate SameIdentity(o: Session, p: Session) {
    p.networkId == o.networkId && p.keys == o.keys && p.nOnce == o.nOnce && p.devNOnce == o.devNOnce
  }

  predicate SessionSame(w: World, x: World, s: Sid) {
    (s in w.sessions <==> s in x.sessions) && (s in w.sessions ==> SameIdentity(w.sessions[s], x.sessions[s]))
  }

  /** Nothing joins. */
  ghost predicate Quiet(w: World, x: World) {
    x.counters.joins == w.counters.joins && forall s: Sid :: SessionSame(w, x, s)
  }

  lemma QuietThen(w: World, x: World, y: World)
    requires Quiet(w, x) && Quiet(x, y)
    ensures Quiet(w, y)
  {
    forall s: Sid ensures SessionSame(w, y, s) {
      assert SessionSame(w, x, s) && SessionSame(x, y, s);
    }
  }

  lemma TouchQuiet(w: World, s: Sid, o: Session)
    requires s in w.sessions && SameIdentity(w.sessions[s], o)
    ensures Quiet(w, Touch(w, s, o)) && Touch(w, s, o).sent == w.sent
  {}

  lemma {:induction false} MacScanQuiet(w: World, s: Sid, b: bytes, i: nat, lsnr: byte)
    requires s in w.sessions
    ensures Quiet(w, MacScan(w, s, b, i, lsnr)) && MacScan(w, s, b, i, lsnr).sent == w.sent
    decreases |b| - i
  {
    hide LinkCheck, TimingAnswer, Quiet, Step;
    if i >= |b| {
      NothingQuiet(w);
    } else {
      var x := MacCommand(w, s, b, i, lsnr);
      MacCommandQuiet(w, s, b, i, lsnr);
      MacScanQuiet(x, s, b, i + Step(b, i), lsnr);
      QuietThen(w, x, MacScan(x, s, b, i + Step(b, i), lsnr));
    }
  }

  lemma NothingQuiet(w: World)
    ensures Quiet(w, w)
  {}

  lemma MacCommandQuiet(w: World, s: Sid, b: bytes, i: nat, lsnr: byte)
    requires i < |b| && s in w.sessions
    ensures Quiet(w, MacCommand(w, s, b, i, lsnr)) && MacCommand(w, s, b, i, lsnr).sent == w.sent
  {
    hide LinkCheck, TimingAnswer;
  }

  lemma HeardQuiet(w: World, u: Uplink, f: Frame, c: Candidate)
    requires c.session in w.sessions
    ensures Quiet(w, Heard(w, u, f, c)) && Heard(w, u, f, c).sent == w.sent
  {
    hide MacScan, Quiet, AppendAll, TakeAck, TakeData;
    var w0 := w.(apps := TakeAck(w.apps, c.session, f.ctrl));
    var w1 := TakeData(w0, f, c, u.lsnr);
    AppsQuiet(w, w0.apps);
    TakeDataQuiet(w0, f, c, u.lsnr);
    QuietThen(w, w0, w1);
    MacScanQuiet(w1, c.session, f.opts, 0, u.lsnr);
    QuietThen(w, w1, MacScan(w1, c.session, f.opts, 0, u.lsnr));
  }

  lemma AppsQuiet(w: World, apps: Apps)
    ensures Quiet(w, w.(apps := apps))
  {}

  lemma TakeDataQuiet(w: World, f: Frame, c: Candidate, lsnr: byte)
    requires c.session in w.sessions
    ensures Quiet(w, TakeData(w, f, c, lsnr)) && TakeData(w, f, c, lsnr).sent == w.sent
  {
    hide MacScan, Quiet, AppendAll, Touch;
    var s := c.session;
    NothingQuiet(w);
    if f.cnt != w.sessions[s].fCntUp {
      var w1 := if f.data == [] then w
                else if f.port == 0 then MacScan(w, s, f.data, 0, lsnr)
                else w.(apps := AppendAll(w.apps, c.replies));
      MacScanQuiet(w, s, f.data, 0, lsnr);
      AppsQuiet(w, AppendAll(w.apps, c.replies));
      var o := w1.sessions[s].(fCntUp := f.cnt);
      TouchQuiet(w1, s, o);
      QuietThen(w, w1, Touch(w1, s, o));
    }
  }

  lemma AcceptQuiet(w: World, u: Uplink, f: Frame, c: Candidate)
    requires c.session in w.sessions
    ensures Quiet(w, Accept(w, u, f, c)) && Accept(w, u, f, c).sent == w.sent
  {
    hide Heard, Schedule, Answers, Quiet;
    var s, w1 := c.session, Heard(w, u, f, c);
    HeardQuiet(w, u, f, c);
    if Answers(w, u, f, c) {
      var item := EmptyItem(s, Deadline(u.now, w.sessions[s].rxDelay1), if ConfirmedUplink(u.kind) then ACK else 0);
      var w2 := Touch(w1, s, w1.sessions[s].(lastAccess := u.now));
      TouchQuiet(w1, s, w1.sessions[s].(lastAccess := u.now));
      QuietThen(w, w1, w2);
      AppsQuiet(w2, Schedule(w1.apps, item, 1));
      QuietThen(w, w2, w2.(apps := Schedule(w1.apps, item, 1)));
    }
  }

  lemma {:induction false} ProcessDataQuiet(w: World, u: Uplink, candidates: seq<Candidate>)
    requires Readable(u.payload)
    ensures Quiet(w, ProcessData(w, u, candidates)) && ProcessData(w, u, candidates).sent == w.sent
    decreases |candidates|
  {
    hide Quiet, Accept, Answers, VerifiesFor, FrameFor;
    NothingQuiet(w);
    if candidates != [] {
      var c := candidates[0];
      if c.session !in w.sessions || !VerifiesFor(w, u, c.session) {
        ProcessDataQuiet(w, u, candidates[1..]);
      } else {
        var f := FrameFor(w, u, c.session);
        AcceptQuiet(w, u, f, c);
        if !Answers(w, u, f, c) {
          var x := Accept(w, u, f, c);
          ProcessDataQuiet(x, u, candidates[1..]);
          QuietThen(w, x, ProcessData(x, u, candidates[1..]));
        }
      }
    }
  }

  lemma {:induction false} ClassCAllQuiet(w: World, order: seq<Sid>, now: nat, ctrl: byte)
    ensures Quiet(w, ClassCAll(w, order, now, ctrl)) && ClassCAll(w, order, now, ctrl).sent == w.sent
    decreases |order|
  {
    hide Quiet, ClassC;
    NothingQuiet(w);
    if order != [] {
      var x := ClassC(w, order[0], now, ctrl);
      ClassCQuiet(w, order[0], now, ctrl);
      ClassCAllQuiet(x, order[1..], now, ctrl);
      QuietThen(w, x, ClassCAll(x, order[1..], now, ctrl));
    }
  }

  lemma ClassCQuiet(w: World, s: Sid, now: nat, ctrl: byte)
    ensures Quiet(w, ClassC(w, s, now, ctrl)) && ClassC(w, s, now, ctrl).sent == w.sent
  {
    hide Schedule;
  }

  // ---- The keys of a session that has joined.

  /** The keys are those of the last join, under one application key. */
  predicate KeyedAs(o: Session, appKey: LoraAes.Key) {
    o.keys == Join.DerivedKeys(appKey, o.nOnce, o.networkId, o.devNOnce)
  }

  predicate SentKeyed(d: Sent, s: Sid, appKey: LoraAes.Key) {
    d.item.session == s && d.join > 0 ==> KeyedAs(d.session, appKey)
  }

  ghost predicate Keyed(w: World, s: Sid, appKey: LoraAes.Key) {
    && (s in w.sessions && Count(w.counters.joins, s) > 0 ==> KeyedAs(w.sessions[s], appKey))
    && (forall j | 0 <= j < |w.sent| :: SentKeyed(w.sent[j], s, appKey))
  }

  lemma QuietKeyed(w: World, x: World, s: Sid, appKey: LoraAes.Key)
    requires Keyed(w, s, appKey) && Quiet(w, x) && x.sent == w.sent
    ensures Keyed(x, s, appKey)
  {
    hide Join.DerivedKeys;
    assert SessionSame(w, x, s);
  }

  lemma SendOneKeyed(w: World, s: Sid, appKey: LoraAes.Key)
    requires Keyed(w, s, appKey) && HasHead(w)
    ensures Keyed(SendOne(w), s, appKey)
  {
    hide Join.DerivedKeys, Own, Others, WithAnswers, Payload, Bytes;
    var x, d := SendOne(w), NewSent(w);
    WithAnswersSession(w.apps.sendQueue[0], Bytes(Own(w.mac.commands, w.apps.sendQueue[0].session)));
    assert x.sent == w.sent + [d];
    forall j | 0 <= j < |x.sent| ensures SentKeyed(x.sent[j], s, appKey) {
      if j < |w.sent| {
        assert SentKeyed(w.sent[j], s, appKey);
      }
    }
  }

  lemma WithAnswersSession(item: Item, b: bytes)
    ensures WithAnswers(item, b).session == item.session
  {}

  lemma {:induction false} SendAllKeyed(w: World, curTs: uint32, s: Sid, appKey: LoraAes.Key)
    requires Keyed(w, s, appKey)
    ensures Keyed(SendAll(w, curTs), s, appKey)
    decreases |w.apps.sendQueue|
  {
    hide Keyed, NewSent, Own, Others, Payload;
    if Sendable(w, curTs) {
      SendOneKeyed(w, s, appKey);
      SendAllKeyed(SendOne(w), curTs, s, appKey);
    }
  }

  /** Joins of a session go by one application key. */
  predicate OneKey(e: Event, s: Sid, appKey: LoraAes.Key) {
    e.JoinEvent? && e.s == s ==> e.deviceKey == Some(appKey)
  }

  lemma JoinKeyed(w: World, j: Sid, deviceKey: Option<LoraAes.Key>, devNOnce: uint16, now: nat, s: Sid,
                  appKey: LoraAes.Key)
    requires Keyed(w, s, appKey) && (j == s ==> deviceKey == Some(appKey))
    ensures Keyed(JoinSession(w, j, deviceKey, devNOnce, now), s, appKey)
  {
    hide Join.DerivedKeys;
  }

  lemma LoadKeyed(w: World, l: Sid, session: Session, s: Sid, appKey: LoraAes.Key)
    requires Keyed(w, s, appKey) && (l !in w.sessions ==> Count(w.counters.joins, l) == 0)
    ensures Keyed(Load(w, l, session), s, appKey)
  {
    hide Join.DerivedKeys;
  }

  lemma AfterKeyed(w: World, e: Event, s: Sid, appKey: LoraAes.Key)
    requires Inv(w) && Keyed(w, s, appKey) && OneKey(e, s, appKey)
    ensures Keyed(After(w, e), s, appKey)
  {
    hide Inv, Keyed, Quiet, ProcessData, SendAll, ClassCAll, JoinSession, Load, Append;
    match e
    case LoadEvent(l, session) =>
      UnloadedUnjoined(w, l);
      LoadKeyed(w, l, session, s, appKey);
    case SendEvent(l, m) =>
      AppsQuiet(w, Append(w.apps, l, m));
      QuietKeyed(w, w.(apps := Append(w.apps, l, m)), s, appKey);
    case JoinEvent(l, k, n, now) => JoinKeyed(w, l, k, n, now, s, appKey);
    case UplinkEvent(u, candidates) =>
      if Readable(u.payload) {
        ProcessDataQuiet(w, u, candidates);
        QuietKeyed(w, ProcessData(w, u, candidates), s, appKey);
      }
    case TimerEvent(order, nowC, ctrl, now) =>
      ClassCAllQuiet(w, order, nowC, ctrl);
      QuietKeyed(w, ClassCAll(w, order, nowC, ctrl), s, appKey);
      SendAllKeyed(ClassCAll(w, order, nowC, ctrl), now % 0x1_0000_0000, s, appKey);
  }

  lemma UnloadedUnjoined(w: World, s: Sid)
    requires Inv(w)
    ensures s !in w.sessions ==> Count(w.counters.joins, s) == 0
  {
    hide AppsOk, SentOk, MacOk, RadioOk;
    assert CounterOk(w.sessions, w.counters, w.sent, s);
  }

  lemma {:induction false} RunKeyed(events: seq<Event>, s: Sid, appKey: LoraAes.Key)
    requires forall i | 0 <= i < |events| :: OneKey(events[i], s, appKey)
    ensures Keyed(Run(events), s, appKey)
  {
    if events != [] {
      hide Inv, Keyed, After;
      var before := events[..|events| - 1];
      RunKeyed(before, s, appKey);
      RunInv(before);
      AfterKeyed(Run(before), events[|events| - 1], s, appKey);
    }
  }

  // ---- No pair of key and input is used twice.

  datatype Purpose = Network | Application

  function KeyFor(d: Sent, p: Purpose): LoraAes.Key {
    if p.Network? then d.session.keys.nwkSEncKey else d.session.keys.appSKey
  }

  lemma NoncesDiffer(first: nat, i: nat, j: nat)
    requires i < j < i + 0x100_0000
    ensures (first + i) % 0x1_0000_0000 % 0x100_0000 != (first + j) % 0x1_0000_0000 % 0x100_0000
  {
    LowNonce(first + i);
    LowNonce(first + j);
  }

  lemma LowNonce(n: nat)
    ensures n % 0x1_0000_0000 % 0x100_0000 == n % 0x100_0000
  {}

  lemma KeysDiffer(a: Sent, b: Sent, appKey: LoraAes.Key, p: Purpose, q: Purpose)
    requires KeyedAs(a.session, appKey) && KeyedAs(b.session, appKey)
    requires a.session.nOnce % 0x100_0000 != b.session.nOnce % 0x100_0000
    ensures KeyFor(a, p) != KeyFor(b, q)
  {
    hide Join.DerivedKey;
    var o, r := a.session, b.session;
    Join.DerivedKeysDiffer(appKey, if p.Network? then 1 else 2, o.nOnce, o.networkId, o.devNOnce,
                           if q.Network? then 1 else 2, r.nOnce, r.networkId, r.devNOnce);
  }

  /** In every run in which a session joins under one application key: two of its downlinks since its first join never
      use the same pair of key and input of the payload cipher, for whatever purposes and blocks, as long as fewer
      than 65536 downlinks of one join, or fewer than 2^24 joins, lie between them. */
  lemma PairNeverRepeats(events: seq<Event>, s: Sid, appKey: LoraAes.Key, i: nat, j: nat, p: Purpose, q: Purpose,
                         m: nat, n: nat)
    requires forall e | e in events :: OneKey(e, s, appKey)
    requires i < j < |Run(events).sent|
    requires var a, b := Run(events).sent[i], Run(events).sent[j];
             && a.item.session == s && b.item.session == s && a.join > 0
             && if a.join == b.join then b.index < a.index + 0x1_0000 else b.join < a.join + 0x100_0000
    ensures var a, b := Run(events).sent[i], Run(events).sent[j];
            KeyFor(a, p) != KeyFor(b, q) || CipherInput(a, KeyFor(a, p), m) != CipherInput(b, KeyFor(b, q), n)
  {
    hide Run, CipherInput, AppsOk, MacOk, RadioOk, SentOk, CounterOk, SentIn, Base, FirstNonce, KeyedAs, KeyFor;
    var w := Run(events);
    var a, b := w.sent[i], w.sent[j];
    DownlinksIncrease(events, i, j);
    if a.join == b.join {
      KeystreamNeverRepeats(events, i, j, KeyFor(a, p), m, n);
    } else {
      RunInv(events);
      RunKeyed(events, s, appKey);
      assert SentKeyed(a, s, appKey) && SentKeyed(b, s, appKey);
      assert DownlinkOk(w.counters, w.sent, i) && DownlinkOk(w.counters, w.sent, j);
      NoncesDiffer(FirstNonce(w.counters, s), a.join, b.join);
      KeysDiffer(a, b, appKey, p, q);
    }
  }
}
