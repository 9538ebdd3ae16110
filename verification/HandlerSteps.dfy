/** What the steps of the message handler do to queues, sessions and the radio, with every constant spelled out. */
module HandlerSteps {
  import opened Codec
  import opened Wrappers
  import opened DataFrame
  import opened FrameBytes
  import opened HandlerModel
  import opened HandlerInvariant
  import HandlerKeys
  import HandlerRuns
  import LoraAes
  import Join

  // ---- Messages.

  /** The messages for a session among those an application sends, in order. */
  function For(replies: seq<(Sid, Message)>, x: Sid): seq<Message> {
    if replies == [] then []
    else (if replies[0].0 == x then [replies[0].1] else []) + For(replies[1..], x)
  }

  /** Messages that have just arrived. */
  function Waiting(ms: seq<Message>): seq<Entry> {
    seq(|ms|, i requires 0 <= i < |ms| => Entry(ms[i], 0))
  }

  lemma AppendEffect(a: Apps, s: Sid, m: Message, x: Sid)
    ensures var b := Append(a, s, m);
            && Queue(b, x) == Queue(a, x) + (if x == s then [Entry(m, 0)] else [])
            && Arrived(b, x) == Arrived(a, x) + (if x == s then [m] else [])
            && b.sendQueue == a.sendQueue && b.pushed == a.pushed
  {}

  /** What an application sends in return goes to the ends of the queues, in order. */
  lemma {:induction false} AppendAllEffect(a: Apps, replies: seq<(Sid, Message)>, x: Sid)
    ensures var b := AppendAll(a, replies);
            && Queue(b, x) == Queue(a, x) + Waiting(For(replies, x))
            && Arrived(b, x) == Arrived(a, x) + For(replies, x)
            && b.sendQueue == a.sendQueue && b.pushed == a.pushed
    decreases |replies|
  {
    hide Append, Queue, Arrived;
    if replies != [] {
      var b := Append(a, replies[0].0, replies[0].1);
      AppendEffect(a, replies[0].0, replies[0].1, x);
      AppendAllEffect(b, replies[1..], x);
      var head := if replies[0].0 == x then [replies[0].1] else [];
      assert Waiting(head + For(replies[1..], x)) == Waiting(head) + Waiting(For(replies[1..], x));
      assert Waiting(head) == if replies[0].0 == x then [Entry(replies[0].1, 0)] else [];
    } else {
      assert Waiting([]) == [];
    }
  }

  lemma {:induction false} ScanKeepsApps(w: World, s: Sid, b: bytes, i: nat, lsnr: byte)
    requires s in w.sessions
    ensures MacScan(w, s, b, i, lsnr).apps == w.apps
    decreases |b| - i
  {
    hide LinkCheck, TimingAnswer, Step;
    if i < |b| {
      ScanKeepsApps(MacCommand(w, s, b, i, lsnr), s, b, i + Step(b, i), lsnr);
    }
  }

  // ---- Uplinks.

  /** Whether an acknowledgement, bit 5 of the control byte, is for the front of a queue: a confirmed message that was
      transmitted. */
  predicate AckedFront(q: seq<Entry>, ctrl: byte) {
    ctrl / 32 % 2 == 1 && q != [] && q[0].msg.confirmed && q[0].transmitted > 0
  }

  /** The messages that an uplink brings in from the application: none with a repeated counter, without data, or on
      port zero. */
  function News(w: World, f: Frame, c: Candidate, x: Sid): seq<Message>
    requires c.session in w.sessions
  {
    if f.cnt != w.sessions[c.session].fCntUp && f.data != [] && f.port != 0 then For(c.replies, x) else []
  }

  /** The queue of x before anything is scheduled. */
  function HeardQueue(w: World, f: Frame, c: Candidate, x: Sid): seq<Entry>
    requires c.session in w.sessions
  {
    (if x == c.session && AckedFront(Queue(w.apps, x), f.ctrl) then Queue(w.apps, x)[1..] else Queue(w.apps, x))
    + Waiting(News(w, f, c, x))
  }

  lemma TakeAckEffect(a: Apps, s: Sid, ctrl: byte, x: Sid)
    ensures var b := TakeAck(a, s, ctrl);
            && Queue(b, x) == (if x == s && AckedFront(Queue(a, x), ctrl) then Queue(a, x)[1..] else Queue(a, x))
            && Arrived(b, x) == Arrived(a, x) && b.sendQueue == a.sendQueue && b.pushed == a.pushed
  {}

  /** When a session takes an uplink with bit 5 of the control byte set, and the front of its queue is confirmed and was
      transmitted, exactly that entry is gone before anything is scheduled; otherwise every entry stays. What the
      application sends in return follows at the ends of the queues. */
  lemma AckRemoves(w: World, u: Uplink, f: Frame, c: Candidate, x: Sid)
    requires c.session in w.sessions
    ensures var a := Heard(w, u, f, c).apps;
            && Queue(a, x) == HeardQueue(w, f, c, x)
            && Arrived(a, x) == Arrived(w.apps, x) + News(w, f, c, x)
            && a.sendQueue == w.apps.sendQueue && a.pushed == w.apps.pushed
  {
    hide TakeAck, AppendAll, MacScan, Queue, Arrived, For, AckedFront;
    var s := c.session;
    var w0 := w.(apps := TakeAck(w.apps, s, f.ctrl));
    TakeAckEffect(w.apps, s, f.ctrl, x);
    ScanKeepsApps(w0, s, f.data, 0, u.lsnr);
    AppendAllEffect(w0.apps, c.replies, x);
    NothingWaits();
    var w1 := TakeData(w0, f, c, u.lsnr);
    ScanKeepsApps(w1, s, f.opts, 0, u.lsnr);
  }

  lemma NothingWaits()
    ensures Waiting([]) == []
  {}

  /** An uplink is answered when it is confirmed, brought network commands, or finds a message in the queue. */
  predicate Answered(w: World, u: Uplink, f: Frame, c: Candidate)
    requires c.session in w.sessions
  {
    || u.kind == ConfirmedUp
    || f.opts != []
    || (f.cnt != w.sessions[c.session].fCntUp && f.data != [] && f.port == 0)
    || HeardQueue(w, f, c, c.session) != []
  }

  /** A downlink with the message at the front of a queue, or with none. */
  function Downlink(s: Sid, q: seq<Entry>, sendBefore: uint32, ctrl: byte): Item {
    if q == [] then Item(s, sendBefore, 0, [], [], ctrl, false)
    else Item(s, sendBefore, q[0].msg.port, q[0].msg.data, [], ctrl, q[0].msg.confirmed)
  }

  /** A queue after its front was scheduled: an unconfirmed message has left, a confirmed one is marked. */
  function Served(q: seq<Entry>, attempts: nat): seq<Entry> {
    if q == [] then [] else if q[0].msg.confirmed then [Entry(q[0].msg, attempts)] + q[1..] else q[1..]
  }

  lemma ScheduledEffect(a: Apps, s: Sid, sendBefore: uint32, ctrl: byte, attempts: nat, x: Sid)
    ensures var b := Schedule(a, EmptyItem(s, sendBefore, ctrl), attempts);
            && Queue(b, x) == (if x == s then Served(Queue(a, x), attempts) else Queue(a, x))
            && Arrived(b, x) == Arrived(a, x)
            && b.sendQueue == a.sendQueue + [Downlink(s, Queue(a, s), sendBefore, ctrl)]
  {}

  /** The whole effect of an uplink on queues and send queue. The answer is due one second after the uplink for each
      second of the receive delay, and acknowledges a confirmed uplink. */
  lemma UplinkQueues(w: World, u: Uplink, f: Frame, c: Candidate, x: Sid)
    requires c.session in w.sessions
    ensures var a, s := Accept(w, u, f, c).apps, c.session;
            var q, answered := HeardQueue(w, f, c, x), Answered(w, u, f, c);
            && Queue(a, x) == (if x == s && answered then Served(q, 1) else q)
            && Arrived(a, x) == Arrived(w.apps, x) + News(w, f, c, x)
            && a.sendQueue == w.apps.sendQueue +
               if !answered then []
               else [Downlink(s, HeardQueue(w, f, c, s), (u.now + 1000000 * w.sessions[s].rxDelay1) % 0x1_0000_0000,
                              if u.kind == ConfirmedUp then 0x20 else 0)]
  {
    hide Heard, Queue, Arrived, HeardQueue, Schedule, News;
    var s := c.session;
    AckRemoves(w, u, f, c, x);
    AckRemoves(w, u, f, c, s);
    assert Answers(w, u, f, c) <==> Answered(w, u, f, c);
    var deadline := Deadline(u.now, w.sessions[s].rxDelay1);
    ScheduledEffect(Heard(w, u, f, c).apps, s, deadline, if u.kind == ConfirmedUp then 0x20 else 0, 1, x);
  }

  /** What a scan of commands leaves of a session: all but its receive delay, which becomes eight seconds when the scan
      meets a timing request with its argument. */
  predicate SameButDelay(o: Session, p: Session) {
    p == o.(rxDelay1 := p.rxDelay1) && (p.rxDelay1 == o.rxDelay1 || p.rxDelay1 == 8)
  }

  lemma {:induction false} ScanSessions(w: World, s: Sid, b: bytes, i: nat, lsnr: byte, x: Sid)
    requires s in w.sessions
    ensures var v := MacScan(w, s, b, i, lsnr);
            && (x in v.sessions <==> x in w.sessions)
            && (x in w.sessions && x != s ==> v.sessions[x] == w.sessions[x])
            && SameButDelay(w.sessions[s], v.sessions[s])
    decreases |b| - i
  {
    hide LinkCheck, TimingAnswer, Step;
    if i < |b| {
      ScanSessions(MacCommand(w, s, b, i, lsnr), s, b, i + Step(b, i), lsnr, x);
    }
  }

  /** The whole effect of an uplink on sessions: the counter of the last uplink and, when it is answered, the time of
      the last downlink; other sessions stay as they are. */
  lemma UplinkSessions(w: World, u: Uplink, f: Frame, c: Candidate, x: Sid)
    requires c.session in w.sessions
    ensures var v, s := Accept(w, u, f, c), c.session;
            && (x in v.sessions <==> x in w.sessions)
            && (x in w.sessions && x != s ==> v.sessions[x] == w.sessions[x])
            && SameButDelay(w.sessions[s].(fCntUp := f.cnt, lastAccess := v.sessions[s].lastAccess), v.sessions[s])
            && v.sessions[s].lastAccess == if Answered(w, u, f, c) then u.now else w.sessions[s].lastAccess
  {
    hide TakeAck, AppendAll, MacScan, Queue, HeardQueue, Schedule, Answered;
    var s := c.session;
    UplinkQueues(w, u, f, c, s);
    AckRemoves(w, u, f, c, s);
    assert Answers(w, u, f, c) <==> Answered(w, u, f, c) by { AnsweredSame(w, u, f, c); }
    var w0 := w.(apps := TakeAck(w.apps, s, f.ctrl));
    ScanSessions(w0, s, f.data, 0, u.lsnr, x);
    ScanSessions(w0, s, f.data, 0, u.lsnr, s);
    var w1 := TakeData(w0, f, c, u.lsnr);
    ScanSessions(w1, s, f.opts, 0, u.lsnr, x);
    ScanSessions(w1, s, f.opts, 0, u.lsnr, s);
  }

  lemma AnsweredSame(w: World, u: Uplink, f: Frame, c: Candidate)
    requires c.session in w.sessions
    ensures Answers(w, u, f, c) <==> Answered(w, u, f, c)
  {
    hide Heard, Queue, HeardQueue;
    AckRemoves(w, u, f, c, c.session);
  }

  /** A scan sees nothing of a world but pending answers and the delay of the session. */
  lemma {:induction false} ScanSees(w: World, v: World, s: Sid, b: bytes, i: nat, lsnr: byte)
    requires s in w.sessions && s in v.sessions && w.mac == v.mac && w.sessions[s].rxDelay1 == v.sessions[s].rxDelay1
    ensures var x, y := MacScan(w, s, b, i, lsnr), MacScan(v, s, b, i, lsnr);
            x.mac == y.mac && x.sessions[s].rxDelay1 == y.sessions[s].rxDelay1
    decreases |b| - i
  {
    hide LinkCheck, TimingAnswer, Step;
    if i < |b| {
      ScanSees(MacCommand(w, s, b, i, lsnr), MacCommand(v, s, b, i, lsnr), s, b, i + Step(b, i), lsnr);
    }
  }

  /** The commands an uplink brings: those in its data, when that is new and on port zero, and then those in its
      options, are obeyed from the first byte on. */
  lemma UplinkCommands(w: World, u: Uplink, f: Frame, c: Candidate)
    requires c.session in w.sessions
    ensures var s, v := c.session, Accept(w, u, f, c);
            var w1 := if f.cnt != w.sessions[s].fCntUp && f.port == 0 then MacScan(w, s, f.data, 0, u.lsnr) else w;
            var w2 := MacScan(w1, s, f.opts, 0, u.lsnr);
            s in v.sessions && v.mac == w2.mac && v.sessions[s].rxDelay1 == w2.sessions[s].rxDelay1
  {
    hide TakeAck, AppendAll, MacScan, Schedule, Answers;
    var s := c.session;
    var w0 := w.(apps := TakeAck(w.apps, s, f.ctrl));
    ScanSees(w, w0, s, f.data, 0, u.lsnr);
    NothingScanned(w, s, u.lsnr);
    NothingScanned(w0, s, u.lsnr);
    var w1 := if f.cnt != w.sessions[s].fCntUp && f.port == 0 then MacScan(w, s, f.data, 0, u.lsnr) else w;
    var v1 := TakeData(w0, f, c, u.lsnr);
    ScanSees(w1, v1, s, f.opts, 0, u.lsnr);
    NothingScanned(w1, s, u.lsnr);
  }

  lemma NothingScanned(w: World, s: Sid, lsnr: byte)
    requires s in w.sessions
    ensures MacScan(w, s, [], 0, lsnr) == w
  {}

  // ---- The other steps.

  /** A session that is loaded again stays as it is. */
  lemma LoadEffect(w: World, s: Sid, session: Session)
    ensures var v := Load(w, s, session);
            && v.sessions == (if s in w.sessions then w.sessions else w.sessions[s := session])
            && v.apps == w.apps && v.mac == w.mac && v.radio == w.radio && v.sent == w.sent
  {}

  /** The timer serves the class C sessions in turn, and then sends from the head of the queue as long as that is
      possible. */
  lemma TimerEffect(w: World, order: seq<Sid>, nowC: nat, ctrl: byte, now: nat)
    ensures order != [] ==>
              ProcessSendQueue(w, order, nowC, ctrl, now) ==
              ProcessSendQueue(ClassC(w, order[0], nowC, ctrl), order[1..], nowC, ctrl, now)
    ensures order == [] && Sendable(w, now % 0x1_0000_0000) ==>
              ProcessSendQueue(w, order, nowC, ctrl, now) == ProcessSendQueue(SendOne(w), order, nowC, ctrl, now)
    ensures order == [] && !Sendable(w, now % 0x1_0000_0000) ==> ProcessSendQueue(w, order, nowC, ctrl, now) == w
  {
    hide ClassC, SendOne, Sendable;
  }

  /** What one command of a scan does: a link check request is counted or answered, and a timing request with its
      argument sets the delay to eight seconds, the low bits of its own identifier, and is answered; the scan moves over
      the arguments of a command. */
  lemma CommandEffect(w: World, s: Sid, b: bytes, i: nat, lsnr: byte)
    requires i < |b| && s in w.sessions
    ensures var v, d := MacCommand(w, s, b, i, lsnr), b[i];
            && (d == 2 ==> v.sessions == w.sessions && v.mac == LinkCheck(w.mac, s, lsnr))
            && (d == 8 && i + 1 < |b| ==>
                  && v.sessions == w.sessions[s := w.sessions[s].(rxDelay1 := 8)]
                  && v.mac.commands == w.mac.commands + [Command(8, s, [])])
            && (d != 2 && !(d == 8 && i + 1 < |b|) ==> v == w)
            && Step(b, i) == if d == 3 || d == 5 || d == 7 || (d == 8 && i + 1 < |b|) then 2
                             else if d == 6 then 3 else 1
  {
    hide LinkCheck;
  }

  /** The first request of a session since its last answers adds an answer with the signal level and a count of one; the
      next ones count in that answer, up to 255. */
  lemma LinkCheckEffect(m: Mac, s: Sid, lsnr: byte, j: nat)
    requires j <= |m.commands| && forall i | 0 <= i < j :: !(m.commands[i].session == s && m.commands[i].id == 2)
    ensures j == |m.commands| ==> LinkCheck(m, s, lsnr).commands == m.commands + [Command(2, s, [lsnr, 1])]
    ensures j < |m.commands| && m.commands[j].session == s && m.commands[j].id == 2 && |m.commands[j].params| == 2
            && 0 < m.commands[j].params[1] < 255 ==>
              LinkCheck(m, s, lsnr).commands ==
              m.commands[j := Command(2, s, [m.commands[j].params[0], m.commands[j].params[1] + 1])]
  {
    var k := FirstLinkAnswer(m.commands, s);
    if j < k {
      assert m.commands[j].session != s || m.commands[j].id != 2;
    }
  }

  /** A class C session with a message waiting, idle for a second, gets a downlink due at once; its front is marked with
      one more attempt. */
  lemma ClassCEffect(w: World, s: Sid, now: nat, ctrl: byte, x: Sid)
    ensures var v, q := ClassC(w, s, now, ctrl), Queue(w.apps, s);
            if s in w.sessions && w.sessions[s].classC && q != [] && now >= w.sessions[s].lastAccess + 1000000 then
              && v.sessions == w.sessions[s := w.sessions[s].(lastAccess := now)]
              && Queue(v.apps, x) == (if x == s then Served(q, q[0].transmitted + 1) else Queue(w.apps, x))
              && Arrived(v.apps, x) == Arrived(w.apps, x)
              && v.apps.sendQueue == w.apps.sendQueue + [Downlink(s, q, now % 0x1_0000_0000, ctrl)]
            else v == w
  {
    hide Schedule, Queue, Arrived;
    if ClassCReady(w, s, now) {
      ScheduledEffect(w.apps, s, now % 0x1_0000_0000, ctrl, Queue(w.apps, s)[0].transmitted + 1, x);
    }
  }

  /** A frame that carries the fields of a downlink. */
  function DownText(item: Item, o: Session): bytes {
    FrameText(if item.confirmed then ConfirmedDown else UnconfirmedDown, o.deviceAddr, item.ctrl,
              o.fCntDown % 0x1_0000, item.port % 256, item.opts, item.data, o.keys)
  }

  /** Sending the head of the queue: the radio gets its frame and integrity code, with the pending answers of the
      session behind the data on port zero and in place of the options on other ports; the session counts the downlink.
      */
  lemma SendEffect(w: World)
    requires HasHead(w)
    ensures var head := w.apps.sendQueue[0];
            var v, o, answers := SendOne(w), w.sessions[head.session], Bytes(Own(w.mac.commands, head.session));
            var item := if answers == [] then head
                        else if head.port == 0 then head.(data := head.data + answers)
                        else head.(opts := answers);
            var kind := if item.confirmed then ConfirmedDown else UnconfirmedDown;
            var msg := DownText(item, o);
            var block := SentBlock(kind, o.deviceAddr, o.fCntDown % 0x1_0000, |msg|);
            && v.radio == w.radio + [msg + LoraAes.Mic(o.keys.sNwkSIntKey, block + msg)]
            && v.sessions == w.sessions[head.session := o.(fCntDown := (o.fCntDown + 1) % 0x1_0000_0000)]
            && v.apps == w.apps.(sendQueue := w.apps.sendQueue[1..])
            && v.mac.commands == Others(w.mac.commands, head.session)
  {
    hide Composed, FrameText, SentBlock, LoraAes.Mic, Own, Others, Bytes;
    var d := NewSent(w);
    ComposedBytes(DownFrame(d.item, d.session), d.session.keys);
  }

  /** The bytes of answers: the identifier of each and its parameters. */
  lemma {:induction false} BytesConcat(a: seq<Command>, c: Command)
    ensures Bytes(a + [c]) == Bytes(a) + ([c.id] + c.params)
  {
    if a == [] {
      assert a + [c] == [c] && Bytes([c]) == [c.id] + c.params + Bytes([]);
    } else {
      assert (a + [c])[1..] == a[1..] + [c];
      BytesConcat(a[1..], c);
    }
  }

  /** The queue is sent as long as its head is not more than 200 milliseconds late and the clock does not read zero. */
  lemma SendableIs(w: World, ts: uint32)
    ensures Sendable(w, ts) <==>
            && w.apps.sendQueue != [] && w.apps.sendQueue[0].session in w.sessions && ts != 0
            && w.apps.sendQueue[0].sendBefore >= (ts - 200000) % 0x1_0000_0000
  {}

  /** A join that is accepted: it is refused only when it repeats a last nonce other than zero. */
  lemma JoinEffect(w: World, s: Sid, appKey: LoraAes.Key, devNOnce: uint16, now: nat)
    ensures var v := JoinSession(w, s, Some(appKey), devNOnce, now);
            && v.apps == w.apps && v.mac == w.mac && v.radio == w.radio && v.sent == w.sent
            && if s in w.sessions && (w.sessions[s].devNOnce == 0 || w.sessions[s].devNOnce != devNOnce) then
                 && s in v.sessions
                 && var o, p := w.sessions[s], v.sessions[s];
                    && v.sessions == w.sessions[s := p]
                    && p == o.(nOnce := (o.nOnce + 1) % 0x1_0000_0000, devNOnce := devNOnce, fCntUp := 0xFFFF_FFFF,
                               fCntDown := 0, lastAccess := now, keys := p.keys)
                    && Join.StandardKeys(p.keys, appKey, p.nOnce, o.networkId, devNOnce)
               else v == w
  {
    hide Join.DerivedKeys, Join.StandardKeys;
    if s in w.sessions {
      Join.DerivedStandard(appKey, (w.sessions[s].nOnce + 1) % 0x1_0000_0000, w.sessions[s].networkId, devNOnce);
    }
  }

  /** The sessions with the address of the uplink are tried in turn: those it does not verify for are passed over, and
      the first one that answers it is the last. */
  lemma FirstTaken(w: World, u: Uplink, candidates: seq<Candidate>)
    requires Readable(u.payload) && candidates != []
    ensures var c := candidates[0];
            ProcessData(w, u, candidates) ==
            if c.session in w.sessions && VerifiesFor(w, u, c.session) then
              var v := Accept(w, u, FrameFor(w, u, c.session), c);
              if Answered(w, u, FrameFor(w, u, c.session), c) then v else ProcessData(v, u, candidates[1..])
            else ProcessData(w, u, candidates[1..])
  {
    hide Accept, Answers, Answered, VerifiesFor, FrameFor;
    var c := candidates[0];
    if c.session in w.sessions {
      AnsweredSame(w, u, FrameFor(w, u, c.session), c);
    }
  }

  // ---- When a confirmed message leaves its queue.

  /** Message k of a session is confirmed and has not left its queue. */
  predicate Stays(a: Apps, x: Sid, k: nat) {
    |Arrived(a, x)| - |Queue(a, x)| <= k < |Arrived(a, x)| && Arrived(a, x)[k].confirmed
  }

  /** The session is a candidate of the uplink, the uplink verifies for it and has bit 5 of its control byte set, and
      message k is at the front of its queue and was transmitted. */
  predicate AckedBy(w: World, u: Uplink, candidates: seq<Candidate>, x: Sid, k: nat) {
    && |u.payload| >= 8 && Readable(u.payload) && u.payload[5] / 32 % 2 == 1
    && (exists i | 0 <= i < |candidates| :: candidates[i].session == x)
    && x in w.sessions && VerifiesFor(w, u, x)
    && Queue(w.apps, x) != [] && Queue(w.apps, x)[0].transmitted > 0
    && k == |Arrived(w.apps, x)| - |Queue(w.apps, x)|
  }

  lemma ServedStays(arrived: seq<Message>, q: seq<Entry>, attempts: nat, k: nat)
    requires QueueOk(arrived, q) && |arrived| - |q| <= k < |arrived| && arrived[k].confirmed
    ensures |arrived| - |Served(q, attempts)| <= k
  {}

  lemma ScheduleStays(a: Apps, s: Sid, sendBefore: uint32, ctrl: byte, attempts: nat, x: Sid, k: nat)
    requires QueueOk(Arrived(a, x), Queue(a, x)) && Stays(a, x, k)
    ensures Stays(Schedule(a, EmptyItem(s, sendBefore, ctrl), attempts), x, k)
  {
    hide Schedule, QueueOk, Served;
    ScheduledEffect(a, s, sendBefore, ctrl, attempts, x);
    if x == s {
      ServedStays(Arrived(a, x), Queue(a, x), attempts, k);
    }
  }

  lemma QueuesOk(w: World, x: Sid)
    requires Inv(w)
    ensures QueueOk(Arrived(w.apps, x), Queue(w.apps, x))
  {
    hide QueueOk, MacOk, RadioOk, CountersOk, SentOk, TimesOk;
    assert SessionOk(w.apps, x);
  }

  lemma AcceptStays(w: World, u: Uplink, f: Frame, c: Candidate, x: Sid, k: nat)
    requires Inv(w) && c.session in w.sessions && Stays(w.apps, x, k)
    requires !(x == c.session && AckedFront(Queue(w.apps, x), f.ctrl) && k == |Arrived(w.apps, x)| - |Queue(w.apps, x)|)
    ensures Stays(Accept(w, u, f, c).apps, x, k)
  {
    hide Inv, Heard, Schedule, Answers, Queue, Arrived, News, EmptyItem;
    var s, w1 := c.session, Heard(w, u, f, c);
    AckRemoves(w, u, f, c, x);
    HandlerRuns.HeardKeeps(w, u, f, c);
    QueuesOk(w1, x);
    assert Stays(w1.apps, x, k);
    if Answers(w, u, f, c) {
      var deadline := Deadline(u.now, w.sessions[s].rxDelay1);
      ScheduleStays(w1.apps, s, deadline, if u.kind == ConfirmedUp then 0x20 else 0, 1, x, k);
    }
  }

  lemma SameReading(w: World, v: World, u: Uplink, x: Sid)
    requires Readable(u.payload) && HandlerKeys.Quiet(w, v)
    ensures x in w.sessions <==> x in v.sessions
    ensures x in w.sessions ==> (VerifiesFor(w, u, x) <==> VerifiesFor(v, u, x))
  {
    hide Received, Verifies;
    assert HandlerKeys.SessionSame(w, v, x);
  }

  lemma {:induction false} DataLeaves(w: World, u: Uplink, candidates: seq<Candidate>, x: Sid, k: nat)
    requires Inv(w) && Readable(u.payload) && Stays(w.apps, x, k)
    requires !Stays(ProcessData(w, u, candidates).apps, x, k)
    ensures AckedBy(w, u, candidates, x, k)
    decreases |candidates|
  {
    hide Inv, Accept, Answers, VerifiesFor, FrameFor, Queue, Arrived, HandlerKeys.Quiet, Stays;
    if candidates != [] {
      var c, rest := candidates[0], candidates[1..];
      if c.session !in w.sessions || !VerifiesFor(w, u, c.session) {
        DataLeaves(w, u, rest, x, k);
        CandidateAmong(w, u, candidates, x, k);
      } else {
        var f := FrameFor(w, u, c.session);
        var v := Accept(w, u, f, c);
        ControlByte(w, u, c.session);
        HandlerRuns.AcceptKeeps(w, u, f, c);
        if x == c.session && AckedFront(Queue(w.apps, x), f.ctrl) && k == |Arrived(w.apps, x)| - |Queue(w.apps, x)| {
          assert candidates[0].session == x;
        } else {
          AcceptStays(w, u, f, c, x, k);
          DataLeaves(v, u, rest, x, k);
          HandlerKeys.AcceptQuiet(w, u, f, c);
          SameReading(w, v, u, x);
          LaterFront(w, u, f, c, x, k);
          CandidateAmong(v, u, candidates, x, k);
        }
      }
    }
  }

  lemma CandidateAmong(w: World, u: Uplink, candidates: seq<Candidate>, x: Sid, k: nat)
    requires candidates != [] && AckedBy(w, u, candidates[1..], x, k)
    ensures exists i | 0 <= i < |candidates| :: candidates[i].session == x
  {
    var i :| 0 <= i < |candidates[1..]| && candidates[1..][i].session == x;
    assert candidates[i + 1].session == x;
  }

  lemma ControlByte(w: World, u: Uplink, s: Sid)
    requires Readable(u.payload) && s in w.sessions
    ensures FrameFor(w, u, s).ctrl == u.payload[5]
  {
    hide Received;
    ReceivedHeader(u.kind, u.payload, w.sessions[s].keys);
  }

  /** A message that stays when another session took the uplink without answering it is where it was; and a session that
      did not answer has no message left. */
  lemma LaterFront(w: World, u: Uplink, f: Frame, c: Candidate, x: Sid, k: nat)
    requires c.session in w.sessions && !Answers(w, u, f, c) && Stays(w.apps, x, k)
    requires var v := Accept(w, u, f, c);
             && Stays(v.apps, x, k) && Queue(v.apps, x) != [] && Queue(v.apps, x)[0].transmitted > 0
             && k == |Arrived(v.apps, x)| - |Queue(v.apps, x)|
    ensures Queue(w.apps, x) != [] && Queue(w.apps, x)[0].transmitted > 0
    ensures k == |Arrived(w.apps, x)| - |Queue(w.apps, x)|
  {
    hide Accept, Answers, Queue, Arrived, News;
    UplinkQueues(w, u, f, c, x);
    AnsweredSame(w, u, f, c);
  }

  lemma {:induction false} ClassCStays(w: World, order: seq<Sid>, now: nat, ctrl: byte, x: Sid, k: nat)
    requires Inv(w) && Stays(w.apps, x, k)
    ensures Stays(ClassCAll(w, order, now, ctrl).apps, x, k)
    decreases |order|
  {
    hide Inv, Stays, Schedule, Queue, QueueOk;
    if order != [] {
      var s := order[0];
      QueuesOk(w, x);
      if ClassCReady(w, s, now) {
        ScheduleStays(w.apps, s, now % 0x1_0000_0000, ctrl, Queue(w.apps, s)[0].transmitted + 1, x, k);
      }
      HandlerRuns.ClassCKeeps(w, s, now, ctrl);
      ClassCStays(ClassC(w, s, now, ctrl), order[1..], now, ctrl, x, k);
    }
  }

  lemma {:induction false} SendingStays(w: World, ts: uint32, x: Sid, k: nat)
    requires Stays(w.apps, x, k)
    ensures Stays(SendAll(w, ts).apps, x, k)
    decreases |w.apps.sendQueue|
  {
    hide NewSent, Payload, Others;
    if Sendable(w, ts) {
      SendingStays(SendOne(w), ts, x, k);
    }
  }

  /** In every run: a confirmed message leaves its queue only when an uplink that verifies for its session comes in with
      bit 5 of its control byte set, while the message is at the front and was transmitted. */
  lemma ConfirmedLeaves(events: seq<Event>, e: Event, x: Sid, k: nat)
    requires Stays(Run(events).apps, x, k) && !Stays(Run(events + [e]).apps, x, k)
    ensures e.UplinkEvent? && AckedBy(Run(events), e.u, e.candidates, x, k)
  {
    hide Inv, ProcessData, SendAll, ClassCAll, JoinSession, Load, Append, Stays, AckedBy, Run;
    HandlerRuns.RunInv(events);
    var w := Run(events);
    assert Run(events + [e]) == After(w, e) by { OneMoreEvent(events, e); }
    match e
    case LoadEvent(s, session) => LoadKeepsApps(w, s, session);
    case SendEvent(s, m) => AppendStays(w.apps, s, m, x, k);
    case JoinEvent(s, key, n, now) => JoinKeepsApps(w, s, key, n, now);
    case UplinkEvent(u, candidates) =>
      if Readable(u.payload) {
        DataLeaves(w, u, candidates, x, k);
      }
    case TimerEvent(order, nowC, ctrl, now) =>
      ClassCStays(w, order, nowC, ctrl, x, k);
      SendingStays(ClassCAll(w, order, nowC, ctrl), now % 0x1_0000_0000, x, k);
  }

  lemma OneMoreEvent(events: seq<Event>, e: Event)
    ensures Run(events + [e]) == After(Run(events), e)
  {
    hide After;
    assert (events + [e])[..|events|] == events;
  }

  lemma LoadKeepsApps(w: World, s: Sid, session: Session)
    ensures Load(w, s, session).apps == w.apps
  {}

  lemma JoinKeepsApps(w: World, s: Sid, key: Option<LoraAes.Key>, n: uint16, now: nat)
    ensures JoinSession(w, s, key, n, now).apps == w.apps
  {
    hide HandlerModel.Joined;
  }

  lemma AppendStays(a: Apps, s: Sid, m: Message, x: Sid, k: nat)
    requires Stays(a, x, k)
    ensures Stays(Append(a, s, m), x, k)
  {}
}
