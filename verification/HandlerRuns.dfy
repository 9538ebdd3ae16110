/** Safety of the message handler over all runs. */
module HandlerRuns {
  import opened Codec
  import opened Wrappers
  import opened DataFrame
  import opened HandlerModel
  import opened HandlerInvariant
  import LoraAes
  import LoraCipher

  // ---- Every event keeps the invariant.

  lemma HeardKeeps(w: World, u: Uplink, f: Frame, c: Candidate)
    requires Inv(w) && c.session in w.sessions
    ensures Inv(Heard(w, u, f, c))
    ensures Heard(w, u, f, c).apps.pushed == w.apps.pushed
  {
    hide AppsOk, SentOk, CountersOk, MacOk, RadioOk, MacScan, AppendAll, Append;
    var s := c.session;
    var w0 := w.(apps := TakeAck(w.apps, s, f.ctrl));
    if Acknowledged(Queue(w.apps, s)) {
      PopKeeps(w.apps, s);
    }
    assert Inv(w0);
    TakeDataKeeps(w0, f, c, u.lsnr);
    MacScanKeeps(TakeData(w0, f, c, u.lsnr), s, f.opts, 0, u.lsnr);
  }

  lemma TakeDataKeeps(w: World, f: Frame, c: Candidate, lsnr: byte)
    requires Inv(w) && c.session in w.sessions
    ensures Inv(TakeData(w, f, c, lsnr)) && TakeData(w, f, c, lsnr).apps.pushed == w.apps.pushed
  {
    hide AppsOk, SentOk, CountersOk, MacOk, RadioOk, MacScan, AppendAll;
    var s := c.session;
    if f.cnt != w.sessions[s].fCntUp {
      var w1 := if f.data == [] then w
                else if f.port == 0 then MacScan(w, s, f.data, 0, lsnr)
                else w.(apps := AppendAll(w.apps, c.replies));
      MacScanKeeps(w, s, f.data, 0, lsnr);
      AppendAllKeeps(w.apps, c.replies);
      assert Inv(w1);
      TouchKeeps(w1, s, w1.sessions[s].(fCntUp := f.cnt));
    }
  }

  lemma ScheduleInWorld(w: World, item: Item, attempts: nat)
    requires Inv(w) && attempts > 0 && Empty(item) && item.session in w.sessions
    ensures Inv(w.(apps := Schedule(w.apps, item, attempts)))
    ensures |Schedule(w.apps, item, attempts).pushed| == |w.apps.pushed| + 1
  {
    hide AppsOk, CountersOk, MacOk, RadioOk, Schedule, NewPush;
    ScheduleKeeps(w.apps, item, attempts);
    ScheduleEffect(w.apps, item, attempts, item.session);
  }

  /** An uplink that a session takes schedules one downlink when it is answered, and none otherwise. */
  lemma AcceptKeeps(w: World, u: Uplink, f: Frame, c: Candidate)
    requires Inv(w) && c.session in w.sessions
    ensures Inv(Accept(w, u, f, c))
    ensures |Accept(w, u, f, c).apps.pushed| == |w.apps.pushed| + if Answers(w, u, f, c) then 1 else 0
  {
    hide Inv, Heard, Schedule;
    var s, w1 := c.session, Heard(w, u, f, c);
    HeardKeeps(w, u, f, c);
    if Answers(w, u, f, c) {
      var item := EmptyItem(s, Deadline(u.now, w.sessions[s].rxDelay1), if ConfirmedUplink(u.kind) then ACK else 0);
      ScheduleInWorld(w1, item, 1);
      var w2 := w1.(apps := Schedule(w1.apps, item, 1));
      TouchKeeps(w2, s, w2.sessions[s].(lastAccess := u.now));
    }
  }

  /** However many sessions share the address, an uplink schedules at most one downlink. */
  lemma {:induction false} ProcessDataKeeps(w: World, u: Uplink, candidates: seq<Candidate>)
    requires Inv(w) && Readable(u.payload)
    ensures Inv(ProcessData(w, u, candidates))
    ensures |w.apps.pushed| <= |ProcessData(w, u, candidates).apps.pushed| <= |w.apps.pushed| + 1
    decreases |candidates|
  {
    hide Inv, Accept, Answers, VerifiesFor, FrameFor;
    if candidates != [] {
      var c := candidates[0];
      if c.session !in w.sessions || !VerifiesFor(w, u, c.session) {
        ProcessDataKeeps(w, u, candidates[1..]);
      } else {
        var f := FrameFor(w, u, c.session);
        AcceptKeeps(w, u, f, c);
        if !Answers(w, u, f, c) {
          ProcessDataKeeps(Accept(w, u, f, c), u, candidates[1..]);
        }
      }
    }
  }

  lemma ClassCKeeps(w: World, s: Sid, now: nat, ctrl: byte)
    requires Inv(w)
    ensures Inv(ClassC(w, s, now, ctrl))
  {
    hide Inv, Schedule;
    if ClassCReady(w, s, now) {
      var item := EmptyItem(s, now % 0x1_0000_0000, ctrl);
      var attempts := Queue(w.apps, s)[0].transmitted + 1;
      ScheduleInWorld(w, item, attempts);
      TouchKeeps(w.(apps := Schedule(w.apps, item, attempts)), s, w.sessions[s].(lastAccess := now));
    }
  }

  lemma {:induction false} ClassCAllKeeps(w: World, order: seq<Sid>, now: nat, ctrl: byte)
    requires Inv(w)
    ensures Inv(ClassCAll(w, order, now, ctrl))
    decreases |order|
  {
    hide Inv, ClassC;
    if order != [] {
      ClassCKeeps(w, order[0], now, ctrl);
      ClassCAllKeeps(ClassC(w, order[0], now, ctrl), order[1..], now, ctrl);
    }
  }

  lemma {:induction false} SendAllKeeps(w: World, curTs: uint32)
    requires Inv(w)
    ensures Inv(SendAll(w, curTs))
    decreases |w.apps.sendQueue|
  {
    hide Inv, NewSent, Own, Others, Payload;
    if Sendable(w, curTs) {
      SendOneKeeps(w);
      SendAllKeeps(SendOne(w), curTs);
    }
  }

  lemma AfterKeeps(w: World, e: Event)
    requires Inv(w)
    ensures Inv(After(w, e))
  {
    hide Inv, ProcessData, SendAll, ClassCAll, JoinSession, Load, Append;
    match e
    case LoadEvent(s, session) => LoadKeeps(w, s, session);
    case SendEvent(s, m) => AppendInWorld(w, s, m);
    case JoinEvent(s, k, n, now) => JoinKeeps(w, s, k, n, now);
    case UplinkEvent(u, candidates) =>
      if Readable(u.payload) {
        ProcessDataKeeps(w, u, candidates);
      }
    case TimerEvent(order, nowC, ctrl, now) =>
      ClassCAllKeeps(w, order, nowC, ctrl);
      SendAllKeeps(ClassCAll(w, order, nowC, ctrl), now % 0x1_0000_0000);
  }

  lemma AppendInWorld(w: World, s: Sid, m: Message)
    requires Inv(w)
    ensures Inv(w.(apps := Append(w.apps, s, m)))
  {
    hide AppsOk, CountersOk, MacOk, RadioOk, SentOk;
    AppendKeeps(w.apps, s, m);
  }

  lemma {:induction false} RunInv(events: seq<Event>)
    ensures Inv(Run(events))
  {
    if events != [] {
      hide Inv, After;
      RunInv(events[..|events| - 1]);
      AfterKeeps(Run(events[..|events| - 1]), events[|events| - 1]);
    }
  }

  // ---- What this means for runs.

  /** In every run: an unconfirmed message that has left its queue was scheduled exactly once, one that has not was
      never scheduled; a confirmed message that has left was scheduled at least once. */
  lemma MessagesScheduled(events: seq<Event>, s: Sid, k: nat)
    requires k < |Arrived(Run(events).apps, s)|
    ensures var a := Run(events).apps;
            var left := k < |Arrived(a, s)| - |Queue(a, s)|;
            var times := Times(a.pushed, s, k);
            && (!Arrived(a, s)[k].confirmed ==> times == if left then 1 else 0)
            && (Arrived(a, s)[k].confirmed && left ==> times >= 1)
            && (times > 0 && !left ==> Arrived(a, s)[k].confirmed && k == |Arrived(a, s)| - |Queue(a, s)|)
  {
    hide Run, Times;
    RunInv(events);
    var a := Run(events).apps;
    assert SessionOk(a, s);
    assert TimesOk(Arrived(a, s), Queue(a, s), k, Times(a.pushed, s, k));
  }

  /** In every run: what was sent is an initial part of what was scheduled, in order and with the answers to MAC
      commands added, and the radio got exactly the bytes of these downlinks. */
  lemma SentInOrder(events: seq<Event>, i: nat)
    requires i < |Run(events).sent|
    ensures var w := Run(events);
            && i < |w.apps.pushed| && |w.radio| == |w.sent|
            && w.sent[i].item == WithAnswers(w.apps.pushed[i].item, Bytes(w.sent[i].answers))
            && w.radio[i] == Payload(w.sent[i].item, w.sent[i].session)
            && (forall c | c in w.sent[i].answers :: c.session == w.sent[i].item.session)
  {
    hide Run, AppsOk, MacOk, Payload, WithAnswers, Bytes, CounterOk;
    RunInv(events);
    var w := Run(events);
    assert DownlinkOk(w.counters, w.sent, i);
  }

  /** In every run: the downlinks that wait belong to sessions that exist, so that only a stale head, or a clock
      that reads zero, can stop the send queue. */
  lemma QueueStopsAtStaleHead(events: seq<Event>, curTs: uint32)
    ensures var w := Run(events);
            Sendable(w, curTs) <==>
            w.apps.sendQueue != [] && curTs != 0 && w.apps.sendQueue[0].sendBefore >= (curTs - 200000) % 0x1_0000_0000
  {
    hide Run, AppsOk, MacOk, RadioOk, SentOk, CountersOk;
    RunInv(events);
  }

  /** In every run: the answers of a session that came up are those that were sent, followed by those pending. */
  lemma AnswersSentOnce(events: seq<Event>, s: Sid)
    ensures var w := Run(events);
            Get(w.mac.issued, s) == SentIds(w.sent, s) + Ids(Own(w.mac.commands, s))
  {
    hide Run, AppsOk, CountersOk, RadioOk, SentOk, Own, Ids, SentIds;
    RunInv(events);
    assert AnswersOk(Run(events).mac, Run(events).sent, s);
  }

  /** In every run: with fewer than 256 link check requests since its last downlink a session has one pending link
      check answer if there was a request, none otherwise, and the answer holds the number of requests; with more,
      the count starts again and further answers are added. */
  lemma LinkChecksCounted(events: seq<Event>, s: Sid)
    ensures var m := Run(events).mac;
            var r, l := Count(m.links, s), Links(m.commands, s);
            && |l| == (r + 255) / 256
            && (0 < r < 256 ==> |l| == 1 && Gateways(l[0]) == r)
            && (r > 0 ==> Gateways(l[0]) == r % 256)
  {
    hide Run, AppsOk, CountersOk, RadioOk, SentOk, Links, AnswersOk;
    RunInv(events);
    assert LinksOk(Run(events).mac, s);
  }

  /** Two counts of the downlinks of one join differ when there is such a downlink between them. */
  lemma {:induction false} CountsGrow(sent: seq<Sent>, i: nat, j: nat)
    requires i < j <= |sent|
    ensures SentIn(sent[..i], sent[i].item.session, sent[i].join) <
            SentIn(sent[..j], sent[i].item.session, sent[i].join)
    decreases j
  {
    assert sent[..j][..j - 1] == sent[..j - 1];
    if j - 1 > i {
      CountsGrow(sent, i, j - 1);
    }
  }

  /** In every run: of two downlinks of a session the later one belongs to a later join, or has a greater number
      within the same join. */
  lemma DownlinksIncrease(events: seq<Event>, i: nat, j: nat)
    requires i < j < |Run(events).sent| && Run(events).sent[i].item.session == Run(events).sent[j].item.session
    ensures var a, b := Run(events).sent[i], Run(events).sent[j];
            a.join < b.join || (a.join == b.join && a.index < b.index)
  {
    hide Run, AppsOk, MacOk, RadioOk, SentOk, CounterOk, SentIn;
    RunInv(events);
    var w := Run(events);
    assert DownlinkOk(w.counters, w.sent, i) && DownlinkOk(w.counters, w.sent, j);
    assert JoinsInOrder(w.sent[i], w.sent[j]);
    CountsGrow(w.sent, i, j);
  }

  /** In every run: since a join the frame counters of a session are 0, 1, 2 and so on, in 32 bits, and on the wire
      in 16 bits. */
  lemma CountersSinceJoin(events: seq<Event>, j: nat)
    requires j < |Run(events).sent| && Run(events).sent[j].join > 0
    ensures var w := Run(events);
            var d := w.sent[j];
            && d.index == SentIn(w.sent[..j], d.item.session, d.join)
            && d.session.fCntDown == d.index % 0x1_0000_0000
            && DownFrame(d.item, d.session).cnt == d.index % 0x1_0000
  {
    hide Run, AppsOk, MacOk, RadioOk, SentOk, CounterOk, SentIn;
    RunInv(events);
    var w := Run(events);
    assert DownlinkOk(w.counters, w.sent, j);
    Low16(w.sent[j].index);
  }

  /** In every run: the pair of join nonce and frame counter strictly increases, in lexicographic order, from each
      downlink of a session to its next ones, as long as neither number has exceeded 32 bits. */
  lemma NonceAndCounterIncrease(events: seq<Event>, i: nat, j: nat)
    requires i < j < |Run(events).sent| && Run(events).sent[i].item.session == Run(events).sent[j].item.session
    requires var w, s, b := Run(events), Run(events).sent[j].item.session, Run(events).sent[j];
             && FirstNonce(w.counters, s) + b.join < 0x1_0000_0000
             && Base(w.counters, s, b.join) + b.index < 0x1_0000_0000
    ensures var a, b := Run(events).sent[i].session, Run(events).sent[j].session;
            a.nOnce < b.nOnce || (a.nOnce == b.nOnce && a.fCntDown < b.fCntDown)
  {
    hide Run, AppsOk, MacOk, RadioOk, SentOk, CounterOk, SentIn, Base, FirstNonce;
    RunInv(events);
    DownlinksIncrease(events, i, j);
    var w := Run(events);
    assert DownlinkOk(w.counters, w.sent, i) && DownlinkOk(w.counters, w.sent, j);
  }

  lemma Low16(n: nat)
    ensures n % 0x1_0000_0000 % 0x1_0000 == n % 0x1_0000
  {}

  /** The input of the payload cipher for block i of a downlink. */
  function CipherInput(d: Sent, key: LoraAes.Key, i: nat): bytes {
    var f := DownFrame(d.item, d.session);
    LoraCipher.BytesA(LoraAes.Stream(key, f.cnt, f.devAddr, Direction(f.kind)), i)
  }

  lemma DifferentCounters(d: Sent, e: Sent, key: LoraAes.Key, i: nat, k: nat)
    requires DownFrame(d.item, d.session).cnt != DownFrame(e.item, e.session).cnt
    ensures CipherInput(d, key, i) != CipherInput(e, key, k)
  {
    hide DownFrame, LoraAes.Stream, Le;
    var f, g := DownFrame(d.item, d.session), DownFrame(e.item, e.session);
    CounterInBlock(d, key, i);
    CounterInBlock(e, key, k);
    FromLeOfLe(f.cnt, 4);
    FromLeOfLe(g.cnt, 4);
  }

  lemma CounterInBlock(d: Sent, key: LoraAes.Key, i: nat)
    ensures CipherInput(d, key, i)[10..14] == Le(DownFrame(d.item, d.session).cnt, 4)
  {
    hide DownFrame, Le;
  }

  /** In every run: two downlinks of a session in the same join, or both before its first one, never use the same input
      of the payload cipher unless 65536 or more downlinks lie between them. */
  lemma KeystreamNeverRepeats(events: seq<Event>, i: nat, j: nat, key: LoraAes.Key, m: nat, n: nat)
    requires i < j < |Run(events).sent|
    requires var a, b := Run(events).sent[i], Run(events).sent[j];
             a.item.session == b.item.session && a.join == b.join && b.index < a.index + 0x1_0000
    ensures CipherInput(Run(events).sent[i], key, m) != CipherInput(Run(events).sent[j], key, n)
  {
    hide Run, CipherInput, AppsOk, MacOk, RadioOk, SentOk, CounterOk, SentIn, Base, FirstNonce;
    RunInv(events);
    DownlinksIncrease(events, i, j);
    var w := Run(events);
    var a, b := w.sent[i], w.sent[j];
    assert DownlinkOk(w.counters, w.sent, i) && DownlinkOk(w.counters, w.sent, j);
    Low16(Base(w.counters, a.item.session, a.join) + a.index);
    Low16(Base(w.counters, a.item.session, a.join) + b.index);
    DifferentCounters(a, b, key, m, n);
  }

  /** In every run: a device with the keys of the session finds in the bytes that the radio got exactly the address,
      flags, counter, answers, port and data of the downlink, provided the answers take less than 16 bytes and a
      downlink without data is on port 0; otherwise it does not. */
  lemma DownlinkArrives(events: seq<Event>, j: nat)
    requires j < |Run(events).sent|
    ensures var d := Run(events).sent[j];
            var f := DownFrame(d.item, d.session);
            && j < |Run(events).radio| && Run(events).radio[j] == Composed(f, d.session.keys).payload
            && (Arrives(f, d.session.keys) <==>
                |d.item.opts| < 16 && (d.item.data == [] ==> d.item.port % 256 == 0))
  {
    hide Run, Arrives, Composed;
    SentInOrder(events, j);
    var d := Run(events).sent[j];
    RoundTrip(DownFrame(d.item, d.session), d.session.keys);
  }

  // ---- The scan over MAC commands.

  /** A command with its arguments, as long as its identifier says. */
  predicate WholeCommand(c: bytes) {
    c != [] && |c| == Width(c[0])
  }

  function Width(id: byte): nat {
    if id == LINK_ADR || id == RX_PARAM_SETUP || id == NEW_CHANNEL || id == RX_TIMING_SETUP then 2
    else if id == DEV_STATUS then 3
    else 1
  }

  function Concat(cs: seq<bytes>): bytes {
    if cs == [] then [] else cs[0] + Concat(cs[1..])
  }

  /** The positions the scan stops at, from i on. */
  function Visited(b: bytes, i: nat): seq<nat>
    decreases |b| - i
  {
    if i >= |b| then [] else [i] + Visited(b, i + Step(b, i))
  }

  function Starts(cs: seq<bytes>, at: nat): seq<nat> {
    if cs == [] then [] else [at] + Starts(cs[1..], at + |cs[0]|)
  }

  /** What the command at a position does; nothing past the end. */
  function ObeyOne(w: World, s: Sid, b: bytes, i: nat, lsnr: byte): (w': World)
    requires s in w.sessions
    ensures s in w'.sessions
  {
    if i < |b| then MacCommand(w, s, b, i, lsnr) else w
  }

  /** The commands of a string at the given positions, one after the other. */
  function ObeyAt(w: World, s: Sid, b: bytes, positions: seq<nat>, lsnr: byte): World
    requires s in w.sessions
    decreases |positions|
  {
    if positions == [] then w else ObeyAt(ObeyOne(w, s, b, positions[0], lsnr), s, b, positions[1..], lsnr)
  }

  /** Commands one after the other, each on its own. */
  function Obey(w: World, s: Sid, cs: seq<bytes>, lsnr: byte): World
    requires s in w.sessions
    decreases |cs|
  {
    if cs == [] then w else Obey(ObeyOne(w, s, cs[0], 0, lsnr), s, cs[1..], lsnr)
  }

  /** Whatever the string, the scan obeys it at the positions it stops at. */
  lemma {:induction false} ScanObeys(w: World, s: Sid, b: bytes, i: nat, lsnr: byte)
    requires s in w.sessions
    ensures MacScan(w, s, b, i, lsnr) == ObeyAt(w, s, b, Visited(b, i), lsnr)
    decreases |b| - i
  {
    hide MacCommand, Step;
    if i < |b| {
      ScanObeys(MacCommand(w, s, b, i, lsnr), s, b, i + Step(b, i), lsnr);
      assert Visited(b, i)[1..] == Visited(b, i + Step(b, i));
    }
  }

  /** A whole command does in a string what it does on its own, and the scan moves on to its end. */
  lemma WholeOnItsOwn(w: World, s: Sid, b: bytes, i: nat, c: bytes, lsnr: byte)
    requires s in w.sessions && WholeCommand(c) && i + |c| <= |b| && b[i..i + |c|] == c
    ensures Step(b, i) == |c| && ObeyOne(w, s, b, i, lsnr) == ObeyOne(w, s, c, 0, lsnr)
  {
    hide Touch, LinkCheck, TimingAnswer;
    assert b[i..i + |c|][0] == b[i];
  }

  ghost predicate AllWhole(cs: seq<bytes>) {
    forall i | 0 <= i < |cs| :: WholeCommand(cs[i])
  }

  lemma ConcatSplit(before: bytes, cs: seq<bytes>)
    requires cs != [] && AllWhole(cs)
    ensures AllWhole(cs[1..]) && WholeCommand(cs[0])
    ensures var b, i := before + Concat(cs), |before|;
            && b == (before + cs[0]) + Concat(cs[1..])
            && i + |cs[0]| <= |b| && b[i..i + |cs[0]|] == cs[0]
  {
    hide WholeCommand;
    assert Concat(cs) == cs[0] + Concat(cs[1..]);
  }

  /** Over any string of whole commands the scan stops at the start of each command, in order, and nowhere else; and
      it does what the commands do one after the other, each on its own. */
  lemma {:induction false} ScanVisitsCommands(w: World, s: Sid, before: bytes, cs: seq<bytes>, lsnr: byte)
    requires s in w.sessions && AllWhole(cs)
    ensures Visited(before + Concat(cs), |before|) == Starts(cs, |before|)
    ensures MacScan(w, s, before + Concat(cs), |before|, lsnr) == Obey(w, s, cs, lsnr)
    decreases |cs|
  {
    hide MacCommand, Step, AllWhole, WholeCommand, Concat;
    if cs == [] {
      assert before + Concat(cs) == before by { assert Concat(cs) == [] by { ConcatNothing(cs); } }
    } else {
      var b, i := before + Concat(cs), |before|;
      ConcatSplit(before, cs);
      CommandNotEmpty(cs[0]);
      WholeOnItsOwn(w, s, b, i, cs[0], lsnr);
      ScanVisitsCommands(ObeyOne(w, s, cs[0], 0, lsnr), s, before + cs[0], cs[1..], lsnr);
    }
  }

  lemma CommandNotEmpty(c: bytes)
    requires WholeCommand(c)
    ensures |c| > 0
  {}

  lemma ConcatNothing(cs: seq<bytes>)
    requires cs == []
    ensures Concat(cs) == []
  {}
}
