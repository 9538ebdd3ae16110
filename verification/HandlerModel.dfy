/** The state of the message handler and its steps, together with a record of what has happened. The record has no
    part in what a step does; it is what the properties of runs are about. */
module HandlerModel {
  import opened Codec
  import opened LoraAes
  import opened Wrappers
  import opened DataFrame
  import Join

  /** A session is known by its address in memory. */
  type Sid = nat

  datatype Session = Session(
    deviceAddr: uint32, networkId: uint32, keys: SessionKeys, nOnce: uint32, devNOnce: uint32,
    fCntUp: uint32, fCntDown: uint32, rxDelay1: byte, lastAccess: nat, classC: bool)

  /** What an application hands over for a device. */
  datatype Message = Message(port: nat, data: bytes, confirmed: bool)

  /** A message waiting in the queue of its session; transmitted counts the attempts of a confirmed one. */
  datatype Entry = Entry(msg: Message, transmitted: nat)

  /** A downlink waiting in the send queue. */
  datatype Item = Item(session: Sid, sendBefore: uint32, port: nat, data: bytes, opts: bytes,
                       ctrl: byte, confirmed: bool)

  /** An answer to a MAC command, kept until the next downlink of its session. */
  datatype Command = Command(id: byte, session: Sid, params: bytes)

  const LINK_CHECK: byte := 2
  const LINK_ADR: byte := 3
  const RX_PARAM_SETUP: byte := 5
  const DEV_STATUS: byte := 6
  const NEW_CHANNEL: byte := 7
  const RX_TIMING_SETUP: byte := 8

  // ---- The record.

  /** A downlink put into the send queue; entry is the number, within its session, of the message it carries. */
  datatype Push = Push(item: Item, entry: Option<int>)

  /** A downlink that was sent: the item with the answers it took along, the session it was sent under, in which
      join of that session and as which one since the join. */
  datatype Sent = Sent(item: Item, answers: seq<Command>, session: Session, join: nat, index: nat)

  /** Messages and downlinks that wait, with all messages that arrived and all downlinks that were scheduled. */
  datatype Apps = Apps(queues: map<Sid, seq<Entry>>, sendQueue: seq<Item>,
                       arrived: map<Sid, seq<Message>>, pushed: seq<Push>)

  /** Pending answers, with the identifiers of all answers that came up and the link check requests of each session
      since its last downlink. */
  datatype Mac = Mac(commands: seq<Command>, issued: map<Sid, seq<byte>>, links: map<Sid, nat>)

  /** Join nonce and downlink counter of each session when it was loaded, its joins, and its downlinks since the
      last join. */
  datatype Counters = Counters(loaded: map<Sid, (uint32, uint32)>, joins: map<Sid, nat>, index: map<Sid, nat>)

  datatype World = World(sessions: map<Sid, Session>, apps: Apps, mac: Mac, radio: seq<bytes>,
                         sent: seq<Sent>, counters: Counters)

  function Get<T>(m: map<Sid, seq<T>>, s: Sid): seq<T> {
    if s in m then m[s] else []
  }

  function Count(m: map<Sid, nat>, s: Sid): nat {
    if s in m then m[s] else 0
  }

  function Queue(a: Apps, s: Sid): seq<Entry> {
    Get(a.queues, s)
  }

  function Arrived(a: Apps, s: Sid): seq<Message> {
    Get(a.arrived, s)
  }

  // ---- Messages of applications.

  function Append(a: Apps, s: Sid, m: Message): Apps {
    a.(queues := a.queues[s := Queue(a, s) + [Entry(m, 0)]], arrived := a.arrived[s := Arrived(a, s) + [m]])
  }

  function AppendAll(a: Apps, replies: seq<(Sid, Message)>): Apps
    decreases |replies|
  {
    if replies == [] then a else AppendAll(Append(a, replies[0].0, replies[0].1), replies[1..])
  }

  /** The front of a queue that an acknowledgement removes: a confirmed message that was transmitted. */
  predicate Acknowledged(q: seq<Entry>) {
    q != [] && q[0].msg.confirmed && q[0].transmitted != 0
  }

  function Pop(a: Apps, s: Sid): Apps
    requires Queue(a, s) != []
  {
    a.(queues := a.queues[s := Queue(a, s)[1..]])
  }

  // ---- MAC commands.

  /** The first pending link check answer of a session; the number of answers when there is none. */
  function FirstLinkAnswer(commands: seq<Command>, s: Sid): (j: nat)
    ensures j <= |commands|
    ensures j < |commands| ==> commands[j].session == s && commands[j].id == LINK_CHECK
    ensures forall i | 0 <= i < j :: !(commands[i].session == s && commands[i].id == LINK_CHECK)
  {
    if commands == [] then 0
    else if commands[0].session == s && commands[0].id == LINK_CHECK then 0
    else 1 + FirstLinkAnswer(commands[1..], s)
  }

  function Gateways(c: Command): byte {
    if |c.params| > 1 then c.params[1] else 0
  }

  function Issue(m: Mac, c: Command): Mac {
    m.(commands := m.commands + [c], issued := m.issued[c.session := Get(m.issued, c.session) + [c.id]])
  }

  /** One more gateway in a pending answer; the count is one byte. */
  function Counted(m: Mac, j: nat): Mac
    requires j < |m.commands|
  {
    var c := m.commands[j];
    m.(commands := m.commands[j := c.(params := [if |c.params| > 0 then c.params[0] else 0, (Gateways(c) + 1) % 256])])
  }

  /** A count that has run over looks like no pending answer at all, and a new one is added. */
  function LinkCheck(m: Mac, s: Sid, lsnr: byte): Mac {
    var j := FirstLinkAnswer(m.commands, s);
    var added := Command(LINK_CHECK, s, [lsnr, 1]);
    var next :=
      if j == |m.commands| then Issue(m, added)
      else if Gateways(m.commands[j]) != 0 then Counted(m, j)
      else Issue(Counted(m, j), added);
    next.(links := m.links[s := Count(m.links, s) + 1])
  }

  function TimingAnswer(m: Mac, s: Sid): Mac {
    Issue(m, Command(RX_TIMING_SETUP, s, []))
  }

  /** How far the scan moves on from a command; a timing answer at the very end has no argument. */
  function Step(b: bytes, i: nat): (n: nat)
    requires i < |b|
    ensures n > 0
  {
    var c := b[i];
    if c == LINK_ADR || c == RX_PARAM_SETUP || c == NEW_CHANNEL then 2
    else if c == DEV_STATUS then 3
    else if c == RX_TIMING_SETUP && i + 1 < |b| then 2
    else 1
  }

  /** The delay is taken from the low bits of the command byte itself, as the code reads it. */
  function TimingDelay(c: byte): byte {
    if c % 16 == 0 then 1 else c % 16
  }

  function MacCommand(w: World, s: Sid, b: bytes, i: nat, lsnr: byte): (w': World)
    requires i < |b| && s in w.sessions
    ensures s in w'.sessions
  {
    if b[i] == LINK_CHECK then w.(mac := LinkCheck(w.mac, s, lsnr))
    else if b[i] == RX_TIMING_SETUP && i + 1 < |b| then
      Touch(w, s, w.sessions[s].(rxDelay1 := TimingDelay(b[i]))).(mac := TimingAnswer(w.mac, s))
    else w
  }

  /** The scan over a string of commands, from i on. */
  function MacScan(w: World, s: Sid, b: bytes, i: nat, lsnr: byte): (w': World)
    requires s in w.sessions
    ensures s in w'.sessions
    decreases |b| - i
  {
    if i >= |b| then w else MacScan(MacCommand(w, s, b, i, lsnr), s, b, i + Step(b, i), lsnr)
  }

  /** A session changes; the others stay as they are. */
  function Touch(w: World, s: Sid, session: Session): (w': World)
    requires s in w.sessions
    ensures s in w'.sessions
  {
    w.(sessions := w.sessions[s := session])
  }

  // ---- Scheduling.

  function EmptyItem(s: Sid, sendBefore: uint32, ctrl: byte): Item {
    Item(s, sendBefore, 0, [], [], ctrl, false)
  }

  /** The queue after its front has been scheduled: an unconfirmed message leaves, a confirmed one stays until it
      is acknowledged. */
  function AfterSchedule(q: seq<Entry>, attempts: nat): seq<Entry>
    requires q != []
  {
    if q[0].msg.confirmed then [q[0].(transmitted := attempts)] + q[1..] else q[1..]
  }

  /** The downlink as it goes into the send queue: it carries the message at the front, if there is one. */
  function NewPush(a: Apps, item: Item): Push {
    var q := Queue(a, item.session);
    if q == [] then Push(item, None)
    else
      var m := q[0].msg;
      Push(item.(port := m.port, data := m.data, confirmed := m.confirmed), Some(|Arrived(a, item.session)| - |q|))
  }

  /** Puts a downlink for a session into the send queue. */
  function Schedule(a: Apps, item: Item, attempts: nat): Apps {
    var s, p := item.session, NewPush(a, item);
    var q := Queue(a, s);
    a.(sendQueue := a.sendQueue + [p.item], pushed := a.pushed + [p],
       queues := if q == [] then a.queues else a.queues[s := AfterSchedule(q, attempts)])
  }

  // ---- Uplinks.

  predicate AckBit(ctrl: byte) {
    ctrl / 32 % 2 == 1
  }

  const ACK: byte := 0x20

  /** What the radio heard, the sessions it may belong to, and what the application does in return. */
  datatype Uplink = Uplink(kind: Kind, payload: bytes, lsnr: byte, now: nat)

  datatype Candidate = Candidate(session: Sid, replies: seq<(Sid, Message)>)

  /** The acknowledgement bit removes a confirmed message that was sent. */
  function TakeAck(a: Apps, s: Sid, ctrl: byte): Apps {
    if AckBit(ctrl) && Acknowledged(Queue(a, s)) then Pop(a, s) else a
  }

  /** The data of an uplink that is not a repetition: network commands on port 0, application data otherwise. */
  function TakeData(w: World, f: Frame, c: Candidate, lsnr: byte): (w': World)
    requires c.session in w.sessions
    ensures c.session in w'.sessions
  {
    var s := c.session;
    if f.cnt == w.sessions[s].fCntUp then w
    else
      var w1 := if f.data == [] then w
                else if f.port == 0 then MacScan(w, s, f.data, 0, lsnr)
                else w.(apps := AppendAll(w.apps, c.replies));
      Touch(w1, s, w1.sessions[s].(fCntUp := f.cnt))
  }

  predicate GotCommands(w: World, s: Sid, f: Frame)
    requires s in w.sessions
  {
    (f.cnt != w.sessions[s].fCntUp && f.data != [] && f.port == 0) || f.opts != []
  }

  predicate ConfirmedUplink(k: Kind) {
    k == ConfirmedUp
  }

  /** Everything before the decision whether to answer. */
  function Heard(w: World, u: Uplink, f: Frame, c: Candidate): (w': World)
    requires c.session in w.sessions
    ensures c.session in w'.sessions
  {
    var w1 := TakeData(w.(apps := TakeAck(w.apps, c.session, f.ctrl)), f, c, u.lsnr);
    if f.opts == [] then w1 else MacScan(w1, c.session, f.opts, 0, u.lsnr)
  }

  predicate Answers(w: World, u: Uplink, f: Frame, c: Candidate)
    requires c.session in w.sessions
  {
    ConfirmedUplink(u.kind) || GotCommands(w, c.session, f) || Queue(Heard(w, u, f, c).apps, c.session) != []
  }

  function Deadline(now: nat, delay: byte): uint32 {
    (now + delay * 1000000) % 0x1_0000_0000
  }

  /** The uplink taken by a session it verifies for. */
  function Accept(w: World, u: Uplink, f: Frame, c: Candidate): World
    requires c.session in w.sessions
  {
    var s := c.session;
    var w1 := Heard(w, u, f, c);
    if !Answers(w, u, f, c) then w1
    else
      var item := EmptyItem(s, Deadline(u.now, w.sessions[s].rxDelay1), if ConfirmedUplink(u.kind) then ACK else 0);
      Touch(w1, s, w1.sessions[s].(lastAccess := u.now)).(apps := Schedule(w1.apps, item, 1))
  }

  /** The frame as a session reads it. */
  function FrameFor(w: World, u: Uplink, s: Sid): Frame
    requires s in w.sessions && Readable(u.payload)
  {
    Received(u.kind, u.payload, w.sessions[s].keys)
  }

  predicate VerifiesFor(w: World, u: Uplink, s: Sid)
    requires s in w.sessions && Readable(u.payload)
  {
    Verifies(FrameFor(w, u, s), w.sessions[s].keys)
  }

  /** The sessions with the address of the uplink are tried in turn, until one schedules an answer. */
  function ProcessData(w: World, u: Uplink, candidates: seq<Candidate>): World
    requires Readable(u.payload)
    decreases |candidates|
  {
    if candidates == [] then w
    else
      var c := candidates[0];
      if c.session !in w.sessions || !VerifiesFor(w, u, c.session) then ProcessData(w, u, candidates[1..])
      else
        var f := FrameFor(w, u, c.session);
        if Answers(w, u, f, c) then Accept(w, u, f, c) else ProcessData(Accept(w, u, f, c), u, candidates[1..])
  }

  // ---- Class C devices and the send queue.

  predicate ClassCReady(w: World, s: Sid, now: nat) {
    && s in w.sessions && w.sessions[s].classC && Queue(w.apps, s) != []
    && w.sessions[s].lastAccess + 1000000 <= now
  }

  /** The header byte of such a downlink is whatever the memory held. */
  function ClassC(w: World, s: Sid, now: nat, ctrl: byte): World {
    if !ClassCReady(w, s, now) then w
    else
      Touch(w, s, w.sessions[s].(lastAccess := now))
        .(apps := Schedule(w.apps, EmptyItem(s, now % 0x1_0000_0000, ctrl), Queue(w.apps, s)[0].transmitted + 1))
  }

  function ClassCAll(w: World, order: seq<Sid>, now: nat, ctrl: byte): World
    decreases |order|
  {
    if order == [] then w else ClassCAll(ClassC(w, order[0], now, ctrl), order[1..], now, ctrl)
  }

  /** The pending answers of a session, in order. */
  function Own(commands: seq<Command>, s: Sid): seq<Command> {
    if commands == [] then []
    else (if commands[0].session == s then [commands[0]] else []) + Own(commands[1..], s)
  }

  function Others(commands: seq<Command>, s: Sid): seq<Command> {
    if commands == [] then []
    else (if commands[0].session == s then [] else [commands[0]]) + Others(commands[1..], s)
  }

  function Bytes(commands: seq<Command>): bytes {
    if commands == [] then [] else [commands[0].id] + commands[0].params + Bytes(commands[1..])
  }

  /** Answers travel in the options, or in the data when the downlink is on port 0. */
  function WithAnswers(item: Item, b: bytes): Item {
    if b == [] then item else if item.port == 0 then item.(data := item.data + b) else item.(opts := b)
  }

  function DownFrame(item: Item, session: Session): Frame {
    Fresh(if item.confirmed then ConfirmedDown else UnconfirmedDown)
      .(session := Some(session.keys), data := item.data, port := item.port % 256, opts := item.opts,
        ctrl := item.ctrl, cnt := session.fCntDown % 0x1_0000, devAddr := session.deviceAddr)
  }

  function Payload(item: Item, session: Session): bytes {
    Composed(DownFrame(item, session), session.keys).payload
  }

  predicate HasHead(w: World) {
    w.apps.sendQueue != [] && w.apps.sendQueue[0].session in w.sessions
  }

  /** The head of the send queue as it is sent: with the pending answers of its session. */
  function NewSent(w: World): Sent
    requires HasHead(w)
  {
    var item := w.apps.sendQueue[0];
    var s, own := item.session, Own(w.mac.commands, item.session);
    Sent(WithAnswers(item, Bytes(own)), own, w.sessions[s], Count(w.counters.joins, s), Count(w.counters.index, s))
  }

  function SendOne(w: World): World
    requires HasHead(w)
  {
    var s, d := w.apps.sendQueue[0].session, NewSent(w);
    w.(apps := w.apps.(sendQueue := w.apps.sendQueue[1..]),
       mac := w.mac.(commands := Others(w.mac.commands, s), links := w.mac.links[s := 0]),
       sessions := w.sessions[s := d.session.(fCntDown := (d.session.fCntDown + 1) % 0x1_0000_0000)],
       radio := w.radio + [Payload(d.item, d.session)],
       sent := w.sent + [d],
       counters := w.counters.(index := w.counters.index[s := d.index + 1]))
  }

  /** The test that stops the queue at a stale head, in 32-bit arithmetic. */
  predicate Stale(item: Item, curTs: uint32) {
    item.sendBefore < (curTs - 200000) % 0x1_0000_0000
  }

  predicate Sendable(w: World, curTs: uint32) {
    HasHead(w) && curTs != 0 && !Stale(w.apps.sendQueue[0], curTs)
  }

  function SendAll(w: World, curTs: uint32): World
    decreases |w.apps.sendQueue|
  {
    if !Sendable(w, curTs) then w else SendAll(SendOne(w), curTs)
  }

  function ProcessSendQueue(w: World, order: seq<Sid>, nowC: nat, ctrl: byte, now: nat): World {
    SendAll(ClassCAll(w, order, nowC, ctrl), now % 0x1_0000_0000)
  }

  // ---- Joins.

  function JoiningOf(o: Session): Join.Joining {
    Join.Joining(o.networkId, o.deviceAddr, o.rxDelay1, o.nOnce, o.devNOnce, o.keys, o.fCntUp, o.fCntDown)
  }

  /** The session after a join. */
  function Joined(o: Session, deviceKey: Option<Key>, devNOnce: uint16, now: nat): Session {
    var j := Join.Accepted(JoiningOf(o), deviceKey, devNOnce);
    o.(nOnce := j.nOnce, devNOnce := j.devNOnce, keys := j.keys, fCntUp := j.fCntUp, fCntDown := j.fCntDown,
       lastAccess := now)
  }

  /** A join request that verifies is accepted unless it repeats the last nonce of the device. */
  function JoinSession(w: World, s: Sid, deviceKey: Option<Key>, devNOnce: uint16, now: nat): World {
    if s !in w.sessions || !Join.FreshNonce(w.sessions[s].devNOnce, devNOnce) then w
    else
      var c := w.counters;
      Touch(w, s, Joined(w.sessions[s], deviceKey, devNOnce, now))
        .(counters := Counters(c.loaded, c.joins[s := Count(c.joins, s) + 1], c.index[s := 0]))
  }

  function Load(w: World, s: Sid, session: Session): World {
    if s in w.sessions then w
    else
      w.(sessions := w.sessions[s := session],
         counters := w.counters.(loaded := w.counters.loaded[s := (session.nOnce, session.fCntDown)]))
  }

  // ---- Runs.

  datatype Event =
    | LoadEvent(s: Sid, session: Session)
    | SendEvent(s: Sid, msg: Message)
    | JoinEvent(s: Sid, deviceKey: Option<Key>, devNOnce: uint16, joinTime: nat)
    | UplinkEvent(u: Uplink, candidates: seq<Candidate>)
    | TimerEvent(order: seq<Sid>, nowC: nat, ctrl: byte, now: nat)

  function After(w: World, e: Event): World {
    match e
    case LoadEvent(s, session) => Load(w, s, session)
    case SendEvent(s, m) => w.(apps := Append(w.apps, s, m))
    case JoinEvent(s, k, n, now) => JoinSession(w, s, k, n, now)
    case UplinkEvent(u, candidates) => if Readable(u.payload) then ProcessData(w, u, candidates) else w
    case TimerEvent(order, nowC, ctrl, now) => ProcessSendQueue(w, order, nowC, ctrl, now)
  }

  const START: World := World(map[], Apps(map[], [], map[], []), Mac([], map[], map[]), [], [],
    Counters(map[], map[], map[]))

  function Run(events: seq<Event>): World {
    if events == [] then START else After(Run(events[..|events| - 1]), events[|events| - 1])
  }
}
