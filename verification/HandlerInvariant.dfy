/** What every step of the message handler keeps. */
module HandlerInvariant {
  import opened Codec
  import opened Wrappers
  import opened HandlerModel
  import LoraAes
  import Join

  // ---- Queues: a queue holds the latest messages of its session, in order of arrival.

  predicate QueueOk(arrived: seq<Message>, q: seq<Entry>) {
    && |q| <= |arrived|
    && (forall i | 0 <= i < |q| :: q[i].msg == arrived[|arrived| - |q| + i])
    && (forall i | 0 < i < |q| :: q[i].transmitted == 0)
    && (q != [] && !q[0].msg.confirmed ==> q[0].transmitted == 0)
  }

  /** How often message k of a session has been put into the send queue. */
  function Times(pushed: seq<Push>, s: Sid, k: int): nat {
    if pushed == [] then 0
    else
      var last := pushed[|pushed| - 1];
      Times(pushed[..|pushed| - 1], s, k) + if last.item.session == s && last.entry == Some(k) then 1 else 0
  }

  /** Messages have left the queue up to number removed. An unconfirmed message was scheduled once when it left; a
      confirmed one at least once before it left, and at the front it is marked exactly when it was scheduled. */
  predicate TimesOk(arrived: seq<Message>, q: seq<Entry>, k: int, times: nat)
    requires QueueOk(arrived, q)
  {
    var removed := |arrived| - |q|;
    if k < 0 || k > removed || k >= |arrived| then times == 0
    else if k < removed then if arrived[k].confirmed then times >= 1 else times == 1
    else times > 0 <==> q[0].transmitted != 0
  }

  ghost predicate SessionOk(a: Apps, s: Sid) {
    && QueueOk(Arrived(a, s), Queue(a, s))
    && forall k: int :: TimesOk(Arrived(a, s), Queue(a, s), k, Times(a.pushed, s, k))
  }

  /** A scheduled downlink carries the message it is recorded for, or nothing. */
  predicate PushOk(a: Apps, p: Push) {
    var s := p.item.session;
    match p.entry
    case None => p.item.port == 0 && p.item.data == [] && !p.item.confirmed
    case Some(k) =>
      && 0 <= k < |Arrived(a, s)| && k <= |Arrived(a, s)| - |Queue(a, s)|
      && Message(p.item.port, p.item.data, p.item.confirmed) == Arrived(a, s)[k]
  }

  /** Of two downlinks for the same session the earlier one carries the earlier message, or the same. */
  predicate InOrder(a: Push, b: Push) {
    a.item.session == b.item.session && a.entry.Some? && b.entry.Some? ==> a.entry.value <= b.entry.value
  }

  predicate PushedOk(a: Apps) {
    && (forall i | 0 <= i < |a.pushed| :: PushOk(a, a.pushed[i]))
    && (forall i, j | 0 <= i < j < |a.pushed| :: InOrder(a.pushed[i], a.pushed[j]))
  }

  ghost predicate AppsOk(a: Apps) {
    (forall s: Sid :: SessionOk(a, s)) && PushedOk(a)
  }

  /** What was sent and what waits is what was scheduled, in the same order; sending only added answers. */
  predicate SentOk(sendQueue: seq<Item>, pushed: seq<Push>, sent: seq<Sent>) {
    && |sent| + |sendQueue| == |pushed|
    && (forall i | 0 <= i < |sent| :: sent[i].item == WithAnswers(pushed[i].item, Bytes(sent[i].answers)))
    && (forall i | 0 <= i < |sendQueue| :: sendQueue[i] == pushed[|sent| + i].item)
  }

  // ---- Frame counters.

  /** How many downlinks a session has sent in one of its joins. */
  function SentIn(sent: seq<Sent>, s: Sid, join: nat): nat {
    if sent == [] then 0
    else
      var last := sent[|sent| - 1];
      SentIn(sent[..|sent| - 1], s, join) + if last.item.session == s && last.join == join then 1 else 0
  }

  /** The frame counter a join of a session starts from: zero, but for the part before the first join. */
  function Base(c: Counters, s: Sid, join: nat): uint32 {
    if join == 0 && s in c.loaded then c.loaded[s].1 else 0
  }

  function FirstNonce(c: Counters, s: Sid): uint32 {
    if s in c.loaded then c.loaded[s].0 else 0
  }

  predicate NumbersOk(c: Counters, s: Sid, session: Session, join: nat, index: nat) {
    && session.nOnce == (FirstNonce(c, s) + join) % 0x1_0000_0000
    && session.fCntDown == (Base(c, s, join) + index) % 0x1_0000_0000
  }

  /** A session counts its joins in its nonce, and the downlinks of a join in its frame counter, in 32 bits. */
  predicate CounterOk(sessions: map<Sid, Session>, c: Counters, sent: seq<Sent>, s: Sid) {
    && Count(c.index, s) == SentIn(sent, s, Count(c.joins, s))
    && (s in sessions <==> s in c.loaded)
    && (s in sessions ==> NumbersOk(c, s, sessions[s], Count(c.joins, s), Count(c.index, s)))
    && (s !in sessions ==> Count(c.joins, s) == 0 && Count(c.index, s) == 0)
  }

  predicate DownlinkOk(c: Counters, sent: seq<Sent>, j: nat)
    requires j < |sent|
  {
    var d, s := sent[j], sent[j].item.session;
    && s in c.loaded && d.join <= Count(c.joins, s)
    && d.index == SentIn(sent[..j], s, d.join)
    && NumbersOk(c, s, d.session, d.join, d.index)
    && (forall a | a in d.answers :: a.session == s)
  }

  /** Of two downlinks of the same session the later one belongs to the same join or to a later one. */
  predicate JoinsInOrder(a: Sent, b: Sent) {
    a.item.session == b.item.session ==> a.join <= b.join
  }

  predicate DownlinksOk(c: Counters, sent: seq<Sent>) {
    && (forall j | 0 <= j < |sent| :: DownlinkOk(c, sent, j))
    && (forall i, j | 0 <= i < j < |sent| :: JoinsInOrder(sent[i], sent[j]))
  }

  ghost predicate CountersOk(sessions: map<Sid, Session>, c: Counters, sent: seq<Sent>) {
    (forall s: Sid :: CounterOk(sessions, c, sent, s)) && DownlinksOk(c, sent)
  }

  /** The radio got the bytes of every downlink that was sent. */
  predicate RadioOk(radio: seq<bytes>, sent: seq<Sent>) {
    |radio| == |sent| && forall j | 0 <= j < |sent| :: radio[j] == Payload(sent[j].item, sent[j].session)
  }

  // ---- Answers to MAC commands.

  function Ids(commands: seq<Command>): seq<byte> {
    if commands == [] then [] else [commands[0].id] + Ids(commands[1..])
  }

  /** The answers of a session that were sent, in order. */
  function SentIds(sent: seq<Sent>, s: Sid): seq<byte> {
    if sent == [] then []
    else
      var last := sent[|sent| - 1];
      SentIds(sent[..|sent| - 1], s) + if last.item.session == s then Ids(last.answers) else []
  }

  /** Every answer was sent once or is still pending, in the order in which the answers came up. */
  predicate AnswersOk(m: Mac, sent: seq<Sent>, s: Sid) {
    Get(m.issued, s) == SentIds(sent, s) + Ids(Own(m.commands, s))
  }

  /** The pending link check answers of a session. */
  function Links(commands: seq<Command>, s: Sid): seq<Command> {
    if commands == [] then []
    else (if commands[0].session == s && commands[0].id == LINK_CHECK then [commands[0]] else []) +
         Links(commands[1..], s)
  }

  /** After r requests since the last downlink one answer is pending for every 256 requests begun, and the first
      of them holds the number of requests in one byte. */
  predicate LinksOk(m: Mac, s: Sid) {
    var r, l := Count(m.links, s), Links(m.commands, s);
    |l| == (r + 255) / 256 && (r > 0 ==> Gateways(l[0]) == r % 256)
  }

  ghost predicate MacOk(m: Mac, sent: seq<Sent>) {
    forall s: Sid :: AnswersOk(m, sent, s) && LinksOk(m, s)
  }

  /** Downlinks wait for sessions that exist. */
  predicate KnownOk(sessions: map<Sid, Session>, sendQueue: seq<Item>) {
    forall i | 0 <= i < |sendQueue| :: sendQueue[i].session in sessions
  }

  ghost predicate Inv(w: World) {
    && AppsOk(w.apps) && KnownOk(w.sessions, w.apps.sendQueue) && SentOk(w.apps.sendQueue, w.apps.pushed, w.sent)
    && CountersOk(w.sessions, w.counters, w.sent) && RadioOk(w.radio, w.sent)
    && MacOk(w.mac, w.sent)
  }

  // ---- Messages.

  lemma AppendKeepsSession(a: Apps, s: Sid, m: Message, x: Sid)
    requires SessionOk(a, x)
    ensures SessionOk(Append(a, s, m), x)
  {
    hide Times;
    var b := Append(a, s, m);
    forall k: int ensures TimesOk(Arrived(b, x), Queue(b, x), k, Times(b.pushed, x, k)) {
      assert TimesOk(Arrived(a, x), Queue(a, x), k, Times(a.pushed, x, k));
    }
  }

  lemma AppendKeeps(a: Apps, s: Sid, m: Message)
    requires AppsOk(a)
    ensures AppsOk(Append(a, s, m))
  {
    hide SessionOk;
    var b := Append(a, s, m);
    forall x: Sid ensures SessionOk(b, x) {
      AppendKeepsSession(a, s, m, x);
    }
    forall i | 0 <= i < |b.pushed| ensures PushOk(b, b.pushed[i]) {
      assert PushOk(a, a.pushed[i]);
    }
  }

  lemma {:induction false} AppendAllKeeps(a: Apps, replies: seq<(Sid, Message)>)
    requires AppsOk(a)
    ensures AppsOk(AppendAll(a, replies))
    ensures AppendAll(a, replies).sendQueue == a.sendQueue && AppendAll(a, replies).pushed == a.pushed
    decreases |replies|
  {
    hide AppsOk;
    if replies != [] {
      AppendKeeps(a, replies[0].0, replies[0].1);
      AppendAllKeeps(Append(a, replies[0].0, replies[0].1), replies[1..]);
    }
  }

  lemma PopKeepsSession(a: Apps, s: Sid, x: Sid)
    requires SessionOk(a, x) && Acknowledged(Queue(a, s))
    ensures SessionOk(Pop(a, s), x)
  {
    hide Times;
    var b := Pop(a, s);
    forall k: int ensures TimesOk(Arrived(b, x), Queue(b, x), k, Times(b.pushed, x, k)) {
      assert TimesOk(Arrived(a, x), Queue(a, x), k, Times(a.pushed, x, k));
    }
  }

  lemma PopKeeps(a: Apps, s: Sid)
    requires AppsOk(a) && Acknowledged(Queue(a, s))
    ensures AppsOk(Pop(a, s))
  {
    hide SessionOk;
    var b := Pop(a, s);
    forall x: Sid ensures SessionOk(b, x) {
      PopKeepsSession(a, s, x);
    }
    forall i | 0 <= i < |b.pushed| ensures PushOk(b, b.pushed[i]) {
      assert PushOk(a, a.pushed[i]);
    }
  }

  // ---- Scheduling.

  lemma TimesPushed(pushed: seq<Push>, p: Push, s: Sid, k: int)
    ensures Times(pushed + [p], s, k) == Times(pushed, s, k) +
            if p.item.session == s && p.entry == Some(k) then 1 else 0
  {
    assert (pushed + [p])[..|pushed|] == pushed;
  }

  lemma ScheduledQueue(arrived: seq<Message>, q: seq<Entry>, attempts: nat)
    requires q != [] && QueueOk(arrived, q)
    ensures QueueOk(arrived, AfterSchedule(q, attempts)) && |AfterSchedule(q, attempts)| <= |q|
  {
    var r := AfterSchedule(q, attempts);
    assert forall i | 0 <= i < |r| :: r[i].msg == q[i + |q| - |r|].msg;
  }

  lemma ScheduledTimes(arrived: seq<Message>, q: seq<Entry>, attempts: nat, k: int, times: nat)
    requires q != [] && QueueOk(arrived, q) && TimesOk(arrived, q, k, times) && attempts > 0
    requires QueueOk(arrived, AfterSchedule(q, attempts))
    ensures TimesOk(arrived, AfterSchedule(q, attempts), k, times + if k == |arrived| - |q| then 1 else 0)
  {
    assert q[0].msg == arrived[|arrived| - |q|];
    if !q[0].msg.confirmed && |q| > 1 {
      assert q[1..][0].transmitted == 0;
    }
  }

  lemma ScheduleEffect(a: Apps, item: Item, attempts: nat, x: Sid)
    ensures var b, p, s := Schedule(a, item, attempts), NewPush(a, item), item.session;
            && b.pushed == a.pushed + [p] && b.sendQueue == a.sendQueue + [p.item] && p.item.session == s
            && b.arrived == a.arrived
            && Queue(b, x) == if x == s && Queue(a, s) != [] then AfterSchedule(Queue(a, s), attempts) else Queue(a, x)
  {
    hide AfterSchedule;
  }

  lemma ScheduleKeepsSession(a: Apps, item: Item, attempts: nat, x: Sid)
    requires SessionOk(a, x) && attempts > 0
    ensures SessionOk(Schedule(a, item, attempts), x)
  {
    hide QueueOk, TimesOk, Times, AfterSchedule, Schedule;
    ScheduleEffect(a, item, attempts, x);
    var b, s, p := Schedule(a, item, attempts), item.session, NewPush(a, item);
    assert Arrived(b, x) == Arrived(a, x);
    if x == s && Queue(a, s) != [] {
      ScheduledQueue(Arrived(a, s), Queue(a, s), attempts);
    }
    forall k: int ensures TimesOk(Arrived(b, x), Queue(b, x), k, Times(b.pushed, x, k)) {
      TimesPushed(a.pushed, p, x, k);
      if x == s && Queue(a, s) != [] {
        ScheduledTimes(Arrived(a, s), Queue(a, s), attempts, k, Times(a.pushed, s, k));
      }
    }
  }

  predicate Empty(item: Item) {
    item.port == 0 && item.data == [] && !item.confirmed
  }

  lemma NewPushOk(a: Apps, item: Item, attempts: nat)
    requires SessionOk(a, item.session) && Empty(item)
    ensures PushOk(Schedule(a, item, attempts), NewPush(a, item))
  {
    hide TimesOk, Times;
  }

  lemma OldPushOk(a: Apps, item: Item, attempts: nat, p: Push)
    requires PushOk(a, p) && SessionOk(a, item.session)
    ensures PushOk(Schedule(a, item, attempts), p)
  {
    hide AfterSchedule, Schedule, NewPush, TimesOk, QueueOk, Times;
    ScheduleEffect(a, item, attempts, p.item.session);
    if Queue(a, item.session) != [] {
      ScheduledQueue(Arrived(a, item.session), Queue(a, item.session), attempts);
    }
  }

  /** A message that was scheduled before is not behind the one at the front of the queue. */
  lemma NewPushLast(a: Apps, p: Push, item: Item)
    requires PushOk(a, p)
    ensures InOrder(p, NewPush(a, item))
  {}

  lemma ScheduleKeeps(a: Apps, item: Item, attempts: nat)
    requires AppsOk(a) && attempts > 0 && Empty(item)
    ensures AppsOk(Schedule(a, item, attempts))
  {
    hide SessionOk, Schedule, NewPush, PushOk;
    ScheduleEffect(a, item, attempts, item.session);
    var b, p := Schedule(a, item, attempts), NewPush(a, item);
    forall x: Sid ensures SessionOk(b, x) {
      ScheduleKeepsSession(a, item, attempts, x);
    }
    forall i | 0 <= i < |b.pushed| ensures PushOk(b, b.pushed[i]) {
      if i < |a.pushed| {
        OldPushOk(a, item, attempts, a.pushed[i]);
      } else {
        NewPushOk(a, item, attempts);
      }
    }
    forall i, j | 0 <= i < j < |b.pushed| ensures InOrder(b.pushed[i], b.pushed[j]) {
      if j == |a.pushed| {
        NewPushLast(a, a.pushed[i], item);
      }
    }
  }

  // ---- Answers.

  lemma {:induction false} IdsConcat(a: seq<Command>, b: seq<Command>)
    ensures Ids(a + b) == Ids(a) + Ids(b)
  {
    if a == [] {
      assert a + b == b;
    } else {
      assert (a + b)[1..] == a[1..] + b;
      IdsConcat(a[1..], b);
    }
  }

  lemma {:induction false} OwnConcat(a: seq<Command>, b: seq<Command>, s: Sid)
    ensures Own(a + b, s) == Own(a, s) + Own(b, s)
  {
    if a == [] {
      assert a + b == b;
    } else {
      assert (a + b)[1..] == a[1..] + b;
      OwnConcat(a[1..], b, s);
      var head := if a[0].session == s then [a[0]] else [];
      assert head + Own(a[1..], s) + Own(b, s) == head + (Own(a[1..], s) + Own(b, s));
    }
  }

  lemma {:induction false} LinksConcat(a: seq<Command>, b: seq<Command>, s: Sid)
    ensures Links(a + b, s) == Links(a, s) + Links(b, s)
  {
    if a == [] {
      assert a + b == b;
    } else {
      assert (a + b)[1..] == a[1..] + b;
      LinksConcat(a[1..], b, s);
      var head := if a[0].session == s && a[0].id == LINK_CHECK then [a[0]] else [];
      assert head + Links(a[1..], s) + Links(b, s) == head + (Links(a[1..], s) + Links(b, s));
    }
  }

  lemma OwnAppended(a: seq<Command>, c: Command, s: Sid)
    ensures Ids(Own(a + [c], s)) == Ids(Own(a, s)) + if c.session == s then [c.id] else []
    ensures Links(a + [c], s) == Links(a, s) + if c.session == s && c.id == LINK_CHECK then [c] else []
  {
    OwnConcat(a, [c], s);
    LinksConcat(a, [c], s);
    assert Own([c], s) == if c.session == s then [c] + Own([], s) else [] + Own([], s);
    assert Links([c], s) == (if c.session == s && c.id == LINK_CHECK then [c] else []) + Links([], s);
    IdsConcat(Own(a, s), Own([c], s));
  }

  /** Changing only the parameters of an answer changes neither the identifiers nor their order. */
  lemma {:induction false} IdsUpdated(a: seq<Command>, j: nat, params: bytes, s: Sid)
    requires j < |a|
    ensures Ids(Own(a[j := a[j].(params := params)], s)) == Ids(Own(a, s))
  {
    var b := a[j := a[j].(params := params)];
    if j == 0 {
      assert b[1..] == a[1..];
      if a[0].session == s {
        assert Own(a, s)[1..] == Own(b, s)[1..];
      }
    } else {
      assert b[1..] == a[1..][j - 1 := a[1..][j - 1].(params := params)];
      IdsUpdated(a[1..], j - 1, params, s);
      var head := if a[0].session == s then [a[0]] else [];
      IdsConcat(head, Own(a[1..], s));
      IdsConcat(head, Own(b[1..], s));
    }
  }

  /** The first link check answer of a session is the head of its link check answers. */
  lemma {:induction false} LinksHead(a: seq<Command>, s: Sid)
    requires FirstLinkAnswer(a, s) < |a|
    ensures Links(a, s) != [] && Links(a, s)[0] == a[FirstLinkAnswer(a, s)]
  {
    if !(a[0].session == s && a[0].id == LINK_CHECK) {
      LinksHead(a[1..], s);
    }
  }

  function LinkHead(c: Command, s: Sid): seq<Command> {
    if c.session == s && c.id == LINK_CHECK then [c] else []
  }

  lemma LinksUnfold(a: seq<Command>, s: Sid)
    requires a != []
    ensures Links(a, s) == LinkHead(a[0], s) + Links(a[1..], s)
  {}

  lemma {:induction false} LinksUpdated(a: seq<Command>, s: Sid, params: bytes, x: Sid)
    requires FirstLinkAnswer(a, s) < |a|
    ensures var j := FirstLinkAnswer(a, s);
            && Links(a, s) != [] && Links(a, s)[0] == a[j]
            && Links(a[j := a[j].(params := params)], x) ==
               if x == s then [a[j].(params := params)] + Links(a, s)[1..] else Links(a, x)
  {
    hide Links;
    var j := FirstLinkAnswer(a, s);
    var b := a[j := a[j].(params := params)];
    LinksHead(a, s);
    LinksUnfold(a, s);
    LinksUnfold(a, x);
    LinksUnfold(b, x);
    if j == 0 {
      assert b[1..] == a[1..];
    } else {
      assert b[1..] == a[1..][j - 1 := a[1..][j - 1].(params := params)];
      LinksUpdated(a[1..], s, params, x);
    }
  }

  lemma {:induction false} NoLinks(a: seq<Command>, s: Sid)
    requires FirstLinkAnswer(a, s) == |a|
    ensures Links(a, s) == []
  {
    if a != [] {
      NoLinks(a[1..], s);
    }
  }

  lemma IssueAnswers(m: Mac, c: Command, sent: seq<Sent>, x: Sid)
    requires AnswersOk(m, sent, x)
    ensures AnswersOk(Issue(m, c), sent, x)
  {
    hide Own, Links, SentIds, Ids;
    OwnAppended(m.commands, c, x);
  }

  lemma CountedAnswers(m: Mac, j: nat, sent: seq<Sent>, x: Sid)
    requires j < |m.commands| && AnswersOk(m, sent, x)
    ensures AnswersOk(Counted(m, j), sent, x)
  {
    hide Own, SentIds, Ids;
    var c := m.commands[j];
    IdsUpdated(m.commands, j, [if |c.params| > 0 then c.params[0] else 0, (Gateways(c) + 1) % 256], x);
  }

  lemma LinkCheckAnswers(m: Mac, s: Sid, lsnr: byte, sent: seq<Sent>, x: Sid)
    requires AnswersOk(m, sent, x)
    ensures AnswersOk(LinkCheck(m, s, lsnr), sent, x)
  {
    hide Issue, Counted, Own, SentIds, Ids, Gateways, FirstLinkAnswer;
    var j, added := FirstLinkAnswer(m.commands, s), Command(LINK_CHECK, s, [lsnr, 1]);
    if j == |m.commands| {
      IssueAnswers(m, added, sent, x);
    } else {
      CountedAnswers(m, j, sent, x);
      IssueAnswers(Counted(m, j), added, sent, x);
    }
  }

  lemma IssueLinks(m: Mac, c: Command, x: Sid)
    ensures Links(Issue(m, c).commands, x) ==
            Links(m.commands, x) + if c.session == x && c.id == LINK_CHECK then [c] else []
  {
    OwnAppended(m.commands, c, x);
  }

  lemma CountedLinks(m: Mac, s: Sid, x: Sid)
    requires FirstLinkAnswer(m.commands, s) < |m.commands|
    ensures var j := FirstLinkAnswer(m.commands, s);
            var l, l' := Links(m.commands, x), Links(Counted(m, j).commands, x);
            && |l'| == |l| && (x != s ==> l' == l)
            && (x == s ==> l != [] && l[0] == m.commands[j] && Gateways(l'[0]) == (Gateways(l[0]) + 1) % 256)
  {
    hide Links;
    var c := m.commands[FirstLinkAnswer(m.commands, s)];
    LinksUpdated(m.commands, s, [if |c.params| > 0 then c.params[0] else 0, (Gateways(c) + 1) % 256], x);
  }

  lemma LinkCheckLinks(m: Mac, s: Sid, lsnr: byte, x: Sid)
    requires LinksOk(m, x)
    ensures LinksOk(LinkCheck(m, s, lsnr), x)
  {
    hide Links, Issue, Counted, FirstLinkAnswer;
    var j, added := FirstLinkAnswer(m.commands, s), Command(LINK_CHECK, s, [lsnr, 1]);
    if j == |m.commands| {
      NoLinks(m.commands, s);
      IssueLinks(m, added, x);
    } else {
      CountedLinks(m, s, x);
      IssueLinks(Counted(m, j), added, x);
    }
    OneMoreRequest(Count(m.links, s));
  }

  lemma OneMoreRequest(r: nat)
    ensures (r + 1 + 255) / 256 == (r + 255) / 256 + if r % 256 == 0 then 1 else 0
    ensures (r + 1) % 256 == (r % 256 + 1) % 256
  {
    var q, m := r / 256, r % 256;
    Quotient256(q, m);
    if m == 0 {
      Quotient256(q, 255);
      Quotient256(q + 1, 0);
      Quotient256(q, 1);
    } else {
      Quotient256(q + 1, m - 1);
      if m == 255 {
        Quotient256(q + 1, 0);
        Quotient256(q + 1, 255);
      } else {
        Quotient256(q, m + 1);
        Quotient256(q + 1, m);
      }
    }
  }

  lemma Quotient256(q: nat, m: nat)
    requires m < 256
    ensures (256 * q + m) / 256 == q && (256 * q + m) % 256 == m
  {}

  lemma LinkCheckKeeps(m: Mac, s: Sid, lsnr: byte, sent: seq<Sent>)
    requires MacOk(m, sent)
    ensures MacOk(LinkCheck(m, s, lsnr), sent)
  {
    hide AnswersOk, LinksOk, LinkCheck;
    forall x: Sid ensures AnswersOk(LinkCheck(m, s, lsnr), sent, x) && LinksOk(LinkCheck(m, s, lsnr), x) {
      LinkCheckAnswers(m, s, lsnr, sent, x);
      LinkCheckLinks(m, s, lsnr, x);
    }
  }

  lemma TimingKeeps(m: Mac, s: Sid, sent: seq<Sent>)
    requires MacOk(m, sent)
    ensures MacOk(TimingAnswer(m, s), sent)
  {
    hide AnswersOk, Links;
    forall x: Sid ensures AnswersOk(TimingAnswer(m, s), sent, x) && LinksOk(TimingAnswer(m, s), x) {
      assert AnswersOk(m, sent, x) && LinksOk(m, x);
      IssueAnswers(m, Command(RX_TIMING_SETUP, s, []), sent, x);
      IssueLinks(m, Command(RX_TIMING_SETUP, s, []), x);
    }
  }

  // ---- Sessions.

  lemma TouchKeepsCounters(sessions: map<Sid, Session>, c: Counters, sent: seq<Sent>, s: Sid, session: Session)
    requires CountersOk(sessions, c, sent) && s in sessions
    requires session.fCntDown == sessions[s].fCntDown && session.nOnce == sessions[s].nOnce
    ensures CountersOk(sessions[s := session], c, sent)
  {
    hide DownlinksOk, SentIn;
    var sessions' := sessions[s := session];
    forall x: Sid ensures CounterOk(sessions', c, sent, x) {
      assert CounterOk(sessions, c, sent, x);
    }
  }

  lemma TouchKeeps(w: World, s: Sid, session: Session)
    requires Inv(w) && s in w.sessions
    requires session.fCntDown == w.sessions[s].fCntDown && session.nOnce == w.sessions[s].nOnce
    ensures Inv(Touch(w, s, session))
  {
    hide AppsOk, SentOk, CountersOk, RadioOk, MacOk;
    TouchKeepsCounters(w.sessions, w.counters, w.sent, s, session);
  }

  lemma MacCommandKeeps(w: World, s: Sid, b: bytes, i: nat, lsnr: byte)
    requires Inv(w) && i < |b| && s in w.sessions
    ensures Inv(MacCommand(w, s, b, i, lsnr))
    ensures MacCommand(w, s, b, i, lsnr).apps == w.apps
  {
    hide AppsOk, SentOk, CountersOk, RadioOk, MacOk, LinkCheck, TimingAnswer;
    if b[i] == LINK_CHECK {
      LinkCheckKeeps(w.mac, s, lsnr, w.sent);
    } else if b[i] == RX_TIMING_SETUP && i + 1 < |b| {
      TouchKeeps(w, s, w.sessions[s].(rxDelay1 := TimingDelay(b[i])));
      TimingKeeps(w.mac, s, w.sent);
    }
  }

  lemma {:induction false} MacScanKeeps(w: World, s: Sid, b: bytes, i: nat, lsnr: byte)
    requires Inv(w) && s in w.sessions
    ensures Inv(MacScan(w, s, b, i, lsnr))
    ensures MacScan(w, s, b, i, lsnr).apps == w.apps
    decreases |b| - i
  {
    hide Inv, MacCommand;
    if i < |b| {
      MacCommandKeeps(w, s, b, i, lsnr);
      MacScanKeeps(MacCommand(w, s, b, i, lsnr), s, b, i + Step(b, i), lsnr);
    }
  }

  // ---- Sending.

  lemma {:induction false} OwnOthers(a: seq<Command>, s: Sid, x: Sid)
    ensures Own(Others(a, s), x) == if x == s then [] else Own(a, x)
    ensures Links(Others(a, s), x) == if x == s then [] else Links(a, x)
    ensures forall c | c in Own(a, s) :: c.session == s
  {
    if a != [] {
      OwnOthers(a[1..], s, x);
      if a[0].session != s {
        assert Others(a, s)[0] == a[0] && Others(a, s)[1..] == Others(a[1..], s);
      } else {
        assert Others(a, s) == Others(a[1..], s);
      }
    }
  }

  lemma SentAppended(sent: seq<Sent>, d: Sent, s: Sid, join: nat)
    ensures SentIds(sent + [d], s) == SentIds(sent, s) + if d.item.session == s then Ids(d.answers) else []
    ensures SentIn(sent + [d], s, join) == SentIn(sent, s, join) +
            if d.item.session == s && d.join == join then 1 else 0
  {
    assert (sent + [d])[..|sent|] == sent;
  }

  lemma SendOneMac(m: Mac, sent: seq<Sent>, d: Sent, s: Sid)
    requires MacOk(m, sent) && d.item.session == s && d.answers == Own(m.commands, s)
    ensures MacOk(m.(commands := Others(m.commands, s), links := m.links[s := 0]), sent + [d])
  {
    hide Own, Others, SentIds, Ids, Links;
    var m' := m.(commands := Others(m.commands, s), links := m.links[s := 0]);
    forall x: Sid ensures AnswersOk(m', sent + [d], x) && LinksOk(m', x) {
      assert AnswersOk(m, sent, x) && LinksOk(m, x);
      SendOneAnswers(m, sent, d, s, x);
      OwnOthers(m.commands, s, x);
    }
  }

  lemma SendOneAnswers(m: Mac, sent: seq<Sent>, d: Sent, s: Sid, x: Sid)
    requires AnswersOk(m, sent, x) && d.item.session == s && d.answers == Own(m.commands, s)
    ensures AnswersOk(m.(commands := Others(m.commands, s), links := m.links[s := 0]), sent + [d], x)
  {
    hide Own, Others, SentIds, Ids, Links;
    OwnOthers(m.commands, s, x);
    SentAppended(sent, d, x, 0);
    NoIds();
  }

  lemma NoIds()
    ensures Ids([]) == []
  {}

  lemma SuccMod(n: nat)
    ensures (n % 0x1_0000_0000 + 1) % 0x1_0000_0000 == (n + 1) % 0x1_0000_0000
  {}

  lemma SendOneCounter(sessions: map<Sid, Session>, c: Counters, sent: seq<Sent>, d: Sent, s: Sid, x: Sid)
    requires CounterOk(sessions, c, sent, x) && s in sessions && d.item.session == s
    requires d.join == Count(c.joins, s) && d.index == Count(c.index, s) && d.session == sessions[s]
    ensures CounterOk(sessions[s := d.session.(fCntDown := (d.session.fCntDown + 1) % 0x1_0000_0000)],
                      c.(index := c.index[s := d.index + 1]), sent + [d], x)
  {
    hide SentIn;
    SentAppended(sent, d, x, Count(c.joins, x));
    SuccMod(Base(c, x, Count(c.joins, x)) + Count(c.index, x));
  }

  lemma SendOneDownlinks(c: Counters, sessions: map<Sid, Session>, sent: seq<Sent>, d: Sent, s: Sid)
    requires DownlinksOk(c, sent) && CounterOk(sessions, c, sent, s) && s in sessions && d.item.session == s
    requires d.join == Count(c.joins, s) && d.index == Count(c.index, s) && d.session == sessions[s]
    requires forall a | a in d.answers :: a.session == s
    ensures DownlinksOk(c.(index := c.index[s := d.index + 1]), sent + [d])
  {
    hide SentIn;
    var all, c' := sent + [d], c.(index := c.index[s := d.index + 1]);
    assert all[..|sent|] == sent;
    forall j | 0 <= j < |all| ensures DownlinkOk(c', all, j) {
      if j < |sent| {
        assert DownlinkOk(c, sent, j);
        assert all[..j] == sent[..j];
      }
    }
    forall i, j | 0 <= i < j < |all| ensures JoinsInOrder(all[i], all[j]) {
      assert DownlinkOk(c, sent, i);
    }
  }

  lemma SendOneCounters(sessions: map<Sid, Session>, c: Counters, sent: seq<Sent>, d: Sent, s: Sid)
    requires CountersOk(sessions, c, sent) && s in sessions && d.item.session == s
    requires d.join == Count(c.joins, s) && d.index == Count(c.index, s) && d.session == sessions[s]
    requires forall a | a in d.answers :: a.session == s
    ensures CountersOk(sessions[s := d.session.(fCntDown := (d.session.fCntDown + 1) % 0x1_0000_0000)],
                       c.(index := c.index[s := d.index + 1]), sent + [d])
  {
    hide CounterOk, DownlinksOk;
    var sessions' := sessions[s := d.session.(fCntDown := (d.session.fCntDown + 1) % 0x1_0000_0000)];
    var c' := c.(index := c.index[s := d.index + 1]);
    assert CounterOk(sessions, c, sent, s);
    SendOneDownlinks(c, sessions, sent, d, s);
    forall x: Sid ensures CounterOk(sessions', c', sent + [d], x) {
      assert CounterOk(sessions, c, sent, x);
      SendOneCounter(sessions, c, sent, d, s, x);
    }
  }

  lemma SendOneSent(sendQueue: seq<Item>, pushed: seq<Push>, sent: seq<Sent>, d: Sent)
    requires SentOk(sendQueue, pushed, sent) && sendQueue != []
    requires d.item == WithAnswers(sendQueue[0], Bytes(d.answers))
    ensures SentOk(sendQueue[1..], pushed, sent + [d])
  {
    hide WithAnswers, Bytes;
    forall i | 0 <= i < |sendQueue[1..]| ensures sendQueue[1..][i] == pushed[|sent + [d]| + i].item {
      assert sendQueue[1..][i] == sendQueue[i + 1];
    }
  }

  lemma SendKeepsApps(a: Apps, sendQueue: seq<Item>)
    requires AppsOk(a)
    ensures AppsOk(a.(sendQueue := sendQueue))
  {
    hide QueueOk, TimesOk, Times;
    var b := a.(sendQueue := sendQueue);
    forall x: Sid ensures SessionOk(b, x) {
      assert SessionOk(a, x);
    }
    forall i | 0 <= i < |b.pushed| ensures PushOk(b, b.pushed[i]) {
      assert PushOk(a, a.pushed[i]);
    }
  }

  lemma NewSentFields(w: World)
    requires HasHead(w)
    ensures var s, d := w.apps.sendQueue[0].session, NewSent(w);
            && d.item.session == s && d.answers == Own(w.mac.commands, s) && d.session == w.sessions[s]
            && d.item == WithAnswers(w.apps.sendQueue[0], Bytes(d.answers))
            && d.join == Count(w.counters.joins, s) && d.index == Count(w.counters.index, s)
            && forall a | a in d.answers :: a.session == s
  {
    hide Own, Bytes;
    OwnOthers(w.mac.commands, w.apps.sendQueue[0].session, 0);
  }

  lemma SendOneKeeps(w: World)
    requires Inv(w) && HasHead(w)
    ensures Inv(SendOne(w))
  {
    hide AppsOk, SentOk, CountersOk, MacOk, NewSent, Payload, Own, Others, Bytes, WithAnswers;
    var s, d := w.apps.sendQueue[0].session, NewSent(w);
    NewSentFields(w);
    SendKeepsApps(w.apps, w.apps.sendQueue[1..]);
    SendOneSent(w.apps.sendQueue, w.apps.pushed, w.sent, d);
    SendOneCounters(w.sessions, w.counters, w.sent, d, s);
    SendOneMac(w.mac, w.sent, d, s);
  }

  // ---- Joins and new sessions.

  /** No downlink of a session belongs to a join it has not made yet. */
  lemma {:induction false} NotYetJoined(c: Counters, sent: seq<Sent>, s: Sid, n: nat)
    requires n <= |sent| && DownlinksOk(c, sent)
    ensures SentIn(sent[..n], s, Count(c.joins, s) + 1) == 0
  {
    if n > 0 {
      assert sent[..n][..n - 1] == sent[..n - 1];
      assert DownlinkOk(c, sent, n - 1);
      NotYetJoined(c, sent, s, n - 1);
    }
  }

  function AfterJoin(c: Counters, s: Sid): Counters {
    Counters(c.loaded, c.joins[s := Count(c.joins, s) + 1], c.index[s := 0])
  }

  lemma JoinCounter(sessions: map<Sid, Session>, c: Counters, sent: seq<Sent>, s: Sid, session: Session, x: Sid)
    requires CounterOk(sessions, c, sent, x) && s in sessions && SentIn(sent, s, Count(c.joins, s) + 1) == 0
    requires session.fCntDown == 0 && session.nOnce == (sessions[s].nOnce + 1) % 0x1_0000_0000
    ensures CounterOk(sessions[s := session], AfterJoin(c, s), sent, x)
  {
    hide SentIn;
    SuccMod(FirstNonce(c, s) + Count(c.joins, s));
  }

  lemma JoinDownlink(c: Counters, sent: seq<Sent>, s: Sid, j: nat)
    requires j < |sent| && DownlinkOk(c, sent, j)
    ensures DownlinkOk(AfterJoin(c, s), sent, j)
  {
    hide SentIn;
  }

  lemma JoinKeepsCounters(sessions: map<Sid, Session>, c: Counters, sent: seq<Sent>, s: Sid, session: Session)
    requires CountersOk(sessions, c, sent) && s in sessions
    requires session.fCntDown == 0 && session.nOnce == (sessions[s].nOnce + 1) % 0x1_0000_0000
    ensures CountersOk(sessions[s := session],
                       Counters(c.loaded, c.joins[s := Count(c.joins, s) + 1], c.index[s := 0]), sent)
  {
    hide SentIn, CounterOk, DownlinkOk;
    var c', sessions' := AfterJoin(c, s), sessions[s := session];
    NotYetJoined(c, sent, s, |sent|);
    assert sent[..|sent|] == sent;
    forall x: Sid ensures CounterOk(sessions', c', sent, x) {
      assert CounterOk(sessions, c, sent, x);
      JoinCounter(sessions, c, sent, s, session, x);
    }
    forall j | 0 <= j < |sent| ensures DownlinkOk(c', sent, j) {
      JoinDownlink(c, sent, s, j);
    }
  }

  lemma JoinKeeps(w: World, s: Sid, deviceKey: Option<LoraAes.Key>, devNOnce: uint16, now: nat)
    requires Inv(w)
    ensures Inv(JoinSession(w, s, deviceKey, devNOnce, now))
  {
    hide AppsOk, SentOk, CountersOk, MacOk, RadioOk, Join.NewKeys;
    if s in w.sessions {
      JoinKeepsCounters(w.sessions, w.counters, w.sent, s, Joined(w.sessions[s], deviceKey, devNOnce, now));
    }
  }

  lemma LoadKeepsCounters(sessions: map<Sid, Session>, c: Counters, sent: seq<Sent>, s: Sid, session: Session)
    requires CountersOk(sessions, c, sent) && s !in sessions
    ensures CountersOk(sessions[s := session], c.(loaded := c.loaded[s := (session.nOnce, session.fCntDown)]), sent)
  {
    hide SentIn;
    var sessions', c' := sessions[s := session], c.(loaded := c.loaded[s := (session.nOnce, session.fCntDown)]);
    forall x: Sid ensures CounterOk(sessions', c', sent, x) {
      assert CounterOk(sessions, c, sent, x);
    }
    assert CounterOk(sessions, c, sent, s);
    forall j | 0 <= j < |sent| ensures DownlinkOk(c', sent, j) {
      assert DownlinkOk(c, sent, j);
    }
  }

  lemma LoadKeeps(w: World, s: Sid, session: Session)
    requires Inv(w)
    ensures Inv(Load(w, s, session))
  {
    hide AppsOk, SentOk, MacOk, RadioOk, CountersOk;
    if s !in w.sessions {
      LoadKeepsCounters(w.sessions, w.counters, w.sent, s, session);
    }
  }
}
