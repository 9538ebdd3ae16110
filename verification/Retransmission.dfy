/** Downlinks to a gateway and their repetition: by timeouts until an acknowledgement comes, and with a later
    transmission time when the gateway reports a collision. */
module Retransmission {
  import opened Codec
  import opened Wrappers

  type Token = t: int | 0 <= t < 0x1_0000

  const RETRIES: uint32 := 4
  const SHIFT: uint32 := 50000
  const MAX_SHIFT: uint32 := 800000
  const WAIT: nat := 2000

  /** A downlink that waits for its acknowledgement. The serial number says which call sent it; -1 stands for the
      empty entry that a report for an unknown token leaves. */
  datatype Downlink = Downlink(serial: int, data: bytes, retries: uint32, currentShift: uint32, sentTimestamp: uint32)

  /** A packet handed to the gateway. */
  datatype Packet = Packet(serial: int, token: Token, data: bytes, shift: uint32)

  /** What waits, how many downlinks were sent, and all packets handed to gateways. */
  datatype Net = Net(waiting: map<Token, Downlink>, sends: nat, packets: seq<Packet>)

  function PacketOf(d: Downlink, token: Token): Packet {
    Packet(d.serial, token, d.data, d.currentShift)
  }

  /** A busy token is not taken over: the downlink is sent once and does not wait. */
  function Send(n: Net, token: Token, data: bytes, now: nat): Net {
    var d := Downlink(n.sends, data, RETRIES, 0, now % 0x1_0000_0000);
    Net(if token in n.waiting then n.waiting else n.waiting[token := d], n.sends + 1, n.packets + [PacketOf(d, token)])
  }

  /** The difference of a 64-bit clock and a 32-bit stamp of it, unsigned. */
  predicate Due(d: Downlink, now: nat) {
    d.sentTimestamp != 0 && (now - d.sentTimestamp) % 0x1_0000_0000_0000_0000 > WAIT
  }

  function Decrement(retries: uint32): uint32 {
    (retries - 1) % 0x1_0000_0000
  }

  /** One entry when the timeouts are checked: what becomes of it, and whether it is sent again. */
  function Checked(d: Downlink, now: nat): Option<Downlink> {
    if !Due(d, now) then Some(d)
    else if Decrement(d.retries) == 0 then None
    else Some(d.(retries := Decrement(d.retries), sentTimestamp := now % 0x1_0000_0000))
  }

  function CheckOne(n: Net, token: Token, now: nat): Net {
    if token !in n.waiting || !Due(n.waiting[token], now) then n
    else
      match Checked(n.waiting[token], now)
      case None => n.(waiting := Minus(n.waiting, token))
      case Some(d) => n.(waiting := n.waiting[token := d], packets := n.packets + [PacketOf(d, token)])
  }

  /** The entries from a token on, in ascending order. */
  function CheckFrom(n: Net, token: nat, now: nat): Net
    decreases 0x1_0000 - token
  {
    if token >= 0x1_0000 then n else CheckFrom(CheckOne(n, token, now), token + 1, now)
  }

  /** The shift after a collision. */
  function Shifted(d: Downlink): uint32 {
    (d.currentShift + SHIFT) % 0x1_0000_0000
  }

  const EMPTY: Downlink := Downlink(-1, [], 0, 0, 0)

  /** A report of a collision sends the downlink again, later; when that is too late, and for any other report,
      the downlink is forgotten. */
  function Ack(n: Net, token: Token, collision: bool, now: nat): Net {
    var d := if token in n.waiting then n.waiting[token] else EMPTY;
    if collision && Shifted(d) < MAX_SHIFT then
      var e := d.(currentShift := Shifted(d), sentTimestamp := now % 0x1_0000_0000);
      n.(waiting := n.waiting[token := e], packets := n.packets + [PacketOf(e, token)])
    else n.(waiting := Minus(n.waiting, token))
  }

  // ---- Runs.

  datatype Event =
    | SendEvent(token: Token, data: bytes, sendTime: nat)
    | AckEvent(acked: Token, collision: bool, ackTime: nat)
    | CheckEvent(checkTime: nat)

  function After(n: Net, e: Event): Net {
    match e
    case SendEvent(token, data, now) => Send(n, token, data, now)
    case AckEvent(token, collision, now) => Ack(n, token, collision, now)
    case CheckEvent(now) => CheckFrom(n, 0, now)
  }

  function Run(events: seq<Event>): Net {
    if events == [] then Net(map[], 0, []) else After(Run(events[..|events| - 1]), events[|events| - 1])
  }

  /** How often the downlink with a serial number was handed to the gateway. */
  function Times(packets: seq<Packet>, serial: int): nat {
    if packets == [] then 0
    else
      Times(packets[..|packets| - 1], serial) + if packets[|packets| - 1].serial == serial then 1 else 0
  }

  const LIMIT: nat := 19

  /** Repetitions that are left to a waiting downlink: by timeouts and by shifts. */
  function Potential(d: Downlink): int {
    d.retries - 1 + (MAX_SHIFT - SHIFT - d.currentShift) / SHIFT
  }

  predicate InRange(d: Downlink) {
    1 <= d.retries <= RETRIES && d.currentShift % SHIFT == 0 && d.currentShift < MAX_SHIFT
  }

  /** Packets that were sent and repetitions that are left add up to the limit. */
  predicate WaitingOk(n: Net, token: Token)
    requires token in n.waiting
  {
    var d := n.waiting[token];
    d.serial == -1 ||
    (0 <= d.serial < n.sends && InRange(d) && Times(n.packets, d.serial) + Potential(d) == LIMIT)
  }

  /** No two entries are for the same downlink. */
  predicate Apart(n: Net, s: Token, t: Token)
    requires s in n.waiting && t in n.waiting
  {
    s != t && n.waiting[s].serial != -1 ==> n.waiting[s].serial != n.waiting[t].serial
  }

  ghost predicate Inv(n: Net) {
    && (forall t | t in n.waiting :: WaitingOk(n, t))
    && (forall s, t | s in n.waiting && t in n.waiting :: Apart(n, s, t))
    && (forall k: nat :: Times(n.packets, k) <= if k < n.sends then LIMIT else 0)
  }

  lemma TimesAppended(packets: seq<Packet>, p: Packet, k: int)
    ensures Times(packets + [p], k) == Times(packets, k) + if p.serial == k then 1 else 0
  {
    assert (packets + [p])[..|packets|] == packets;
  }

  lemma PotentialPositive(d: Downlink)
    requires InRange(d)
    ensures 0 <= Potential(d) < LIMIT
  {}

  /** A repetition of a waiting downlink uses up one of those that are left. */
  lemma RepeatKeeps(n: Net, token: Token, d: Downlink)
    requires Inv(n) && token in n.waiting && d.serial == n.waiting[token].serial
    requires n.waiting[token].serial != -1 ==> InRange(d) && Potential(d) == Potential(n.waiting[token]) - 1
    ensures Inv(n.(waiting := n.waiting[token := d], packets := n.packets + [PacketOf(d, token)]))
  {
    hide InRange, Potential, Times;
    var p := PacketOf(d, token);
    var m := n.(waiting := n.waiting[token := d], packets := n.packets + [p]);
    assert WaitingOk(n, token);
    forall t | t in m.waiting ensures WaitingOk(m, t) {
      TimesAppended(n.packets, p, m.waiting[t].serial);
      assert t in n.waiting && WaitingOk(n, t) && Apart(n, token, t);
    }
    forall s, t | s in m.waiting && t in m.waiting ensures Apart(m, s, t) {
      assert Apart(n, s, t);
    }
    forall k: nat ensures Times(m.packets, k) <= if k < m.sends then LIMIT else 0 {
      TimesAppended(n.packets, p, k);
      assert Times(n.packets, k) <= if k < n.sends then LIMIT else 0;
      if k == d.serial {
        PotentialPositive(d);
      }
    }
  }

  lemma RemoveKeeps(n: Net, token: Token)
    requires Inv(n)
    ensures Inv(n.(waiting := Minus(n.waiting, token)))
  {
    hide InRange, Potential, Times;
    var m := n.(waiting := Minus(n.waiting, token));
    forall t | t in m.waiting ensures WaitingOk(m, t) {
      assert WaitingOk(n, t);
    }
    forall s, t | s in m.waiting && t in m.waiting ensures Apart(m, s, t) {
      assert Apart(n, s, t);
    }
  }

  /** A report for a token that nothing waits for leaves an empty entry, which is no downlink. */
  lemma StrayKeeps(n: Net, token: Token, d: Downlink)
    requires Inv(n) && token !in n.waiting && d.serial == -1
    ensures Inv(n.(waiting := n.waiting[token := d], packets := n.packets + [PacketOf(d, token)]))
  {
    hide InRange, Potential, Times;
    var p := PacketOf(d, token);
    var m := n.(waiting := n.waiting[token := d], packets := n.packets + [p]);
    forall t | t in m.waiting ensures WaitingOk(m, t) {
      TimesAppended(n.packets, p, m.waiting[t].serial);
      assert t != token ==> WaitingOk(n, t);
    }
    forall s, t | s in m.waiting && t in m.waiting ensures Apart(m, s, t) {
      assert s != token && t != token ==> Apart(n, s, t);
      assert s != token ==> WaitingOk(n, s);
    }
    forall k: nat ensures Times(m.packets, k) <= if k < m.sends then LIMIT else 0 {
      TimesAppended(n.packets, p, k);
      assert Times(n.packets, k) <= if k < n.sends then LIMIT else 0;
    }
  }

  lemma SendKeeps(n: Net, token: Token, data: bytes, now: nat)
    requires Inv(n)
    ensures Inv(Send(n, token, data, now))
  {
    hide Times;
    var m := Send(n, token, data, now);
    var p := m.packets[|n.packets|];
    forall t | t in m.waiting ensures WaitingOk(m, t) {
      TimesAppended(n.packets, p, m.waiting[t].serial);
      if t in n.waiting {
        assert WaitingOk(n, t);
      } else {
        assert Times(n.packets, n.sends) == 0;
      }
    }
    forall s, t | s in m.waiting && t in m.waiting ensures Apart(m, s, t) {
      assert s in n.waiting ==> WaitingOk(n, s);
      assert t in n.waiting ==> WaitingOk(n, t);
      assert s in n.waiting && t in n.waiting ==> Apart(n, s, t);
    }
    forall k: nat ensures Times(m.packets, k) <= if k < m.sends then LIMIT else 0 {
      TimesAppended(n.packets, p, k);
      assert Times(n.packets, k) <= if k < n.sends then LIMIT else 0;
    }
  }

  lemma CheckOneKeeps(n: Net, token: Token, now: nat)
    requires Inv(n)
    ensures Inv(CheckOne(n, token, now))
  {
    hide Times;
    if token in n.waiting && Due(n.waiting[token], now) {
      assert WaitingOk(n, token);
      match Checked(n.waiting[token], now)
      case None => RemoveKeeps(n, token);
      case Some(d) => RepeatKeeps(n, token, d);
    }
  }

  lemma {:induction false} CheckFromKeeps(n: Net, token: nat, now: nat)
    requires Inv(n)
    ensures Inv(CheckFrom(n, token, now))
    decreases 0x1_0000 - token
  {
    hide Inv, CheckOne;
    if token < 0x1_0000 {
      CheckOneKeeps(n, token, now);
      CheckFromKeeps(CheckOne(n, token, now), token + 1, now);
    }
  }

  lemma AckKeeps(n: Net, token: Token, collision: bool, now: nat)
    requires Inv(n)
    ensures Inv(Ack(n, token, collision, now))
  {
    hide Times;
    var d := if token in n.waiting then n.waiting[token] else EMPTY;
    if collision && Shifted(d) < MAX_SHIFT {
      var e := d.(currentShift := Shifted(d), sentTimestamp := now % 0x1_0000_0000);
      if token in n.waiting {
        assert WaitingOk(n, token);
        RepeatKeeps(n, token, e);
      } else {
        StrayKeeps(n, token, e);
      }
    } else {
      RemoveKeeps(n, token);
    }
  }

  lemma {:induction false} RunInv(events: seq<Event>)
    ensures Inv(Run(events))
  {
    if events != [] {
      hide Inv, Send, Ack, CheckFrom;
      var n, e := Run(events[..|events| - 1]), events[|events| - 1];
      RunInv(events[..|events| - 1]);
      match e
      case SendEvent(token, data, now) => SendKeeps(n, token, data, now);
      case AckEvent(token, collision, now) => AckKeeps(n, token, collision, now);
      case CheckEvent(now) => CheckFromKeeps(n, 0, now);
    } else {
      assert forall k: nat :: Times([], k) == 0;
    }
  }

  /** In every interleaving of sends, reports and timeout checks, each downlink is handed to the gateway at most 19
      times: once, three more times by timeouts and fifteen times by shifts; and while it waits, the packets so far
      and the repetitions left add up to 19. */
  lemma AtMostNineteen(events: seq<Event>, k: nat)
    ensures Times(Run(events).packets, k) <= LIMIT
    ensures forall t | t in Run(events).waiting && Run(events).waiting[t].serial == k ::
              Times(Run(events).packets, k) + Potential(Run(events).waiting[t]) == LIMIT
  {
    hide Run, Times, Potential, InRange;
    RunInv(events);
    assert Times(Run(events).packets, k) <= if k < Run(events).sends then LIMIT else 0;
    forall t | t in Run(events).waiting && Run(events).waiting[t].serial == k
      ensures Times(Run(events).packets, k) + Potential(Run(events).waiting[t]) == LIMIT
    {
      assert WaitingOk(Run(events), t);
    }
  }

  // ---- Downlinks that nothing answers.

  /** A downlink that was sent at time p, or repeated then, is due at a later time exactly when its stamp is not zero
      and either two seconds have passed or the clock had outgrown the 32 bits of the stamp. */
  lemma DueExactly(d: Downlink, p: nat, now: nat)
    requires d.sentTimestamp == p % 0x1_0000_0000 && p <= now < 0x1_0000_0000_0000_0000
    ensures Due(d, now) <==> p % 0x1_0000_0000 != 0 && Late(p, now)
  {}

  predicate Late(p: nat, now: nat) {
    p >= 0x1_0000_0000 || now - p > WAIT
  }

  /** A 64-bit clock that does not go back. */
  predicate Clock(p: nat, times: seq<nat>)
    decreases |times|
  {
    times == [] || (p <= times[0] < 0x1_0000_0000_0000_0000 && Clock(times[0], times[1..]))
  }

  /** The checks that find a downlink due which was sent at time p: the first late one, then the first that is late
      after that one, and so on, until a stamp is zero. */
  function DueTimes(p: nat, times: seq<nat>): seq<nat>
    decreases |times|
  {
    if times == [] || p % 0x1_0000_0000 == 0 then []
    else if Late(p, times[0]) then [times[0]] + DueTimes(times[0], times[1..])
    else DueTimes(p, times[1..])
  }

  /** How many due checks a downlink survives, and one: the count of the code wraps around from zero. */
  function Patience(d: Downlink): (n: nat)
    ensures n > 0
  {
    if d.retries == 0 then 0x1_0000_0000 else d.retries
  }

  function CheckTimes(events: seq<Event>): seq<nat> {
    if events == [] then []
    else (if events[0].CheckEvent? then [events[0].checkTime] else []) + CheckTimes(events[1..])
  }

  function AfterAll(n: Net, events: seq<Event>): Net
    decreases |events|
  {
    if events == [] then n else AfterAll(After(n, events[0]), events[1..])
  }

  /** No gateway reports on a token. */
  predicate Unreported(k: Token, events: seq<Event>) {
    forall i | 0 <= i < |events| :: events[i].AckEvent? ==> events[i].acked != k
  }

  /** At some point of a run a token is not waited for. */
  predicate Leaves(n: Net, k: Token, events: seq<Event>) {
    exists i | 0 <= i <= |events| :: k !in AfterAll(n, events[..i]).waiting
  }

  lemma {:induction false} LeavesNext(n: Net, k: Token, events: seq<Event>)
    requires events != []
    ensures Leaves(n, k, events) <==> k !in n.waiting || Leaves(After(n, events[0]), k, events[1..])
  {
    hide After;
    forall i | 0 < i <= |events|
      ensures AfterAll(n, events[..i]) == AfterAll(After(n, events[0]), events[1..][..i - 1])
    {
      assert events[..i][1..] == events[1..][..i - 1];
    }
    assert AfterAll(n, events[..0]) == n;
    if Leaves(After(n, events[0]), k, events[1..]) {
      var i :| 0 <= i <= |events[1..]| && k !in AfterAll(After(n, events[0]), events[1..][..i]).waiting;
      assert k !in AfterAll(n, events[..i + 1]).waiting;
    }
  }

  lemma LeavesNow(n: Net, k: Token)
    ensures Leaves(n, k, []) <==> k !in n.waiting
  {
    var none: seq<Event> := [];
    assert none[..0] == none;
  }

  /** What waits under a token. */
  function Waiting(n: Net, k: Token): Option<Downlink> {
    if k in n.waiting then Some(n.waiting[k]) else None
  }

  /** A check of all entries treats each entry by itself, and once. */
  lemma {:induction false} CheckFromEntry(n: Net, token: nat, now: nat, k: Token)
    ensures Waiting(CheckFrom(n, token, now), k) ==
            if k in n.waiting && k >= token then Checked(n.waiting[k], now) else Waiting(n, k)
    decreases 0x1_0000 - token
  {
    hide Checked, Due;
    if token < 0x1_0000 {
      CheckOneEntry(n, token, now, k);
      CheckFromEntry(CheckOne(n, token, now), token + 1, now, k);
    }
  }

  lemma {:induction false} CheckOneEntry(n: Net, token: Token, now: nat, k: Token)
    ensures Waiting(CheckOne(n, token, now), k) ==
            if k == token && k in n.waiting then Checked(n.waiting[k], now) else Waiting(n, k)
  {
    hide Due;
  }

  /** Whatever happens but a report on its token, an entry of the table is touched by checks only, and each entry goes
      its own way. */
  lemma EntryAfter(n: Net, e: Event, k: Token)
    requires k in n.waiting && !(e.AckEvent? && e.acked == k)
    ensures Waiting(After(n, e), k) == if e.CheckEvent? then Checked(n.waiting[k], e.checkTime) else Some(n.waiting[k])
  {
    hide Checked, CheckFrom;
    if e.CheckEvent? {
      CheckFromEntry(n, 0, e.checkTime, k);
    }
  }

  lemma ClockTail(p: nat, times: seq<nat>)
    requires times != [] && Clock(p, times)
    ensures Clock(p, times[1..])
  {}

  /** One check: an entry that is not due stays as it is; a due one loses a retry and gets a new stamp, or goes. */
  lemma CheckedExactly(d: Downlink, p: nat, now: nat)
    requires d.sentTimestamp == p % 0x1_0000_0000 && p <= now < 0x1_0000_0000_0000_0000
    ensures var due := p % 0x1_0000_0000 != 0 && Late(p, now);
            && (!due ==> Checked(d, now) == Some(d))
            && (due && Patience(d) == 1 ==> Checked(d, now) == None)
            && (due && Patience(d) > 1 ==>
                && Checked(d, now).Some? && Checked(d, now).value.sentTimestamp == now % 0x1_0000_0000
                && Patience(Checked(d, now).value) == Patience(d) - 1)
  {
    hide Late;
    DueExactly(d, p, now);
  }

  /** In any run of sends, reports on other tokens and timeout checks at any rate, a downlink that nothing answers
      leaves the table if and only if there are as many due checks as it has retries. */
  lemma {:induction false} TimeoutsRemove(n: Net, k: Token, p: nat, events: seq<Event>)
    requires k in n.waiting && n.waiting[k].sentTimestamp == p % 0x1_0000_0000
    requires Unreported(k, events) && Clock(p, CheckTimes(events))
    ensures Leaves(n, k, events) <==> |DueTimes(p, CheckTimes(events))| >= Patience(n.waiting[k])
    decreases |events|
  {
    hide After, Checked, Late, Leaves, Patience;
    if events == [] {
      LeavesNow(n, k);
    } else {
      var e, rest, d := events[0], events[1..], n.waiting[k];
      var times := CheckTimes(events);
      assert forall i | 0 <= i < |rest| :: rest[i] == events[i + 1];
      EntryAfter(n, e, k);
      LeavesNext(n, k, events);
      if !e.CheckEvent? {
        assert times == CheckTimes(rest);
        TimeoutsRemove(After(n, e), k, p, rest);
      } else {
        CheckedExactly(d, p, e.checkTime);
        assert times[1..] == CheckTimes(rest);
        if p % 0x1_0000_0000 == 0 || !Late(p, e.checkTime) {
          ClockTail(p, times);
          TimeoutsRemove(After(n, e), k, p, rest);
        } else if Patience(d) == 1 {
          assert |DueTimes(p, times)| >= 1;
          GoneLeaves(After(n, e), k, rest);
        } else {
          TimeoutsRemove(After(n, e), k, e.checkTime, rest);
        }
      }
    }
  }

  lemma GoneLeaves(n: Net, k: Token, events: seq<Event>)
    requires k !in n.waiting
    ensures Leaves(n, k, events)
  {
    assert AfterAll(n, events[..0]) == n;
  }

  // ---- When there are enough due checks.

  /** No two checks, and no first check after q, are more than g apart. */
  predicate Frequent(q: nat, times: seq<nat>, g: nat)
    decreases |times|
  {
    times == [] || (times[0] <= q + g && Frequent(times[0], times[1..], g))
  }

  /** None of the times leaves a stamp of zero. */
  predicate Stamping(times: seq<nat>) {
    forall i | 0 <= i < |times| :: times[i] % 0x1_0000_0000 != 0
  }

  function Last(q: nat, times: seq<nat>): nat {
    if times == [] then q else times[|times| - 1]
  }

  /** How long r retries can take. */
  function Allowance(r: nat, g: nat): nat {
    r * (WAIT + 1 + g)
  }

  lemma AllowanceStep(r: nat, g: nat)
    ensures r == 0 ==> Allowance(r, g) == 0
    ensures r > 0 ==> Allowance(r, g) == Allowance(r - 1, g) + WAIT + 1 + g
  {
    if r > 0 {
      assert r * (WAIT + 1 + g) == (r - 1) * (WAIT + 1 + g) + (WAIT + 1 + g);
    }
  }

  /** Checks that go on long enough contain as many due ones as wanted; q is the check before, which came too early. */
  lemma {:induction false} EnoughDue(p: nat, q: nat, times: seq<nat>, g: nat, r: nat)
    requires p % 0x1_0000_0000 != 0 && p <= q && (q == p || !Late(p, q))
    requires Clock(q, times) && Frequent(q, times, g) && Stamping(times)
    requires Last(q, times) >= p + Allowance(r, g)
    ensures |DueTimes(p, times)| >= r
    decreases |times|
  {
    hide Allowance;
    AllowanceStep(r, g);
    if r > 0 {
      assert times != [];
      var t, rest := times[0], times[1..];
      assert forall i | 0 <= i < |rest| :: rest[i] == times[i + 1];
      assert Last(t, rest) == Last(q, times);
      if Late(p, t) {
        EnoughDue(t, t, rest, g, r - 1);
      } else {
        EnoughDue(p, t, rest, g, r);
      }
    }
  }

  /** Checks at most g apart, at none of which the clock is a multiple of 2^32, remove an unanswered downlink by the
      time its retries, each with the waiting time and g, have passed since it was sent. */
  lemma FrequentChecksRemove(n: Net, k: Token, p: nat, events: seq<Event>, g: nat)
    requires k in n.waiting && n.waiting[k].sentTimestamp == p % 0x1_0000_0000 != 0
    requires Unreported(k, events) && Clock(p, CheckTimes(events))
    requires Frequent(p, CheckTimes(events), g) && Stamping(CheckTimes(events))
    requires Last(p, CheckTimes(events)) >= p + Allowance(Patience(n.waiting[k]), g)
    ensures Leaves(n, k, events)
  {
    hide Leaves, Clock, Frequent, Stamping, CheckTimes, DueTimes, Last, Unreported, Patience, Allowance;
    EnoughDue(p, p, CheckTimes(events), g, Patience(n.waiting[k]));
    TimeoutsRemove(n, k, p, events);
  }

  /** A downlink with a free token is given up, unless a report on it comes, by 8004 milliseconds and four times the
      distance of the checks after it was sent. */
  lemma SentIsGivenUp(n: Net, k: Token, data: bytes, p: nat, events: seq<Event>, g: nat)
    requires k !in n.waiting && p % 0x1_0000_0000 != 0
    requires Unreported(k, events) && Clock(p, CheckTimes(events))
    requires Frequent(p, CheckTimes(events), g) && Stamping(CheckTimes(events))
    requires Last(p, CheckTimes(events)) >= p + 8004 + 4 * g
    ensures Leaves(After(n, SendEvent(k, data, p)), k, events)
  {
    hide Leaves, Clock, Frequent, Stamping, CheckTimes, Last, Unreported;
    FrequentChecksRemove(After(n, SendEvent(k, data, p)), k, p, events, g);
  }

  /** Times more than two seconds apart, of each other and of p. */
  predicate Spaced(p: nat, times: seq<nat>)
    decreases |times|
  {
    times == [] || (p + WAIT < times[0] && Spaced(times[0], times[1..]))
  }

  lemma StampingHead(t: nat, rest: seq<nat>)
    ensures Stamping([t] + rest) <==> t % 0x1_0000_0000 != 0 && Stamping(rest)
  {
    var times := [t] + rest;
    assert forall i | 0 <= i < |rest| :: rest[i] == times[i + 1];
    assert times[0] == t;
  }

  /** Among checks so far apart there are r due ones if and only if neither p nor the checks before the last of them
      leave a stamp of zero. */
  lemma {:induction false} SpacedDue(p: nat, times: seq<nat>, r: nat)
    requires Spaced(p, times) && 0 < r <= |times|
    ensures |DueTimes(p, times)| >= r <==> p % 0x1_0000_0000 != 0 && Stamping(times[..r - 1])
    decreases |times|
  {
    if p % 0x1_0000_0000 != 0 {
      var rest := times[1..];
      if r == 1 {
        assert |DueTimes(p, times)| >= 1 && times[..r - 1] == [];
      } else {
        SpacedDue(times[0], rest, r - 1);
        assert times[..r - 1] == [times[0]] + rest[..r - 2];
        StampingHead(times[0], rest[..r - 2]);
      }
    }
  }

  // ---- What single steps do, with every constant spelled out.

  /** A downlink is handed over at once, without shift; on a free token it waits, with four transmissions in all. */
  lemma SendEffect(n: Net, k: Token, data: bytes, now: nat)
    ensures var m := Send(n, k, data, now);
            && m.packets == n.packets + [Packet(n.sends, k, data, 0)] && m.sends == n.sends + 1
            && m.waiting == if k in n.waiting then n.waiting
                            else n.waiting[k := Downlink(n.sends, data, 4, 0, now % 0x1_0000_0000)]
  {}

  /** A report without collision forgets the downlink; a collision repeats it 50 milliseconds later than before, unless
      that makes 800 milliseconds or more, which forgets it too. Other downlinks are not touched. */
  lemma ReportEffect(n: Net, k: Token, collision: bool, now: nat)
    ensures var m := Ack(n, k, collision, now);
            && m.sends == n.sends
            && (!collision ==> m.packets == n.packets && m.waiting == map t | t in n.waiting && t != k :: n.waiting[t])
            && (collision && k in n.waiting && n.waiting[k].currentShift < 750000 ==>
                  var d := n.waiting[k];
                  && m.packets == n.packets + [Packet(d.serial, k, d.data, d.currentShift + 50000)]
                  && m.waiting == n.waiting[k := Downlink(d.serial, d.data, d.retries, d.currentShift + 50000,
                                                          now % 0x1_0000_0000)])
            && (collision && k in n.waiting && 750000 <= n.waiting[k].currentShift < 0x1_0000_0000 - 50000 ==>
                  m.packets == n.packets && m.waiting == map t | t in n.waiting && t != k :: n.waiting[t])
  {}

  /** A check repeats a downlink whose stamp is more than two seconds old, with the same shift, as long as a retry is
      left, and forgets it otherwise; a stamp of zero counts as none. */
  lemma CheckEffect(n: Net, k: Token, now: nat)
    requires k in n.waiting && 0 < n.waiting[k].retries && n.waiting[k].sentTimestamp <= now < 0x1_0000_0000_0000_0000
    ensures var m, d := CheckOne(n, k, now), n.waiting[k];
            if d.sentTimestamp == 0 || now - d.sentTimestamp <= 2000 then m == n
            else
              && m.sends == n.sends
              && (d.retries == 1 ==>
                    m.packets == n.packets && m.waiting == map t | t in n.waiting && t != k :: n.waiting[t])
              && (d.retries > 1 ==>
                    && m.packets == n.packets + [Packet(d.serial, k, d.data, d.currentShift)]
                    && m.waiting == n.waiting[k := d.(retries := d.retries - 1, sentTimestamp := now % 0x1_0000_0000)])
  {}

  lemma CheckOnePacket(n: Net, token: Token, now: nat)
    ensures var p, q := n.packets, CheckOne(n, token, now).packets;
            q == p || (|q| == |p| + 1 && q[..|p|] == p && q[|p|].token == token)
  {
    hide Due;
  }

  /** The packets of one check come in the order of their tokens, one for a token at most. */
  lemma {:induction false} InTokenOrder(n: Net, token: nat, now: nat)
    ensures var p, q := n.packets, CheckFrom(n, token, now).packets;
            && |p| <= |q| && q[..|p|] == p
            && (forall i | |p| <= i < |q| :: q[i].token >= token)
            && (forall i, j | |p| <= i < j < |q| :: q[i].token < q[j].token)
    decreases 0x1_0000 - token
  {
    hide CheckOne;
    if token < 0x1_0000 {
      var m := CheckOne(n, token, now);
      CheckOnePacket(n, token, now);
      InTokenOrder(m, token + 1, now);
      var q := CheckFrom(n, token, now).packets;
      assert forall i | 0 <= i < |m.packets| :: q[i] == q[..|m.packets|][i];
    }
  }

  // ---- A report without collision ends the repetition.

  /** A downlink was sent and nothing waits for a report on it any more. */
  predicate Gone(n: Net, k: nat) {
    k < n.sends && forall t | t in n.waiting :: n.waiting[t].serial != k
  }

  lemma CheckOneGone(n: Net, token: Token, now: nat, k: nat)
    requires Gone(n, k)
    ensures Gone(CheckOne(n, token, now), k) && Times(CheckOne(n, token, now).packets, k) == Times(n.packets, k)
  {
    hide Times, Due;
    if token in n.waiting {
      var d := n.waiting[token];
      var p := PacketOf(d.(retries := Decrement(d.retries), sentTimestamp := now % 0x1_0000_0000), token);
      TimesAppended(n.packets, p, k);
    }
  }

  lemma {:induction false} CheckFromGone(n: Net, token: nat, now: nat, k: nat)
    requires Gone(n, k)
    ensures Gone(CheckFrom(n, token, now), k) && Times(CheckFrom(n, token, now).packets, k) == Times(n.packets, k)
    decreases 0x1_0000 - token
  {
    hide Gone, CheckOne, Times;
    if token < 0x1_0000 {
      CheckOneGone(n, token, now, k);
      CheckFromGone(CheckOne(n, token, now), token + 1, now, k);
    }
  }

  lemma AfterGone(n: Net, e: Event, k: nat)
    requires Gone(n, k)
    ensures Gone(After(n, e), k) && Times(After(n, e).packets, k) == Times(n.packets, k)
  {
    hide Times, CheckFrom;
    match e
    case SendEvent(token, data, now) =>
      TimesAppended(n.packets, Packet(n.sends, token, data, 0), k);
    case AckEvent(token, collision, now) =>
      var d := if token in n.waiting then n.waiting[token] else EMPTY;
      var e := d.(currentShift := Shifted(d), sentTimestamp := now % 0x1_0000_0000);
      TimesAppended(n.packets, PacketOf(e, token), k);
    case CheckEvent(now) =>
      CheckFromGone(n, 0, now, k);
  }

  lemma {:induction false} NeverAgain(n: Net, events: seq<Event>, k: nat)
    requires Gone(n, k)
    ensures Gone(AfterAll(n, events), k) && Times(AfterAll(n, events).packets, k) == Times(n.packets, k)
    decreases |events|
  {
    hide Gone, After, Times;
    if events != [] {
      AfterGone(n, events[0], k);
      NeverAgain(After(n, events[0]), events[1..], k);
    }
  }

  /** In every run: once a gateway reports without collision on a token, the downlink that waited under it is never
      handed over again, whatever happens later. */
  lemma ReportEnds(events: seq<Event>, k: Token, now: nat, later: seq<Event>)
    requires k in Run(events).waiting && Run(events).waiting[k].serial >= 0
    ensures var n := Run(events);
            Times(AfterAll(After(n, AckEvent(k, false, now)), later).packets, n.waiting[k].serial) ==
            Times(n.packets, n.waiting[k].serial)
  {
    hide Run, Times, InRange, Potential;
    RunInv(events);
    var n := Run(events);
    assert WaitingOk(n, k);
    assert forall t | t in n.waiting :: Apart(n, k, t);
    NeverAgain(After(n, AckEvent(k, false, now)), later, n.waiting[k].serial);
  }

  // ---- The code.

  class ProtoHandler {
    var downlinkPackets: map<Token, Downlink>
    var packets: seq<Packet>
    ghost var sends: nat

    ghost function State(): Net
      reads this
    {
      Net(downlinkPackets, sends, packets)
    }

    constructor ()
      ensures State() == Run([])
    {
      downlinkPackets, packets, sends := map[], [], 0;
    }

    method SendGatewayData(d: Downlink, token: Token)
      modifies this`packets
      ensures packets == old(packets) + [PacketOf(d, token)]
    {
      packets := packets + [Packet(d.serial, token, d.data, d.currentShift)];
    }

    method SendData(token: Token, data: bytes, now: nat, serial: nat)
      requires serial == sends
      modifies this
      ensures State() == Send(old(State()), token, data, now)
    {
      var downlink := Downlink(serial, data, 4, 0, now % 0x1_0000_0000);
      if token !in downlinkPackets {
        downlinkPackets := downlinkPackets[token := downlink];
      }
      sends := sends + 1;
      SendGatewayData(downlink, token);
    }

    method TxAck(token: Token, collision: bool, now: nat)
      modifies this
      ensures State() == Ack(old(State()), token, collision, now)
    {
      if collision {
        var d := if token in downlinkPackets then downlinkPackets[token] else EMPTY;
        d := d.(currentShift := (d.currentShift + 50000) % 0x1_0000_0000);
        downlinkPackets := downlinkPackets[token := d];
        if d.currentShift < 800000 {
          d := d.(sentTimestamp := now % 0x1_0000_0000);
          downlinkPackets := downlinkPackets[token := d];
          SendGatewayData(d, token);
          return;
        }
      }
      downlinkPackets := Minus(downlinkPackets, token);
    }

    method SelectTimeout(now: nat)
      modifies this
      ensures State() == CheckFrom(old(State()), 0, now)
    {
      hide CheckOne;
      var token := 0;
      while token < 0x1_0000
        invariant 0 <= token <= 0x1_0000
        invariant CheckFrom(old(State()), 0, now) == CheckFrom(State(), token, now)
      {
        CheckEntry(token, now);
        token := token + 1;
      }
    }

    method CheckEntry(token: Token, now: nat)
      modifies this
      ensures State() == CheckOne(old(State()), token, now)
    {
      if token in downlinkPackets {
        var data := downlinkPackets[token];
        if data.sentTimestamp != 0 && (now - data.sentTimestamp) % 0x1_0000_0000_0000_0000 > 2000 {
          data := data.(retries := (data.retries - 1) % 0x1_0000_0000);
          if data.retries != 0 {
            data := data.(sentTimestamp := now % 0x1_0000_0000);
            downlinkPackets := downlinkPackets[token := data];
            SendGatewayData(data, token);
          } else {
            downlinkPackets := Minus(downlinkPackets, token);
          }
        }
      }
    }
  }
}
