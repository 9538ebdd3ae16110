/** The message handler as it works on its queues. Each method is proved to take the step of the model. */
module Handler {
  import opened Codec
  import opened LoraAes
  import opened Wrappers
  import opened DataFrame
  import opened HandlerModel
  import DataMessage
  import Join

  class Handler {
    var sessions: map<Sid, Session>
    var queues: map<Sid, seq<Entry>>
    var sendQueue: seq<Item>
    var commands: seq<Command>
    var radio: seq<bytes>

    /** The state with the record of what has happened. */
    ghost var world: World

    ghost predicate Valid()
      reads this
    {
      && sessions == world.sessions && queues == world.apps.queues && sendQueue == world.apps.sendQueue
      && commands == world.mac.commands && radio == world.radio
    }

    constructor ()
      ensures Valid() && world == START
    {
      sessions, queues, sendQueue, commands, radio := map[], map[], [], [], [];
      world := START;
    }

    method LoadSession(s: Sid, session: Session)
      requires Valid()
      modifies this
      ensures Valid() && world == Load(old(world), s, session)
    {
      if s !in sessions {
        sessions := sessions[s := session];
      }
      world := Load(world, s, session);
    }

    // ---- Messages of applications.

    function SendQueueOf(s: Sid): seq<Entry>
      reads this
    {
      if s in queues then queues[s] else []
    }

    method Send(s: Sid, m: Message)
      requires Valid()
      modifies this`queues, this`world
      ensures Valid() && world == old(world).(apps := Append(old(world).apps, s, m))
    {
      queues := queues[s := SendQueueOf(s) + [Entry(m, 0)]];
      world := world.(apps := Append(world.apps, s, m));
    }

    /** The application gets the data and may send messages in return. */
    method ProcessAppData(replies: seq<(Sid, Message)>)
      requires Valid()
      modifies this`queues, this`world
      ensures Valid() && world == old(world).(apps := AppendAll(old(world).apps, replies))
    {
      for i := 0 to |replies|
        invariant Valid() && world == old(world).(apps := world.apps)
        invariant AppendAll(old(world).apps, replies) == AppendAll(world.apps, replies[i..])
      {
        assert replies[i..][1..] == replies[i + 1..];
        Send(replies[i].0, replies[i].1);
      }
    }

    // ---- MAC commands.

    /** Counts a request in the pending answer of the session, or queues an answer. */
    method ProcessLinkCheck(s: Sid, lsnr: byte)
      requires Valid()
      modifies this`commands, this`world
      ensures Valid() && world == old(world).(mac := LinkCheck(old(world).mac, s, lsnr))
    {
      var gwcnt, j := 1, 0;
      while j < |commands|
        invariant 0 <= j <= |commands| && commands == old(commands) && gwcnt == 1
        invariant FirstLinkAnswer(commands, s) == j + FirstLinkAnswer(commands[j..], s)
      {
        assert commands[j..][0] == commands[j] && commands[j..][1..] == commands[j + 1..];
        var c := commands[j];
        if c.session == s && c.id == LINK_CHECK {
          gwcnt := gwcnt + Gateways(c);
          commands := commands[j := c.(params := [if |c.params| > 0 then c.params[0] else 0, (Gateways(c) + 1) % 256])];
          break;
        }
        j := j + 1;
      }
      if gwcnt == 1 {
        commands := commands + [Command(LINK_CHECK, s, [lsnr, 1])];
      }
      world := world.(mac := LinkCheck(world.mac, s, lsnr));
    }

    /** One command of the scan; gives the position of the last byte it used. */
    method ProcessOneCommand(s: Sid, b: bytes, i: nat, lsnr: byte) returns (last: nat)
      requires Valid() && s in sessions && i < |b|
      modifies this`commands, this`sessions, this`world
      ensures Valid() && world == MacCommand(old(world), s, b, i, lsnr) && s in sessions
      ensures last + 1 == i + Step(b, i)
    {
      hide LinkCheck;
      last := i;
      var c := b[i];
      if c == LINK_CHECK {
        ProcessLinkCheck(s, lsnr);
      } else if c == LINK_ADR || c == RX_PARAM_SETUP || c == NEW_CHANNEL {
        last := last + 1;
      } else if c == DEV_STATUS {
        last := last + 2;
      } else if c == RX_TIMING_SETUP {
        if |b| <= i + 1 {
          return;
        }
        var settings := TimingDelay(b[i]);
        last := last + 1;
        sessions := sessions[s := sessions[s].(rxDelay1 := settings)];
        commands := commands + [Command(RX_TIMING_SETUP, s, [])];
        world := MacCommand(world, s, b, i, lsnr);
      }
    }

    method ProcessMacCommand(s: Sid, b: bytes, lsnr: byte)
      requires Valid() && s in sessions
      modifies this`commands, this`sessions, this`world
      ensures Valid() && world == MacScan(old(world), s, b, 0, lsnr) && s in sessions
    {
      hide MacCommand;
      var i := 0;
      while i < |b|
        invariant Valid() && s in sessions && 0 <= i
        invariant MacScan(old(world), s, b, 0, lsnr) == MacScan(world, s, b, i, lsnr)
        decreases |b| - i
      {
        i := ProcessOneCommand(s, b, i, lsnr);
        i := i + 1;
      }
    }

    // ---- Scheduling.

    /** Queues a downlink that carries the message at the front; an unconfirmed message leaves its queue. */
    method ScheduleItem(item: Item, attempts: nat)
      requires Valid()
      modifies this`queues, this`sendQueue, this`world
      ensures Valid() && world == old(world).(apps := Schedule(old(world).apps, item, attempts))
    {
      var s := item.session;
      var q := SendQueueOf(s);
      var toSend := item;
      if q != [] {
        var m := q[0].msg;
        toSend := item.(port := m.port, data := m.data, confirmed := m.confirmed);
        if !toSend.confirmed {
          queues := queues[s := q[1..]];
        } else {
          queues := queues[s := [q[0].(transmitted := attempts)] + q[1..]];
        }
      }
      sendQueue := sendQueue + [toSend];
      world := world.(apps := Schedule(world.apps, item, attempts));
    }

    // ---- Uplinks.

    method CheckAck(s: Sid, ctrl: byte)
      requires Valid()
      modifies this`queues, this`world
      ensures Valid() && world == old(world).(apps := TakeAck(old(world).apps, s, ctrl))
      ensures forall x :: SendQueueOf(x) ==
                          var q := old(SendQueueOf(x));
                          if x == s && ctrl / 32 % 2 == 1 && q != [] && q[0].msg.confirmed && q[0].transmitted > 0
                          then q[1..] else q
    {
      var q := SendQueueOf(s);
      if ctrl / 32 % 2 == 1 && q != [] && q[0].msg.confirmed && q[0].transmitted != 0 {
        queues := queues[s := q[1..]];
      }
      world := world.(apps := TakeAck(world.apps, s, ctrl));
    }

    method ProcessPayload(f: Frame, c: Candidate, lsnr: byte) returns (gotCommands: bool)
      requires Valid() && c.session in sessions
      modifies this`sessions, this`queues, this`commands, this`world
      ensures Valid() && world == TakeData(old(world), f, c, lsnr) && c.session in sessions
      ensures gotCommands <==> f.cnt != old(sessions)[c.session].fCntUp && f.data != [] && f.port == 0
    {
      hide MacScan, AppendAll;
      var s := c.session;
      var retransmitted := f.cnt == sessions[s].fCntUp;
      gotCommands := false;
      if !retransmitted {
        if |f.data| != 0 {
          if f.port == 0 {
            ProcessMacCommand(s, f.data, lsnr);
            gotCommands := true;
          } else {
            ProcessAppData(c.replies);
          }
        }
        sessions := sessions[s := sessions[s].(fCntUp := f.cnt)];
        world := TakeData(old(world), f, c, lsnr);
      }
    }

    /** One session for which the uplink verified; tells whether it was answered. */
    method AcceptUplink(u: Uplink, f: Frame, c: Candidate) returns (answered: bool)
      requires Valid() && c.session in sessions
      modifies this`sessions, this`queues, this`sendQueue, this`commands, this`world
      ensures Valid() && world == Accept(old(world), u, f, c)
      ensures answered <==> Answers(old(world), u, f, c)
    {
      hide TakeData, TakeAck, MacScan, Schedule;
      var s := c.session;
      var sendBefore := Deadline(u.now, sessions[s].rxDelay1);
      CheckAck(s, f.ctrl);
      var gotCommands := ProcessPayload(f, c, u.lsnr);
      if |f.opts| != 0 {
        ProcessMacCommand(s, f.opts, u.lsnr);
        gotCommands := true;
      }
      assert world == Heard(old(world), u, f, c);
      var confirmed := u.kind == ConfirmedUp;
      answered := confirmed || gotCommands || SendQueueOf(s) != [];
      if answered {
        ScheduleItem(EmptyItem(s, sendBefore, if confirmed then ACK else 0), 1);
        sessions := sessions[s := sessions[s].(lastAccess := u.now)];
        world := Accept(old(world), u, f, c);
      }
    }

    /** Tries the sessions with the address of the uplink until one answers it. */
    method ProcessUplink(u: Uplink, candidates: seq<Candidate>)
      requires Valid() && Readable(u.payload)
      modifies this
      ensures Valid() && world == ProcessData(old(world), u, candidates)
    {
      hide Accept, Answers, Received, Verifies, Encrypted;
      var i := 0;
      while i < |candidates|
        invariant 0 <= i <= |candidates| && Valid()
        invariant ProcessData(old(world), u, candidates) == ProcessData(world, u, candidates[i..])
      {
        var c := candidates[i];
        assert candidates[i..][0] == c && candidates[i..][1..] == candidates[i + 1..];
        if c.session in sessions {
          var f, ok := DataMessage.ReceiveFields(u.kind, u.payload, sessions[c.session].keys);
          if ok {
            var answered := AcceptUplink(u, f, c);
            if answered {
              return;
            }
          }
        }
        i := i + 1;
      }
    }

    // ---- Class C devices and the send queue.

    method ProcessClassCSendQueue(order: seq<Sid>, now: nat, ctrl: byte)
      requires Valid()
      modifies this`sessions, this`queues, this`sendQueue, this`world
      ensures Valid() && world == ClassCAll(old(world), order, now, ctrl)
    {
      hide Schedule, ClassC;
      for i := 0 to |order|
        invariant Valid() && ClassCAll(old(world), order, now, ctrl) == ClassCAll(world, order[i..], now, ctrl)
      {
        assert order[i..][0] == order[i] && order[i..][1..] == order[i + 1..];
        ServeClassC(order[i], now, ctrl);
      }
    }

    method ServeClassC(s: Sid, now: nat, ctrl: byte)
      requires Valid()
      modifies this`sessions, this`queues, this`sendQueue, this`world
      ensures Valid() && world == ClassC(old(world), s, now, ctrl)
    {
      hide Schedule;
      if s !in sessions || !sessions[s].classC {
        return;
      }
      var q := SendQueueOf(s);
      if q == [] || sessions[s].lastAccess + 1000000 > now {
        return;
      }
      ScheduleItem(EmptyItem(s, now % 0x1_0000_0000, ctrl), q[0].transmitted + 1);
      sessions := sessions[s := sessions[s].(lastAccess := now)];
      world := ClassC(old(world), s, now, ctrl);
    }

    /** Takes the pending answers of a session out of the list and gives their bytes. */
    method CollectAnswers(s: Sid) returns (data: bytes)
      modifies this`commands
      ensures commands == Others(old(commands), s)
      ensures data == Bytes(Own(old(commands), s))
    {
      data := [];
      var kept := [];
      var i := 0;
      assert commands[0..] == commands;
      while i < |commands|
        invariant 0 <= i <= |commands| && commands == old(commands)
        invariant kept + Others(commands[i..], s) == Others(commands, s)
        invariant data + Bytes(Own(commands[i..], s)) == Bytes(Own(commands, s))
      {
        CollectStep(commands[i..], s, data, kept);
        assert commands[i..][0] == commands[i] && commands[i..][1..] == commands[i + 1..];
        if commands[i].session == s {
          data := data + [commands[i].id] + commands[i].params;
        } else {
          kept := kept + [commands[i]];
        }
        i := i + 1;
      }
      CollectEnd(commands[i..], s, data, kept);
      commands := kept;
    }

    /** Composes the frame of a downlink and hands its bytes to the radio. */
    method SendDeviceData(item: Item)
      requires item.session in sessions
      modifies this`sessions, this`radio
      ensures var o := old(sessions)[item.session];
              && sessions == old(sessions)[item.session := o.(fCntDown := (o.fCntDown + 1) % 0x1_0000_0000)]
              && radio == old(radio) + [Payload(item, o)]
    {
      hide Composed, Verifies, Parsed;
      var session := sessions[item.session];
      var ack := new DataMessage.DataUp(if item.confirmed then ConfirmedDown else UnconfirmedDown);
      ack.SetData(item.data);
      ack.SetPort(item.port % 256);
      ack.SetOpts(item.opts);
      var ok := ack.SetDevice(session.keys);
      ack.SetCtrl(item.ctrl);
      ack.SetCnt(session.fCntDown % 0x1_0000);
      ack.SetDevAddress(session.deviceAddr);
      sessions := sessions[item.session := session.(fCntDown := (session.fCntDown + 1) % 0x1_0000_0000)];
      var payload := ack.GetPayload(session.keys);
      radio := radio + [payload];
    }

    /** Sends the head of the queue together with the pending answers of its session. */
    method SendHead()
      requires Valid() && HasHead(world)
      modifies this
      ensures Valid() && world == SendOne(old(world))
    {
      hide Own, Others, Bytes, Payload;
      var sendData := sendQueue[0];
      sendQueue := sendQueue[1..];
      var data := CollectAnswers(sendData.session);
      if data != [] {
        if sendData.port == 0 {
          sendData := sendData.(data := sendData.data + data);
        } else {
          sendData := sendData.(opts := data);
        }
      }
      SendDeviceData(sendData);
      world := SendOne(world);
    }

    method Flush(order: seq<Sid>, nowC: nat, ctrl: byte, now: nat)
      requires Valid()
      modifies this
      ensures Valid() && world == ProcessSendQueue(old(world), order, nowC, ctrl, now)
    {
      hide SendOne, ClassCAll;
      ProcessClassCSendQueue(order, nowC, ctrl);
      ghost var w := world;
      var curTs: uint32 := now % 0x1_0000_0000;
      while sendQueue != [] && curTs != 0 && sendQueue[0].session in sessions
        invariant Valid() && SendAll(w, curTs) == SendAll(world, curTs)
        decreases |sendQueue|
      {
        if sendQueue[0].sendBefore < (curTs - 200000) % 0x1_0000_0000 {
          break;
        }
        ghost var before := world;
        SendHead();
        assert sendQueue == before.apps.sendQueue[1..] by { SendOneQueue(before); }
      }
    }

    // ---- Joins.

    /** One candidate session of a join request. The request is verified and answered as Join says; the session of
        an accepted request takes the step of the model. */
    method ProcessJoin(s: Sid, request: Join.JoinRequest, appKey: Key, deviceKey: Option<Key>, channels: seq<uint32>,
                       now: nat)
      returns (answer: Option<bytes>)
      requires Valid() && s in sessions && |request.payload| >= 19
      modifies this`sessions, this`world, request
      ensures Valid() && s in sessions
      ensures request.State() == old(Join.RequestParsed(request.State())) && request.devNOnce < 0x1_0000
      ensures world == if Join.RequestVerifies(request.State(), appKey)
                       then JoinSession(old(world), s, deviceKey, request.devNOnce, now) else old(world)
      ensures answer.Some? <==> Join.RequestVerifies(request.State(), appKey)
                                && Join.FreshNonce(old(sessions[s].devNOnce), request.devNOnce)
      ensures answer.Some? ==>
              answer.value == Join.AcceptComposed(Join.Answer(JoiningOf(sessions[s]), channels), appKey).payload
    {
      hide Join.NewKeys, Join.RequestVerifies, Join.AcceptComposed, Join.RequestParsed, Join.StandardKeys, Mic;
      Join.ParsedNonce(request.State());
      var session := sessions[s];
      var joining := new Join.Session(JoiningOf(session));
      answer := Join.AnswerJoin(request, appKey, deviceKey, channels, joining);
      if answer.Some? {
        sessions := sessions[s := session.(devNOnce := joining.devNOnce, nOnce := joining.nOnce, keys := joining.keys,
                                           fCntUp := joining.fCntUp, fCntDown := joining.fCntDown, lastAccess := now)];
        world := JoinSession(world, s, deviceKey, request.devNOnce, now);
      }
    }
  }

  lemma SendOneQueue(w: World)
    requires HasHead(w)
    ensures SendOne(w).apps.sendQueue == w.apps.sendQueue[1..]
  {
    hide NewSent, Payload, Others;
  }

  lemma CollectStep(c: seq<Command>, s: Sid, data: bytes, kept: seq<Command>)
    requires c != []
    ensures c[0].session == s ==>
              && Others(c, s) == Others(c[1..], s)
              && data + Bytes(Own(c, s)) == data + [c[0].id] + c[0].params + Bytes(Own(c[1..], s))
    ensures c[0].session != s ==>
              && kept + Others(c, s) == kept + [c[0]] + Others(c[1..], s)
              && Bytes(Own(c, s)) == Bytes(Own(c[1..], s))
  {
    hide Own, Others, Bytes;
    TakenFirst(c, s);
    if c[0].session == s {
      var rest := Bytes(Own(c[1..], s));
      assert data + ([c[0].id] + c[0].params + rest) == data + [c[0].id] + c[0].params + rest;
    }
  }

  /** The first command is one of those taken or one of the others. */
  lemma TakenFirst(c: seq<Command>, s: Sid)
    requires c != []
    ensures if c[0].session == s then
              Others(c, s) == Others(c[1..], s)
              && Bytes(Own(c, s)) == [c[0].id] + c[0].params + Bytes(Own(c[1..], s))
            else
              Others(c, s) == [c[0]] + Others(c[1..], s) && Own(c, s) == Own(c[1..], s)
  {
    if c[0].session == s {
      assert Own(c, s)[1..] == Own(c[1..], s);
    }
  }

  lemma CollectEnd(c: seq<Command>, s: Sid, data: bytes, kept: seq<Command>)
    requires c == []
    ensures kept + Others(c, s) == kept && data + Bytes(Own(c, s)) == data
  {}
}
