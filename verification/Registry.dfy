/** The registry as it works on its maps: the loading methods call each other and come to an end because each device
    is loaded once. */
module Registry {
  import opened Codec
  import opened Wrappers
  import opened RegistryModel
  import opened RegistryRuns

  class Registry {
    var info: map<DevKey, Option<Addr>>
    var sessions: map<Addr, Option<DevKey>>
    var sessionByDevAddr: map<uint32, seq<Addr>>
    var sessionSendData: map<Addr, seq<bytes>>

    function State(): RegistryModel.State
      reads this
    {
      RegistryModel.State(info, sessions, sessionByDevAddr, sessionSendData)
    }

    constructor ()
      ensures State() == EMPTY
    {
      info, sessions, sessionByDevAddr, sessionSendData := map[], map[], map[], map[];
    }

    method EraseDeviceSession(a: Addr)
      modifies this
      ensures State() == Erase(old(State()), a)
    {
      hide Remove;
      sessionSendData := Minus(sessionSendData, a);
      if a.dev in sessionByDevAddr {
        var entries := EraseEntry(sessionByDevAddr[a.dev], a);
        sessionByDevAddr := sessionByDevAddr[a.dev := entries];
      }
      sessions := Minus(sessions, a);
    }

    method CreateSession(s: Script, k: DevKey)
      modifies this
      ensures State() == Create(s, old(State()), k)
    {
      var addr := Addr(0, s.pick(sessions.Keys));
      sessions := sessions[addr := Some(k)];
      info := info[k := Some(addr)];
    }

    method FindDeviceInfo(s: Script, k: DevKey) returns (found: bool)
      requires Finite(s)
      modifies this
      ensures State() == FindInfo(s, old(State()), k) && (found <==> k in info)
      decreases Left(s, State()), 1, 0
    {
      if k !in info {
        OneFewer(s, State(), k);
        if s.device(k) != [] {
          GetDeviceFromScript(s, k, s.device(k));
        }
      }
      found := k in info;
    }

    method GetDeviceFromScript(s: Script, k: DevKey, answers: seq<Option<Addr>>)
      requires Finite(s) && k in s.known
      modifies this
      ensures State() == Devices(s, old(State()), k, answers)
      decreases LeftBesides(s, State(), k), 5, |answers|
    {
      hide Device;
      if answers == [] {
        return;
      }
      ghost var st := State();
      EnterDevice(s, k, answers[0]);
      FewerBesides(s, st, State(), k);
      GetDeviceFromScript(s, k, answers[1..]);
    }

    method EnterDevice(s: Script, k: DevKey, answer: Option<Addr>)
      requires Finite(s) && k in s.known
      modifies this
      ensures State() == Device(s, old(State()), k, answer)
      decreases LeftBesides(s, State(), k), 4, 0
    {
      hide FindSession, Create;
      OneFewer(s, State(), k);
      info := info[k := None];
      if answer.Some? {
        var found := FindDeviceSession(s, answer.value.dev, answer.value.net);
        if found != [] {
          info := info[k := Some(found[0])];
        }
      }
      if info[k].None? {
        CreateSession(s, k);
      }
    }

    method FindDeviceSession(s: Script, dev: uint32, net: uint32) returns (found: seq<Addr>)
      requires Finite(s)
      modifies this
      ensures (State(), found) == FindSession(s, old(State()), dev, net)
      decreases Left(s, State()), 3, 0
    {
      if net == 0 {
        if Indexed(State(), dev) == [] {
          GetSessionFromScript(s, dev, s.session(dev, 0));
        }
        return Indexed(State(), dev);
      }
      var a := Addr(net, dev);
      if a !in sessions {
        GetSessionFromScript(s, dev, s.session(dev, net));
      }
      found := if a in sessions then [a] else [];
    }

    method GetSessionFromScript(s: Script, dev: uint32, answers: seq<Answer>)
      requires Finite(s)
      modifies this
      ensures State() == Sessions(s, old(State()), dev, answers)
      decreases Left(s, State()), 2, |answers|
    {
      if answers == [] {
        return;
      }
      ghost var st := State();
      if answers[0].device.Some? {
        var a, d := answers[0].addr, answers[0].device.value;
        sessions := sessions[a := None];
        sessionByDevAddr := sessionByDevAddr[dev := Indexed(State(), dev) + [a]];
        assert State() == Insert(st, dev, a);
        assert Left(s, State()) == Left(s, st);
        var found := FindDeviceInfo(s, d);
        if found {
          LinkSession(a, d);
        }
        Fewer(s, st, State());
      }
      GetSessionFromScript(s, dev, answers[1..]);
    }

    method LinkSession(a: Addr, d: DevKey)
      requires d in info
      modifies this
      ensures State() == Link(old(State()), a, d)
    {
      sessions := sessions[a := Some(d)];
      if info[d].Some? && info[d].value != a {
        EraseDeviceSession(info[d].value);
      }
      info := info[d := Some(a)];
    }

    method InvalidateDevice(k: DevKey)
      modifies this
      ensures State() == Invalidate(old(State()), k)
    {
      if k !in info || info[k].None? {
        return;
      }
      EraseDeviceSession(info[k].value);
      info := Minus(info, k);
    }

    method Send(a: Addr, data: bytes)
      modifies this`sessionSendData
      ensures State() == RegistryModel.Send(old(State()), a, data)
    {
      sessionSendData := sessionSendData[a := (if a in sessionSendData then sessionSendData[a] else []) + [data]];
    }
  }

  /** Erases the first entry for a session. */
  method EraseEntry(entries: seq<Addr>, a: Addr) returns (r: seq<Addr>)
    ensures r == Remove(entries, a)
  {
    var i := 0;
    while i < |entries| && entries[i] != a
      invariant 0 <= i <= |entries| && Remove(entries, a) == entries[..i] + Remove(entries[i..], a)
    {
      assert entries[i..][0] == entries[i] && entries[i..][1..] == entries[i + 1..];
      assert entries[..i + 1] == entries[..i] + [entries[i]];
      i := i + 1;
    }
    if i < |entries| {
      assert entries[i..][0] == a && entries[i..][1..] == entries[i + 1..];
      r := entries[..i] + entries[i + 1..];
    } else {
      assert entries[i..] == [] && entries[..i] == entries;
      r := entries;
    }
  }
}
