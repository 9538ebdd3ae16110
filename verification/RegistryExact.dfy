/** What a consistent script must not do, exactly, for the registry to stay consistent in every run. */
module RegistryExact {
  import opened Codec
  import opened Wrappers
  import opened RegistryModel
  import opened RegistryRuns

  // ---- Runs with one script.

  /** Random addresses are drawn until one of 24 bits is found that no session has. */
  predicate DrawEnded(s: Script, st: State, op: Op) {
    op.FindInfoOp? && op.k !in st.info && s.device(op.k) == [None] ==>
      var x := s.pick(st.sessions.Keys);
      x < ADDRESSES && Addr(0, x) !in st.sessions
  }

  /** Any run with the answers of s, whatever random addresses are drawn. */
  ghost predicate RunWith(s: Script, events: seq<(Script, Op)>) {
    && AllFinite(events)
    && (forall i | 0 <= i < |events| :: events[i].0 == s.(pick := events[i].0.pick))
    && (forall i | 0 <= i < |events| :: DrawEnded(events[i].0, RunState(events[..i]), events[i].1))
  }

  /** The answers alone decide what a script promises. */
  lemma {:induction false} OtherDraws(s: Script, r: Script, st: State)
    requires r == s.(pick := r.pick)
    ensures Agrees(s) ==> Agrees(r)
    ensures Good(s, st) <==> Good(r, st)
    ensures ZeroAlone(s) ==> ZeroAlone(r)
    ensures ZeroUndrawn(s) ==> ZeroUndrawn(r)
  {
    hide Bijection;
    assert forall dev: uint32, k: DevKey, l: DevKey :: Shares(s, dev, k, l) <==> Shares(r, dev, k, l);
    assert forall dev: uint32 :: ZeroAloneAt(s, dev) <==> ZeroAloneAt(r, dev);
    assert forall dev: uint32 :: IndexKnown(s, st, dev) <==> IndexKnown(r, st, dev);
    assert forall dev: uint32, net: uint32 ::
      Fits(s, dev, net, s.session(dev, net)) <==> Fits(r, dev, net, r.session(dev, net));
  }

  lemma {:induction false} EndedSafe(s: Script, st: State, op: Op)
    requires Agrees(s) && ZeroAlone(s) && ZeroUndrawn(s) && DrawEnded(s, st, op)
    ensures Safe(s, st, op)
  {
    hide Agrees, ZeroAloneAt, ZeroLeads;
    if op.FindSessionOp? {
      AloneLeads(s, op.dev);
    }
  }

  lemma {:induction false} RunGood(s: Script, events: seq<(Script, Op)>)
    requires Agrees(s) && ZeroAlone(s) && ZeroUndrawn(s) && RunWith(s, events)
    ensures Good(s, RunState(events))
  {
    hide Agrees, Good, ZeroAlone, ZeroUndrawn, Safe, DrawEnded, Apply, Finite;
    if events == [] {
      EmptyGood(s);
    } else {
      var n := |events| - 1;
      var before := events[..n];
      assert forall i | 0 <= i < n :: before[..i] == events[..i] && before[i] == events[i];
      RunGood(s, before);
      var (r, op) := events[n];
      OtherDraws(s, r, RunState(before));
      EndedSafe(r, RunState(before), op);
      ApplyKeeps(r, RunState(before), op);
      OtherDraws(s, r, Apply(r, RunState(before), op));
    }
  }

  function Twice(s: Script, l: DevKey, k: DevKey): seq<(Script, Op)> {
    [(s, FindInfoOp(l)), (s, FindInfoOp(k))]
  }

  lemma {:induction false} TwiceState(s: Script, l: DevKey, k: DevKey)
    requires Finite(s)
    ensures AllFinite(Twice(s, l, k))
    ensures RunState(Twice(s, l, k)[..0]) == EMPTY && RunState(Twice(s, l, k)[..1]) == FindInfo(s, EMPTY, l)
    ensures RunState(Twice(s, l, k)) == FindInfo(s, FindInfo(s, EMPTY, l), k)
  {
    hide FindInfo;
    var events := Twice(s, l, k);
    assert events[..2] == events && events[..1] == [(s, FindInfoOp(l))] && events[..1][..0] == events[..0] == [];
  }

  /** A session of network zero that shares its address: the device that is loaded second takes over the session of
      the first one. */
  lemma {:induction false} SharedBreaks(s: Script, k: DevKey, l: DevKey, a: Addr, b: Addr)
    requires Agrees(s) && s.device(k) == [Some(a)] && s.device(l) == [Some(b)]
    requires a.net == 0 && a.dev == b.dev && a != b
    ensures Bijection(FindInfo(s, EMPTY, l)) && !Bijection(FindInfo(s, FindInfo(s, EMPTY, l), k))
  {
    hide Agrees, Loaded, FindInfo, Bijection;
    AgreesFinite(s);
    var st := FindInfo(s, EMPTY, l);
    assert st == Loaded(EMPTY, b.dev, b, l) by { LoadFrom(s, EMPTY, l, b); }
    EmptyGood(s);
    LoadedGood(s, EMPTY, b, l);
    LoadedIndex(s, EMPTY, b, l, b.dev);
    LoadedFields(EMPTY, b, l);
    assert Indexed(st, a.dev) == [b];
    TakenOver(s, st, k, a, b, l);
  }

  lemma {:induction false} TakenOver(s: Script, st: State, k: DevKey, a: Addr, b: Addr, l: DevKey)
    requires Finite(s) && k !in st.info && s.device(k) == [Some(a)] && a.net == 0 && Indexed(st, a.dev) == [b]
    requires b in st.sessions && st.sessions[b] == Some(l) && k != l
    ensures !Bijection(FindInfo(s, st, k))
  {
    var st1 := st.(info := st.info[k := None]);
    assert FindSession(s, st1, a.dev, 0) == (st1, [b]);
    var st2 := st1.(info := st1.info[k := Some(b)]);
    assert Devices(s, st, k, [Some(a)]) == Devices(s, st2, k, []) == st2;
    assert !DeviceOk(st2, k);
  }

  /** A random address that the script gives to a device which is not loaded yet: that device takes over the new
      session. */
  lemma {:induction false} DrawnBreaks(s: Script, k: DevKey, l: DevKey, a: Addr)
    requires Agrees(s) && ZeroAloneAt(s, a.dev) && s.device(k) == [None] && s.device(l) == [Some(a)] && a.net == 0
    requires s.pick({}) == a.dev
    ensures Bijection(FindInfo(s, EMPTY, k)) && !Bijection(FindInfo(s, FindInfo(s, EMPTY, k), l))
  {
    hide Agrees, Loaded, ZeroAloneAt, FindInfo;
    AgreesFinite(s);
    var st := FindInfo(s, EMPTY, k);
    assert st == State(map[k := Some(a)], map[a := Some(k)], map[], map[]) by { FirstCreated(s, k, a); }
    assert Bijection(st);
    LoadFrom(s, st, l, a);
    LoadedFields(st, a, l);
    assert !DeviceOk(FindInfo(s, st, l), k);
  }

  lemma {:induction false} FirstCreated(s: Script, k: DevKey, a: Addr)
    requires Finite(s) && s.device(k) == [None] && a.net == 0 && s.pick({}) == a.dev
    ensures FindInfo(s, EMPTY, k) == State(map[k := Some(a)], map[a := Some(k)], map[], map[])
  {
    CreatedDevice(s, EMPTY, k);
    var st1 := EMPTY.(info := map[k := None]);
    assert EMPTY.info[k := None] == map[k := None] && st1.sessions.Keys == {};
    assert st1.info[k := Some(a)] == map[k := Some(a)];
  }

  lemma {:induction false} Shared(s: Script) returns (k: DevKey, l: DevKey, a: Addr, b: Addr)
    requires !ZeroAlone(s)
    ensures s.device(k) == [Some(a)] && s.device(l) == [Some(b)] && a.net == 0 && a.dev == b.dev && a != b
  {
    var dev: uint32 :| !ZeroAloneAt(s, dev);
    k, l :| Shares(s, dev, k, l);
    a, b := Addr(0, dev), s.device(l)[0].value;
    assert s.device(l) == [Some(b)];
  }

  lemma {:induction false} SharedRun(s: Script) returns (events: seq<(Script, Op)>)
    requires Agrees(s) && !ZeroAlone(s)
    ensures RunWith(s, events) && !Bijection(RunState(events))
  {
    hide Agrees, FindInfo, Bijection, ZeroAlone;
    var k, l, a, b := Shared(s);
    events := Twice(s, l, k);
    AgreesFinite(s);
    TwiceState(s, l, k);
    SharedBreaks(s, k, l, a, b);
  }

  lemma {:induction false} DrawnRun(s: Script) returns (events: seq<(Script, Op)>)
    requires Agrees(s) && ZeroAlone(s) && !ZeroUndrawn(s)
    ensures RunWith(s, events) && !Bijection(RunState(events))
  {
    hide Agrees, FindInfo, Bijection, ZeroAloneAt;
    var k: DevKey, l: DevKey, a: Addr :|
      s.device(k) == [None] && s.device(l) == [Some(a)] && a.net == 0 && a.dev < ADDRESSES;
    var r := s.(pick := (t: set<Addr>) => a.dev);
    events := Twice(r, k, l);
    OtherDraws(s, r, EMPTY);
    AgreesFinite(r);
    TwiceState(r, k, l);
    assert ZeroAloneAt(r, a.dev);
    DrawnBreaks(r, k, l, a);
  }

  /** With a consistent script every run keeps devices and sessions in one-to-one correspondence, and the index live,
      if and only if no session of network zero shares its address and none can be drawn at random. */
  lemma {:induction false} RunKeepsBijection(s: Script)
    requires Agrees(s)
    ensures (forall events | RunWith(s, events) :: Bijection(RunState(events))) <==> ZeroAlone(s) && ZeroUndrawn(s)
  {
    hide *;
    if ZeroAlone(s) && ZeroUndrawn(s) {
      forall events | RunWith(s, events) ensures AllFinite(events) && Bijection(RunState(events)) {
        RunGood(s, events);
        KeptBijection(s, events);
      }
    } else if !ZeroAlone(s) {
      var events := SharedRun(s);
    } else {
      var events := DrawnRun(s);
    }
  }

  lemma {:induction false} KeptBijection(s: Script, events: seq<(Script, Op)>)
    requires RunWith(s, events) && Good(s, RunState(events))
    ensures AllFinite(events) && Bijection(RunState(events))
  {}

  // ---- Which sessions a query by address finds.

  /** The script gives a live session to its device; the others were made for devices without one. */
  predicate Given(s: Script, st: State, a: Addr) {
    a in st.sessions && st.sessions[a].Some? && s.device(st.sessions[a].value) == [Some(a)]
  }

  ghost predicate IndexFull(s: Script, st: State) {
    forall a: Addr :: Given(s, st, a) ==> a in Indexed(st, a.dev)
  }

  lemma {:induction false} IndexedGiven(s: Script, st: State, a: Addr)
    requires Good(s, st) && IndexFull(s, st)
    ensures a in Indexed(st, a.dev) <==> Given(s, st, a)
  {
    assert IndexOk(st, a.dev) && IndexKnown(s, st, a.dev);
  }

  lemma {:induction false} LoadedFull(s: Script, st: State, a: Addr, d: DevKey)
    requires Good(s, st) && IndexFull(s, st) && s.device(d) == [Some(a)] && a !in Indexed(st, a.dev)
    ensures IndexFull(s, Loaded(st, a.dev, a, d))
  {
    hide Loaded, Indexed, Good;
    var r := Loaded(st, a.dev, a, d);
    LoadedFields(st, a, d);
    forall x: Addr | Given(s, r, x) ensures x in Indexed(r, x.dev) {
      LoadedIndexed(s, st, a, d, x);
      if x != a {
        assert Given(s, st, x);
      }
    }
  }

  lemma {:induction false} SessionsFull(s: Script, st: State, dev: uint32, answers: seq<Answer>)
    requires Good(s, st) && IndexFull(s, st) && Agrees(s) && Fresh(s, st, dev, answers)
    requires NoZero(answers) || (Indexed(st, dev) == [] && ZeroLeads(answers))
    ensures Finite(s) && IndexFull(s, Sessions(s, st, dev, answers))
    decreases |answers|
  {
    hide Good, Loaded, FindInfo, Agrees, Indexed, IndexFull;
    AgreesFinite(s);
    if answers != [] {
      assert forall i | 0 <= i < |answers[1..]| :: answers[1..][i] == answers[i + 1];
      if answers[0].device.None? {
        FreshTail(s, st, st, dev, answers);
        SessionsFull(s, st, dev, answers[1..]);
      } else {
        var a, d := answers[0].addr, answers[0].device.value;
        SessionsStep(s, st, dev, answers);
        LoadedGood(s, st, a, d);
        LoadedFull(s, st, a, d);
        FreshTail(s, st, Loaded(st, dev, a, d), dev, answers);
        SessionsFull(s, Loaded(st, dev, a, d), dev, answers[1..]);
      }
    }
  }

  lemma {:induction false} FindSessionFull(s: Script, st: State, dev: uint32, net: uint32)
    requires Agrees(s) && Good(s, st) && IndexFull(s, st) && ListedWell(s, st, dev, net)
    ensures Finite(s) && IndexFull(s, FindSession(s, st, dev, net).0)
  {
    hide Agrees, Indexed, Sessions, Good, IndexFull, ZeroLeads, NoZero, Fits;
    AgreesFinite(s);
    if (net == 0 && Indexed(st, dev) == []) || (net != 0 && Addr(net, dev) !in st.sessions) {
      QueryFresh(s, st, dev, net);
      if net != 0 {
        AgreesFits(s, dev, net);
        FitsNoZero(s, dev, net, s.session(dev, net));
      }
      SessionsFull(s, st, dev, s.session(dev, net));
    }
  }

  lemma {:induction false} CreateFull(s: Script, st: State, k: DevKey)
    requires IndexFull(s, st) && s.device(k) == [None]
    ensures IndexFull(s, Create(s, st.(info := st.info[k := None]), k))
  {
    var r := Create(s, st.(info := st.info[k := None]), k);
    forall x: Addr | Given(s, r, x) ensures x in Indexed(r, x.dev) {
      assert s.device(k)[0] == None;
      assert Given(s, st, x);
      assert Indexed(r, x.dev) == Indexed(st, x.dev);
    }
  }

  lemma {:induction false} FindInfoFull(s: Script, st: State, k: DevKey)
    requires Agrees(s) && Good(s, st) && IndexFull(s, st) && SessionAlone(s, k)
    ensures Finite(s) && IndexFull(s, FindInfo(s, st, k))
  {
    hide ZeroAloneAt, Good, Loaded, Create, IndexFull;
    AgreesFinite(s);
    if k !in st.info && s.device(k) != [] {
      if s.device(k)[0].None? {
        assert s.device(k) == [None];
        CreateFull(s, st, k);
        CreatedDevice(s, st, k);
      } else {
        var a := s.device(k)[0].value;
        assert s.device(k) == [Some(a)];
        LoadDevice(s, st, k, a);
        Unindexed(s, st, a);
        LoadedFull(s, st, a, k);
      }
    }
  }

  lemma {:induction false} InvalidateFull(s: Script, st: State, k: DevKey)
    requires Good(s, st) && IndexFull(s, st)
    ensures IndexFull(s, Invalidate(st, k))
  {
    var r := Invalidate(st, k);
    if k in st.info && st.info[k].Some? {
      var b := st.info[k].value;
      forall x: Addr | Given(s, r, x) ensures x in Indexed(r, x.dev) {
        assert IndexOk(st, x.dev);
        EraseIndex(st, b, x.dev);
        assert Given(s, st, x) && x != b;
        assert Indexed(r, x.dev) == Indexed(Erase(st, b), x.dev);
      }
    }
  }

  lemma {:induction false} ApplyFull(s: Script, st: State, op: Op)
    requires Agrees(s) && Good(s, st) && IndexFull(s, st) && Safe(s, st, op)
    ensures Finite(s) && IndexFull(s, Apply(s, st, op))
  {
    hide Good, Agrees, SessionAlone, ListedWell, DrawnWell, FindInfo, FindSession, Invalidate;
    AgreesFinite(s);
    match op
    case FindInfoOp(k) => assert IndexFull(s, FindInfo(s, st, k)) by { FindInfoFull(s, st, k); }
    case FindSessionOp(dev, net) =>
      assert IndexFull(s, FindSession(s, st, dev, net).0) by { FindSessionFull(s, st, dev, net); }
    case InvalidateOp(k) => assert IndexFull(s, Invalidate(st, k)) by { InvalidateFull(s, st, k); }
    case SendOp(a, data) =>
      assert forall x: Addr :: Given(s, Send(st, a, data), x) <==> Given(s, st, x);
  }

  lemma {:induction false} RunFull(s: Script, events: seq<(Script, Op)>)
    requires Agrees(s) && ZeroAlone(s) && ZeroUndrawn(s) && RunWith(s, events)
    ensures IndexFull(s, RunState(events))
  {
    hide Agrees, Good, ZeroAlone, ZeroUndrawn, Safe, DrawEnded, Apply, Finite;
    if events != [] {
      hide IndexFull;
      var n := |events| - 1;
      var before := events[..n];
      assert forall i | 0 <= i < n :: before[..i] == events[..i] && before[i] == events[i];
      RunGood(s, before);
      RunFull(s, before);
      var (r, op) := events[n];
      OtherDraws(s, r, RunState(before));
      OtherGiven(s, r, RunState(before));
      EndedSafe(r, RunState(before), op);
      ApplyFull(r, RunState(before), op);
      OtherGiven(s, r, Apply(r, RunState(before), op));
    }
  }

  lemma {:induction false} OtherGiven(s: Script, r: Script, st: State)
    requires r == s.(pick := r.pick)
    ensures IndexFull(s, st) <==> IndexFull(r, st)
  {
    assert forall a: Addr :: Given(s, st, a) <==> Given(r, st, a);
  }

  /** In every run with a script that keeps both conditions, the index holds under an address exactly the live sessions
      with that address that the script gives to their devices. A session that was made for a device without one is
      never in it, so a query by address does not find it. */
  lemma {:induction false} RunIndexHolds(s: Script, events: seq<(Script, Op)>, a: Addr)
    requires Agrees(s) && ZeroAlone(s) && ZeroUndrawn(s) && RunWith(s, events)
    ensures a in Indexed(RunState(events), a.dev) <==> Given(s, RunState(events), a)
  {
    hide Agrees, Good, ZeroAlone, ZeroUndrawn, IndexFull, Given, Finite, DrawEnded, Indexed;
    RunGood(s, events);
    RunFull(s, events);
    IndexedGiven(s, RunState(events), a);
  }

  /** A device without a session gets a new one, and right after that a query for its address finds nothing. */
  lemma {:induction false} CreatedNotFound(s: Script, k: DevKey, a: Addr)
    requires Agrees(s) && s.device(k) == [None] && a.net == 0 && s.pick({}) == a.dev && s.session(a.dev, 0) == []
    ensures Finite(s) && a in FindInfo(s, EMPTY, k).sessions && FindSession(s, FindInfo(s, EMPTY, k), a.dev, 0).1 == []
  {
    hide Agrees, FindInfo;
    AgreesFinite(s);
    FirstCreated(s, k, a);
  }

  // ---- Neither condition follows from the other: a consistent script that breaks each of them alone.

  /** Two devices with the given sessions and no others. */
  function TwoDevices(a: Option<Addr>, b: Option<Addr>): Script {
    Script({0, 1}, (k: DevKey) => if k == 0 then [a] else if k == 1 then [b] else [],
           (dev: uint32, net: uint32) => Named(a, 0, dev, net) + Named(b, 1, dev, net), (t: set<Addr>) => 0)
  }

  function Named(a: Option<Addr>, k: DevKey, dev: uint32, net: uint32): seq<Answer> {
    if a.Some? && a.value == Addr(net, dev) then [Answer(a.value, Some(k))] else []
  }

  lemma {:induction false} TwoFit(a: Option<Addr>, b: Option<Addr>, dev: uint32, net: uint32)
    requires a.Some? ==> a != b
    ensures Fits(TwoDevices(a, b), dev, net, TwoDevices(a, b).session(dev, net))
  {
    var s := TwoDevices(a, b);
    assert s.session(dev, net) == Named(a, 0, dev, net) + Named(b, 1, dev, net);
    assert s.device(0) == [a] && s.device(1) == [b];
  }

  lemma {:induction false} TwoAgree(a: Option<Addr>, b: Option<Addr>)
    requires a.Some? ==> a != b
    ensures Agrees(TwoDevices(a, b))
  {
    hide Fits;
    var s := TwoDevices(a, b);
    forall dev: uint32, net: uint32 ensures Fits(s, dev, net, s.session(dev, net)) {
      TwoFit(a, b, dev, net);
    }
    forall k: DevKey, x: Addr | s.device(k) == [Some(x)] ensures Answer(x, Some(k)) in s.session(x.dev, x.net) {
      assert s.device(k)[0] == Some(x);
      assert Named(Some(x), k, x.dev, x.net) == [Answer(x, Some(k))];
    }
  }

  lemma {:induction false} ConditionsNeeded(dev: uint32)
    ensures exists s :: Agrees(s) && !ZeroAlone(s) && ZeroUndrawn(s)
    ensures dev < ADDRESSES ==> exists s :: Agrees(s) && ZeroAlone(s) && !ZeroUndrawn(s)
  {
    var a, b := Some(Addr(0, dev)), Some(Addr(1, dev));
    var s, r := TwoDevices(a, b), TwoDevices(None, a);
    TwoAgree(a, b);
    TwoAgree(None, a);
    assert Shares(s, dev, 0, 1);
    assert !ZeroAloneAt(s, dev);
    assert ZeroUndrawn(s);
    assert forall x: uint32 :: ZeroAloneAt(r, x);
    assert r.device(0) == [None] && r.device(1) == [a];
  }
}
