/** The registry stays consistent as long as the script is. */
module RegistryRuns {
  import opened Codec
  import opened Wrappers
  import opened RegistryModel

  // ---- What a consistent script promises.

  /** Answers agree in both directions, fit the query, and name devices that exist. Answers without a device may stand
      anywhere, and a query for any network may list several sessions. */
  ghost predicate Agrees(s: Script) {
    && Finite(s)
    && (forall k: DevKey :: |s.device(k)| <= 1)
    && (forall k: DevKey, a: Addr :: s.device(k) == [Some(a)] ==> Answer(a, Some(k)) in s.session(a.dev, a.net))
    && (forall dev: uint32, net: uint32 :: Fits(s, dev, net, s.session(dev, net)))
  }

  predicate Fits(s: Script, dev: uint32, net: uint32, answers: seq<Answer>) {
    && (forall i | 0 <= i < |answers| ::
          answers[i].addr.dev == dev && (net != 0 ==> answers[i].addr.net == net)
          && (answers[i].device.Some? ==> s.device(answers[i].device.value) == [Some(answers[i].addr)]))
    && (forall i, j | 0 <= i < j < |answers| :: answers[i].addr != answers[j].addr)
  }

  // ---- What a script must not do besides, for the registry to stay consistent.

  /** A session of network zero, which a query for any network finds, shares its address with no other session. */
  ghost predicate ZeroAlone(s: Script) {
    forall dev: uint32 :: ZeroAloneAt(s, dev)
  }

  ghost predicate ZeroAloneAt(s: Script, dev: uint32) {
    forall k: DevKey, l: DevKey :: !Shares(s, dev, k, l)
  }

  /** Device k has the session of network zero with address dev, and l has another session with that address. */
  predicate Shares(s: Script, dev: uint32, k: DevKey, l: DevKey) {
    && s.device(k) == [Some(Addr(0, dev))]
    && |s.device(l)| == 1 && s.device(l)[0].Some? && s.device(l)[0].value.dev == dev && s.device(l)[0].value.net != 0
  }

  /** The random addresses of new sessions have 24 bits. */
  const ADDRESSES: nat := 0x100_0000

  /** The script does not leave one device without a session and give another one a session of network zero that can
      be drawn at random. */
  ghost predicate ZeroUndrawn(s: Script) {
    forall k: DevKey, l: DevKey, a: Addr :: s.device(k) == [None] && s.device(l) == [Some(a)] && a.net == 0 ==>
      a.dev >= ADDRESSES
  }

  /** An address that the script gives to no device. */
  ghost predicate Ungiven(s: Script, a: Addr) {
    forall k: DevKey :: s.device(k) != [Some(a)]
  }

  // ---- What the registry keeps.

  /** Devices and sessions are in one-to-one correspondence; the index holds live sessions under their address, each
      once; only live sessions have send queues. */
  ghost predicate Bijection(st: State) {
    && (forall k | k in st.info :: DeviceOk(st, k))
    && (forall a | a in st.sessions :: SessionOk(st, a))
    && (forall dev: uint32 :: IndexOk(st, dev))
    && st.queues.Keys <= st.sessions.Keys
  }

  predicate DeviceOk(st: State, k: DevKey)
    requires k in st.info
  {
    st.info[k].Some? && st.info[k].value in st.sessions && st.sessions[st.info[k].value] == Some(k)
  }

  predicate SessionOk(st: State, a: Addr)
    requires a in st.sessions
  {
    st.sessions[a].Some? && st.sessions[a].value in st.info && st.info[st.sessions[a].value] == Some(a)
  }

  predicate IndexOk(st: State, dev: uint32) {
    var l := Indexed(st, dev);
    && (forall i | 0 <= i < |l| :: l[i] in st.sessions && l[i].dev == dev)
    && (forall i, j | 0 <= i < j < |l| :: l[i] != l[j])
  }

  /** The script does not contradict what has been loaded from it: it gives a loaded session to the same device, and
      it still knows the sessions of the index. */
  ghost predicate Remembers(s: Script, st: State) {
    && (forall k: DevKey, a: Addr :: s.device(k) == [Some(a)] && a in st.sessions ==> st.sessions[a] == Some(k))
    && (forall dev: uint32 :: IndexKnown(s, st, dev))
  }

  predicate IndexKnown(s: Script, st: State, dev: uint32) {
    var l := Indexed(st, dev);
    forall i | 0 <= i < |l| :: l[i] in st.sessions && st.sessions[l[i]].Some? &&
      s.device(st.sessions[l[i]].value) == [Some(l[i])]
  }

  ghost predicate Good(s: Script, st: State) {
    Bijection(st) && Remembers(s, st)
  }

  // ---- A device whose session has just been inserted.

  /** While a session is being loaded, its device finds it without asking the script for sessions again. */
  lemma {:induction false} FindInserted(s: Script, st: State, a: Addr, d: DevKey)
    requires Agrees(s) && s.device(d) == [Some(a)] && a in st.sessions
    requires a.net == 0 ==> Indexed(st, a.dev) != [] && Indexed(st, a.dev)[0] == a
    ensures FindInfo(s, st, d) == if d in st.info then st else st.(info := st.info[d := Some(a)])
  {
    if d !in st.info {
      var st1 := st.(info := st.info[d := None]);
      assert FindSession(s, st1, a.dev, a.net).0 == st1;
      assert FindSession(s, st1, a.dev, a.net).1[0] == a;
      var st3 := st1.(info := st1.info[d := Some(a)]);
      assert Devices(s, st, d, [Some(a)]) == Devices(s, st3, d, []);
      assert st3 == st.(info := st.info[d := Some(a)]);
    }
  }

  /** Loading one session: it enters the map and the index, and its device is linked with it. */
  function Loaded(st: State, dev: uint32, a: Addr, d: DevKey): State {
    var st1 := Insert(st, dev, a);
    Link(if d in st1.info then st1 else st1.(info := st1.info[d := Some(a)]), a, d)
  }

  lemma {:induction false} SessionsStep(s: Script, st: State, dev: uint32, answers: seq<Answer>)
    requires Agrees(s) && answers != [] && answers[0].device.Some? && answers[0].addr.dev == dev
    requires s.device(answers[0].device.value) == [Some(answers[0].addr)]
    requires answers[0].addr.net == 0 ==> Indexed(st, dev) == []
    ensures Sessions(s, st, dev, answers) ==
            Sessions(s, Loaded(st, dev, answers[0].addr, answers[0].device.value), dev, answers[1..])
  {
    hide Link;
    var a, d := answers[0].addr, answers[0].device.value;
    FindInserted(s, Insert(st, dev, a), a, d);
  }

  // ---- Erasing and linking.

  lemma {:induction false} Removed(l: seq<Addr>, a: Addr)
    requires forall i, j | 0 <= i < j < |l| :: l[i] != l[j]
    ensures var r := Remove(l, a);
            && (forall x :: x in r <==> x in l && x != a)
            && (forall i, j | 0 <= i < j < |r| :: r[i] != r[j])
  {
    if l != [] {
      var t := l[1..];
      assert forall i | 0 <= i < |t| :: t[i] == l[i + 1];
      assert l == [l[0]] + t;
      if l[0] == a {
        assert forall x | x in t :: x != a;
      } else {
        Removed(t, a);
        var r := Remove(l, a);
        assert r == [l[0]] + Remove(t, a);
        assert l[0] !in t;
        forall i, j | 0 <= i < j < |r| ensures r[i] != r[j] {
          assert r[j] == Remove(t, a)[j - 1];
          assert r[j] in Remove(t, a);
        }
      }
    }
  }

  /** The index as a set of addresses. */
  lemma IndexMembers(st: State, dev: uint32)
    requires IndexOk(st, dev)
    ensures forall x | x in Indexed(st, dev) :: x in st.sessions && x.dev == dev
  {}

  /** Erasing a session takes it out of the index of its address. */
  lemma EraseIndex(st: State, a: Addr, dev: uint32)
    requires IndexOk(st, dev)
    ensures IndexOk(Erase(st, a), dev)
    ensures forall x :: x in Indexed(Erase(st, a), dev) <==> x in Indexed(st, dev) && x != a
  {
    hide Remove;
    var l, r := Indexed(st, dev), Indexed(Erase(st, a), dev);
    IndexMembers(st, dev);
    if a.dev in st.byDev && dev == a.dev {
      Removed(l, a);
      assert r == Remove(l, a);
    } else {
      assert r == l;
    }
    forall i | 0 <= i < |r| ensures r[i] in Erase(st, a).sessions && r[i].dev == dev {
      assert r[i] in r;
    }
  }

  /** The session a device has before a new one is loaded; the new one when it has none. */
  function Before(st: State, a: Addr, d: DevKey): Addr {
    if d in st.info && st.info[d].Some? then st.info[d].value else a
  }

  /** What loading does to the devices, the sessions and the queues. */
  lemma {:induction false} LoadedFields(st: State, a: Addr, d: DevKey)
    ensures var r, b := Loaded(st, a.dev, a, d), Before(st, a, d);
            && r.info == st.info[d := Some(a)]
            && r.sessions == (if b == a then st.sessions else Minus(st.sessions, b))[a := Some(d)]
            && r.queues == if b == a then st.queues else Minus(st.queues, b)
  {
    hide Indexed, Remove;
    var r, b := Loaded(st, a.dev, a, d), Before(st, a, d);
    if b != a {
      assert Minus(st.sessions[a := None][a := Some(d)], b) == Minus(st.sessions, b)[a := Some(d)];
    } else {
      assert st.sessions[a := None][a := Some(d)] == st.sessions[a := Some(d)];
    }
  }

  lemma {:induction false} LoadedParts(s: Script, st: State, a: Addr, d: DevKey)
    requires Good(s, st) && s.device(d) == [Some(a)]
    ensures var r, b := Loaded(st, a.dev, a, d), Before(st, a, d);
            && r.info == st.info[d := Some(a)]
            && r.sessions == (if b == a then st.sessions else Minus(st.sessions, b))[a := Some(d)]
            && (b != a ==> a !in st.sessions)
            && r.queues.Keys <= r.sessions.Keys
  {
    hide Loaded, IndexOk, IndexKnown;
    LoadedFields(st, a, d);
    if d in st.info {
      assert DeviceOk(st, d);
    }
    if a in st.sessions {
      assert SessionOk(st, a);
    }
  }

  lemma InsertIndex(st: State, a: Addr, dev: uint32)
    requires IndexOk(st, dev) && a !in Indexed(st, a.dev)
    ensures IndexOk(Insert(st, a.dev, a), dev)
    ensures forall x :: x in Indexed(Insert(st, a.dev, a), dev) <==> x in Indexed(st, dev) || (x == a && dev == a.dev)
  {}

  lemma {:induction false} LoadedIndex(s: Script, st: State, a: Addr, d: DevKey, dev: uint32)
    requires Good(s, st) && s.device(d) == [Some(a)] && a !in Indexed(st, a.dev)
    ensures var r := Loaded(st, a.dev, a, d);
            && IndexOk(r, dev)
            && (forall x | x in Indexed(r, dev) :: x in Indexed(st, dev) || x == a)
            && (d in st.info && st.info[d].value != a ==> st.info[d].value !in Indexed(r, dev))
            && (dev == a.dev && (d in st.info ==> st.info[d].value.dev != dev || st.info[d].value == a) ==>
                 Indexed(r, dev) == Indexed(st, dev) + [a])
  {
    var st1 := Insert(st, a.dev, a);
    var st2 := if d in st1.info then st1 else st1.(info := st1.info[d := Some(a)]);
    InsertIndex(st, a, dev);
    var st3 := st2.(sessions := st2.sessions[a := Some(d)]);
    assert Indexed(st3, dev) == Indexed(st1, dev);
    assert IndexOk(st3, dev);
    if d in st.info {
      assert DeviceOk(st, d);
      if st.info[d].value != a {
        EraseIndex(st3, st.info[d].value, dev);
      }
    }
  }

  /** The index after loading: the new session is in it, and the one the device had before is not. */
  lemma {:induction false} LoadedIndexed(s: Script, st: State, a: Addr, d: DevKey, x: Addr)
    requires Good(s, st) && s.device(d) == [Some(a)] && a !in Indexed(st, a.dev)
    ensures x in Indexed(Loaded(st, a.dev, a, d), x.dev) <==>
            (x in Indexed(st, x.dev) || x == a) && (Before(st, a, d) == a || x != Before(st, a, d))
  {
    hide Remove, IndexKnown;
    assert IndexOk(st, x.dev);
    var st1 := Insert(st, a.dev, a);
    var st2 := if d in st1.info then st1 else st1.(info := st1.info[d := Some(a)]);
    InsertIndex(st, a, x.dev);
    var st3 := st2.(sessions := st2.sessions[a := Some(d)]);
    assert Indexed(st3, x.dev) == Indexed(st1, x.dev);
    assert IndexOk(st3, x.dev);
    if d in st.info {
      assert DeviceOk(st, d);
      if st.info[d].value != a {
        EraseIndex(st3, st.info[d].value, x.dev);
      }
    }
  }

  lemma {:induction false} LoadedDevice(s: Script, st: State, a: Addr, d: DevKey, k: DevKey)
    requires Good(s, st) && s.device(d) == [Some(a)] && k in Loaded(st, a.dev, a, d).info
    ensures DeviceOk(Loaded(st, a.dev, a, d), k)
  {
    hide Loaded, Indexed, IndexOk, IndexKnown;
    LoadedParts(s, st, a, d);
    if k != d {
      assert DeviceOk(st, k);
      assert d in st.info ==> DeviceOk(st, d);
      assert a in st.sessions ==> SessionOk(st, a);
    }
  }

  lemma {:induction false} LoadedSession(s: Script, st: State, a: Addr, d: DevKey, x: Addr)
    requires Good(s, st) && s.device(d) == [Some(a)] && x in Loaded(st, a.dev, a, d).sessions
    ensures SessionOk(Loaded(st, a.dev, a, d), x)
  {
    hide Loaded, Indexed, IndexOk, IndexKnown;
    LoadedParts(s, st, a, d);
    if x != a {
      assert SessionOk(st, x);
      assert d in st.info ==> DeviceOk(st, d);
    }
  }

  lemma {:induction false} LoadedBijection(s: Script, st: State, a: Addr, d: DevKey)
    requires Good(s, st) && s.device(d) == [Some(a)]
    ensures var r := Loaded(st, a.dev, a, d);
            && (forall k | k in r.info :: DeviceOk(r, k)) && (forall x | x in r.sessions :: SessionOk(r, x))
            && r.queues.Keys <= r.sessions.Keys
  {
    hide *;
    var r := Loaded(st, a.dev, a, d);
    LoadedParts(s, st, a, d);
    forall k | k in r.info ensures DeviceOk(r, k) {
      LoadedDevice(s, st, a, d, k);
    }
    forall x | x in r.sessions ensures SessionOk(r, x) {
      LoadedSession(s, st, a, d, x);
    }
  }

  /** Loading a session that the script gives to a device keeps the registry consistent. */
  lemma {:induction false} LoadedGood(s: Script, st: State, a: Addr, d: DevKey)
    requires Good(s, st) && Agrees(s) && s.device(d) == [Some(a)] && a !in Indexed(st, a.dev)
    ensures Good(s, Loaded(st, a.dev, a, d))
    ensures forall x | x in Indexed(Loaded(st, a.dev, a, d), a.dev) :: x in Indexed(st, a.dev) || x == a
  {
    hide Loaded, Indexed, Agrees, DeviceOk, SessionOk, IndexOk, IndexKnown;
    var r := Loaded(st, a.dev, a, d);
    LoadedBijection(s, st, a, d);
    forall dev: uint32 ensures IndexOk(r, dev) && IndexKnown(s, r, dev) {
      LoadedIndex(s, st, a, d, dev);
      LoadedKnown(s, st, a, d, dev);
    }
    LoadedIndex(s, st, a, d, a.dev);
    LoadedParts(s, st, a, d);
    forall k: DevKey, x: Addr | s.device(k) == [Some(x)] && x in r.sessions ensures r.sessions[x] == Some(k) {
      if x == a {
        SameDevice(s, k, d, a);
      }
    }
  }

  lemma {:induction false} LoadedKnown(s: Script, st: State, a: Addr, d: DevKey, dev: uint32)
    requires Good(s, st) && s.device(d) == [Some(a)] && a !in Indexed(st, a.dev)
    ensures IndexKnown(s, Loaded(st, a.dev, a, d), dev)
  {
    hide Loaded;
    var r := Loaded(st, a.dev, a, d);
    LoadedParts(s, st, a, d);
    LoadedIndex(s, st, a, d, dev);
    assert IndexOk(st, dev) && IndexKnown(s, st, dev);
    forall i | 0 <= i < |Indexed(r, dev)|
      ensures var x := Indexed(r, dev)[i];
              x in r.sessions && r.sessions[x].Some? && s.device(r.sessions[x].value) == [Some(x)]
    {
      var x := Indexed(r, dev)[i];
      assert x in Indexed(r, dev);
      if x != a {
        assert x in Indexed(st, dev);
      }
    }
  }

  /** Two devices are never given the same session. */
  lemma {:induction false} SameDevice(s: Script, k: DevKey, d: DevKey, a: Addr)
    requires Agrees(s) && s.device(k) == [Some(a)] && s.device(d) == [Some(a)]
    ensures k == d
  {
    var answers := s.session(a.dev, a.net);
    assert Fits(s, a.dev, a.net, answers);
    assert Answer(a, Some(k)) in answers && Answer(a, Some(d)) in answers;
    var i :| 0 <= i < |answers| && answers[i] == Answer(a, Some(k));
    var j :| 0 <= j < |answers| && answers[j] == Answer(a, Some(d));
  }

  // ---- Queries.

  /** Answers to a query that the registry has not got in its index. */
  ghost predicate Fresh(s: Script, st: State, dev: uint32, answers: seq<Answer>) {
    && (forall i | 0 <= i < |answers| ::
          answers[i].addr.dev == dev && answers[i].addr !in Indexed(st, dev)
          && (answers[i].device.Some? ==> s.device(answers[i].device.value) == [Some(answers[i].addr)]))
    && (forall i, j | 0 <= i < j < |answers| :: answers[i].addr != answers[j].addr)
  }

  lemma {:induction false} FreshTail(s: Script, st: State, r: State, dev: uint32, answers: seq<Answer>)
    requires answers != [] && Fresh(s, st, dev, answers)
    requires forall x | x in Indexed(r, dev) :: x in Indexed(st, dev) || x == answers[0].addr
    ensures Fresh(s, r, dev, answers[1..])
  {
    var t := answers[1..];
    assert forall i | 0 <= i < |t| :: t[i] == answers[i + 1];
  }

  /** What the index has under the address of a session of network zero is that session. */
  lemma {:induction false} ZeroFirst(s: Script, st: State, a: Addr, d: DevKey)
    requires Good(s, st) && ZeroAloneAt(s, a.dev) && s.device(d) == [Some(a)] && a.net == 0 && Indexed(st, a.dev) != []
    ensures Indexed(st, a.dev)[0] == a
  {
    var l := Indexed(st, a.dev);
    assert IndexOk(st, a.dev) && IndexKnown(s, st, a.dev);
    var k := st.sessions[l[0]].value;
    assert s.device(k) == [Some(l[0])] && a.dev == l[0].dev;
    assert !Shares(s, a.dev, d, k);
  }

  lemma {:induction false} ZeroUnindexed(s: Script, st: State, a: Addr, d: DevKey)
    requires Good(s, st) && ZeroAloneAt(s, a.dev) && s.device(d) == [Some(a)] && a !in Indexed(st, a.dev) && a.net == 0
    ensures Indexed(st, a.dev) == []
  {
    if Indexed(st, a.dev) != [] {
      ZeroFirst(s, st, a, d);
      assert false;
    }
  }

  /** An answer of network zero comes before all others that have a device. */
  predicate ZeroLeads(answers: seq<Answer>) {
    forall i, j | 0 <= i < j < |answers| && answers[i].device.Some? && answers[j].device.Some? ::
      answers[j].addr.net != 0
  }

  predicate NoZero(answers: seq<Answer>) {
    forall i | 0 <= i < |answers| && answers[i].device.Some? :: answers[i].addr.net != 0
  }

  lemma {:induction false} SessionsGood(s: Script, st: State, dev: uint32, answers: seq<Answer>)
    requires Good(s, st) && Agrees(s) && Fresh(s, st, dev, answers)
    requires NoZero(answers) || (Indexed(st, dev) == [] && ZeroLeads(answers))
    ensures Good(s, Sessions(s, st, dev, answers))
    decreases |answers|
  {
    hide Good, Loaded, FindInfo, Agrees, Indexed;
    if answers != [] {
      assert forall i | 0 <= i < |answers[1..]| :: answers[1..][i] == answers[i + 1];
      if answers[0].device.None? {
        FreshTail(s, st, st, dev, answers);
        SessionsGood(s, st, dev, answers[1..]);
        assert Finite(s) by { AgreesFinite(s); }
      } else {
        var a, d := answers[0].addr, answers[0].device.value;
        SessionsStep(s, st, dev, answers);
        LoadedGood(s, st, a, d);
        FreshTail(s, st, Loaded(st, dev, a, d), dev, answers);
        SessionsGood(s, Loaded(st, dev, a, d), dev, answers[1..]);
      }
    }
  }

  lemma {:induction false} AgreesFinite(s: Script)
    requires Agrees(s)
    ensures Finite(s)
  {}

  lemma {:induction false} AgreesFits(s: Script, dev: uint32, net: uint32)
    requires Agrees(s)
    ensures Fits(s, dev, net, s.session(dev, net))
  {}

  lemma {:induction false} QueryFresh(s: Script, st: State, dev: uint32, net: uint32)
    requires Agrees(s) && Good(s, st)
    requires net == 0 ==> Indexed(st, dev) == []
    requires net != 0 ==> Addr(net, dev) !in st.sessions
    ensures Fresh(s, st, dev, s.session(dev, net))
  {
    assert Fits(s, dev, net, s.session(dev, net));
    assert IndexOk(st, dev);
    IndexMembers(st, dev);
  }

  /** The answers to a session query, if it asks the script. */
  predicate ListedWell(s: Script, st: State, dev: uint32, net: uint32) {
    net == 0 && Indexed(st, dev) == [] ==> ZeroLeads(s.session(dev, 0))
  }

  lemma {:induction false} AloneLeads(s: Script, dev: uint32)
    requires Agrees(s) && ZeroAloneAt(s, dev)
    ensures ZeroLeads(s.session(dev, 0))
  {
    var answers := s.session(dev, 0);
    assert Fits(s, dev, 0, answers);
    forall i, j | 0 <= i < j < |answers| && answers[i].device.Some? && answers[j].device.Some?
      ensures answers[j].addr.net != 0
    {
      assert s.device(answers[j].device.value) == [Some(answers[j].addr)];
      assert !Shares(s, dev, answers[j].device.value, answers[i].device.value);
    }
  }

  lemma {:induction false} FitsNoZero(s: Script, dev: uint32, net: uint32, answers: seq<Answer>)
    requires Fits(s, dev, net, answers) && net != 0
    ensures NoZero(answers)
  {}

  /** A session query keeps the registry consistent, and what it finds are live sessions with the address asked for,
      and with the network asked for unless that is zero. */
  lemma {:induction false} FindSessionKeeps(s: Script, st: State, dev: uint32, net: uint32)
    requires Agrees(s) && Good(s, st) && ListedWell(s, st, dev, net)
    ensures var (r, found) := FindSession(s, st, dev, net);
            && Good(s, r)
            && forall a | a in found :: a in r.sessions && a.dev == dev && (net != 0 ==> a.net == net)
  {
    hide Agrees, Indexed, Sessions, DeviceOk, SessionOk, Remembers, ZeroLeads, NoZero, Fits;
    AgreesFinite(s);
    var (r, found) := FindSession(s, st, dev, net);
    if (net == 0 && Indexed(st, dev) == []) || (net != 0 && Addr(net, dev) !in st.sessions) {
      QueryFresh(s, st, dev, net);
      if net != 0 {
        assert Fits(s, dev, net, s.session(dev, net)) by { AgreesFits(s, dev, net); }
        FitsNoZero(s, dev, net, s.session(dev, net));
      }
      SessionsGood(s, st, dev, s.session(dev, net));
    }
    if net == 0 {
      assert IndexOk(r, dev);
      IndexMembers(r, dev);
    }
  }

  /** A device without a session gets a new one. That keeps devices and sessions in correspondence; the script
      contradicts the new session if and only if it gives the random address to a device. */
  lemma {:induction false} CreateGood(s: Script, st: State, k: DevKey)
    requires Good(s, st) && k !in st.info && s.device(k) == [None]
    requires Addr(0, s.pick(st.sessions.Keys)) !in st.sessions
    ensures var r := Create(s, st.(info := st.info[k := None]), k);
            Bijection(r) && (Good(s, r) <==> Ungiven(s, Addr(0, s.pick(st.sessions.Keys))))
  {
    hide DeviceOk, SessionOk, IndexOk, IndexKnown;
    var a := Addr(0, s.pick(st.sessions.Keys));
    var r := Create(s, st.(info := st.info[k := None]), k);
    assert r.info == st.info[k := Some(a)];
    AddedBijection(s, st, r, k, a);
    AddedKnown(s, st, r, k, a);
  }

  lemma {:induction false} AddedBijection(s: Script, st: State, r: State, k: DevKey, a: Addr)
    requires Good(s, st) && k !in st.info && a !in st.sessions
    requires r == st.(info := st.info[k := Some(a)], sessions := st.sessions[a := Some(k)])
    ensures Bijection(r)
  {
    hide IndexOk, IndexKnown;
    forall x | x in r.info ensures DeviceOk(r, x) {
      assert x != k ==> DeviceOk(st, x);
    }
    forall x | x in r.sessions ensures SessionOk(r, x) {
      assert x != a ==> SessionOk(st, x);
    }
    forall dev: uint32 ensures IndexOk(r, dev) {
      assert IndexOk(st, dev) && IndexKnown(s, st, dev);
      SameIndex(s, st, r, a, dev);
    }
  }

  lemma {:induction false} AddedKnown(s: Script, st: State, r: State, k: DevKey, a: Addr)
    requires Good(s, st) && s.device(k) == [None] && a !in st.sessions
    requires r == st.(info := st.info[k := Some(a)], sessions := st.sessions[a := Some(k)])
    ensures Remembers(s, r) <==> Ungiven(s, a)
  {
    hide IndexOk, IndexKnown, DeviceOk, SessionOk;
    forall dev: uint32 ensures IndexKnown(s, r, dev) {
      assert IndexOk(st, dev) && IndexKnown(s, st, dev);
      SameIndex(s, st, r, a, dev);
    }
    if Remembers(s, r) {
      forall l: DevKey ensures s.device(l) != [Some(a)] {
        assert s.device(k)[0] == None;
      }
    }
  }

  lemma {:induction false} SameIndex(s: Script, st: State, r: State, a: Addr, dev: uint32)
    requires IndexOk(st, dev) && IndexKnown(s, st, dev) && a !in st.sessions && r.byDev == st.byDev
    requires forall x | x in st.sessions :: x in r.sessions && r.sessions[x] == st.sessions[x]
    ensures IndexOk(r, dev) && IndexKnown(s, r, dev)
  {}

  lemma {:induction false} KnownLinked(s: Script, st: State, k: DevKey, a: Addr)
    requires Good(s, st) && s.device(k) == [Some(a)] && a in st.sessions
    ensures k in st.info
  {
    assert SessionOk(st, a);
  }

  /** Loading a device whose session the script knows loads that session with it. */
  lemma {:induction false} LoadDevice(s: Script, st: State, k: DevKey, a: Addr)
    requires Agrees(s) && Good(s, st) && k !in st.info && s.device(k) == [Some(a)]
    requires a.net == 0 ==> ZeroAloneAt(s, a.dev)
    ensures a !in st.sessions && FindInfo(s, st, k) == Loaded(st, a.dev, a, k)
  {
    hide *;
    if a in st.sessions {
      KnownLinked(s, st, k, a);
      assert false;
    }
    Unindexed(s, st, a);
    if a.net == 0 {
      ZeroUnindexed(s, st, a, k);
    }
    LoadFrom(s, st, k, a);
  }

  lemma {:induction false} LoadFrom(s: Script, st: State, k: DevKey, a: Addr)
    requires Agrees(s) && k !in st.info && s.device(k) == [Some(a)]
    requires if a.net == 0 then ZeroAloneAt(s, a.dev) && Indexed(st, a.dev) == [] else a !in st.sessions
    ensures FindInfo(s, st, k) == Loaded(st, a.dev, a, k)
  {
    hide Agrees, Single, ZeroAloneAt;
    OwnAnswer(s, k, a);
    AgreesFinite(s);
    var st1 := st.(info := st.info[k := None]);
    var st3 := Link(Insert(st1, a.dev, a), a, k);
    LinkedNew(st, st1, k, a);
    SessionFound(s, st1, k, a);
    assert st3.(info := st3.info[k := Some(a)]) == st3;
    assert Devices(s, st, k, [Some(a)]) == Devices(s, st3, k, []);
  }

  /** One of the answers is x, and the others have no device. */
  predicate Single(answers: seq<Answer>, x: Answer) {
    && x in answers && x.device.Some?
    && (forall i | 0 <= i < |answers| :: answers[i].device.Some? ==> answers[i] == x)
    && (forall i, j | 0 <= i < j < |answers| :: answers[i] != answers[j])
  }

  /** The script answers the query for the session of a device with that session. */
  lemma {:induction false} OwnAnswer(s: Script, k: DevKey, a: Addr)
    requires Agrees(s) && s.device(k) == [Some(a)] && (a.net == 0 ==> ZeroAloneAt(s, a.dev))
    ensures Single(s.session(a.dev, a.net), Answer(a, Some(k)))
  {
    var answers := s.session(a.dev, a.net);
    assert Fits(s, a.dev, a.net, answers);
    forall i | 0 <= i < |answers| && answers[i].device.Some? ensures answers[i] == Answer(a, Some(k)) {
      var b, l := answers[i].addr, answers[i].device.value;
      assert s.device(l) == [Some(b)] && !Shares(s, a.dev, k, l);
      SameDevice(s, k, l, a);
    }
  }

  lemma {:induction false} SkipDangling(s: Script, st: State, dev: uint32, answers: seq<Answer>, x: Answer)
    requires Finite(s) && Single(answers, x)
    ensures Sessions(s, st, dev, answers) == Sessions(s, st, dev, [x])
  {
    var t := answers[1..];
    assert forall i | 0 <= i < |t| :: t[i] == answers[i + 1];
    if answers[0].device.None? {
      assert x in t;
      SkipDangling(s, st, dev, t, x);
    } else {
      assert x !in t;
      var st2 := FindInfo(s, Insert(st, dev, x.addr), x.device.value);
      var st3 := if x.device.value in st2.info then Link(st2, x.addr, x.device.value) else st2;
      AllDangling(s, st3, dev, t);
      assert Sessions(s, st, dev, [x]) == Sessions(s, st3, dev, []);
    }
  }

  lemma {:induction false} AllDangling(s: Script, st: State, dev: uint32, answers: seq<Answer>)
    requires Finite(s) && forall i | 0 <= i < |answers| :: answers[i].device.None?
    ensures Sessions(s, st, dev, answers) == st
  {
    if answers != [] {
      assert forall i | 0 <= i < |answers[1..]| :: answers[1..][i] == answers[i + 1];
      AllDangling(s, st, dev, answers[1..]);
    }
  }

  lemma {:induction false} LinkedNew(st: State, st1: State, k: DevKey, a: Addr)
    requires k !in st.info && st1 == st.(info := st.info[k := None])
    ensures Link(Insert(st1, a.dev, a), a, k) == Loaded(st, a.dev, a, k)
    ensures Loaded(st, a.dev, a, k).info == st.info[k := Some(a)]
  {}

  /** The session of a device that is being loaded. */
  lemma {:induction false} SessionFound(s: Script, st1: State, k: DevKey, a: Addr)
    requires Finite(s) && Single(s.session(a.dev, a.net), Answer(a, Some(k)))
    requires k in st1.info && st1.info[k] == None &&
             if a.net == 0 then Indexed(st1, a.dev) == [] else a !in st1.sessions
    ensures FindSession(s, st1, a.dev, a.net) == (Link(Insert(st1, a.dev, a), a, k), [a])
  {
    hide Single;
    var st3 := Link(Insert(st1, a.dev, a), a, k);
    SkipDangling(s, st1, a.dev, s.session(a.dev, a.net), Answer(a, Some(k)));
    assert FindInfo(s, Insert(st1, a.dev, a), k) == Insert(st1, a.dev, a);
    assert Sessions(s, st1, a.dev, [Answer(a, Some(k))]) == Sessions(s, st3, a.dev, []) == st3;
    assert a in st3.sessions && Indexed(st3, a.dev) == Indexed(st1, a.dev) + [a];
    if a.net == 0 {
      assert FindSession(s, st1, a.dev, 0) == (st3, Indexed(st3, a.dev));
      assert Indexed(st3, a.dev) == [a];
    } else {
      assert Addr(a.net, a.dev) == a;
    }
  }

  /** The random address of a new session, if the query makes one, is free and given to no device. */
  ghost predicate DrawnWell(s: Script, st: State, k: DevKey) {
    k !in st.info && s.device(k) == [None] ==>
      var a := Addr(0, s.pick(st.sessions.Keys));
      a !in st.sessions && Ungiven(s, a)
  }

  ghost predicate SessionAlone(s: Script, k: DevKey) {
    forall a: Addr :: s.device(k) == [Some(a)] && a.net == 0 ==> ZeroAloneAt(s, a.dev)
  }

  /** A device query keeps the registry consistent, and finds the device exactly when it was loaded before or the
      script knows it. */
  lemma {:induction false} FindInfoKeeps(s: Script, st: State, k: DevKey)
    requires Agrees(s) && Good(s, st) && SessionAlone(s, k) && DrawnWell(s, st, k)
    ensures Good(s, FindInfo(s, st, k))
    ensures k in FindInfo(s, st, k).info <==> k in st.info || s.device(k) != []
  {
    hide ZeroAloneAt, Good, Loaded, Create;
    if k !in st.info && s.device(k) != [] {
      if s.device(k)[0].None? {
        assert s.device(k) == [None];
        CreateGood(s, st, k);
        CreatedDevice(s, st, k);
      } else {
        var a := s.device(k)[0].value;
        assert s.device(k) == [Some(a)];
        LoadDevice(s, st, k, a);
        assert a !in Indexed(st, a.dev) by { Unindexed(s, st, a); }
        LoadedGood(s, st, a, k);
        LoadedFields(st, a, k);
      }
    }
  }

  lemma {:induction false} Unindexed(s: Script, st: State, a: Addr)
    requires Good(s, st) && a !in st.sessions
    ensures a !in Indexed(st, a.dev)
  {
    assert IndexOk(st, a.dev);
    IndexMembers(st, a.dev);
  }

  lemma {:induction false} CreatedDevice(s: Script, st: State, k: DevKey)
    requires Finite(s) && k in s.known
    ensures Devices(s, st, k, [None]) == Create(s, st.(info := st.info[k := None]), k)
    ensures k in Create(s, st.(info := st.info[k := None]), k).info
  {
    var st1 := st.(info := st.info[k := None]);
    assert Devices(s, st, k, [None]) == Devices(s, Create(s, st1, k), k, []);
  }

  /** Invalidating a device erases its session and nothing else. */
  lemma {:induction false} InvalidateKeeps(s: Script, st: State, k: DevKey)
    requires Good(s, st)
    ensures Good(s, Invalidate(st, k)) && k !in Invalidate(st, k).info
    ensures forall x | x in st.info && x != k :: x in Invalidate(st, k).info && Invalidate(st, k).info[x] == st.info[x]
  {
    if k in st.info {
      assert DeviceOk(st, k);
      var a, r := st.info[k].value, Invalidate(st, k);
      forall x | x in r.info ensures DeviceOk(r, x) {
        assert DeviceOk(st, x);
      }
      forall x | x in r.sessions ensures SessionOk(r, x) {
        assert SessionOk(st, x);
      }
      forall dev: uint32 ensures IndexOk(r, dev) && IndexKnown(s, r, dev) {
        assert IndexOk(st, dev) && IndexKnown(s, st, dev);
        EraseIndex(st, a, dev);
        InvalidatedKnown(s, st, k, dev);
      }
    }
  }

  lemma {:induction false} InvalidatedKnown(s: Script, st: State, k: DevKey, dev: uint32)
    requires k in st.info && DeviceOk(st, k) && IndexOk(st, dev) && IndexKnown(s, st, dev)
    ensures IndexKnown(s, Invalidate(st, k), dev)
  {
    var a, r := st.info[k].value, Invalidate(st, k);
    EraseIndex(st, a, dev);
    assert Indexed(r, dev) == Indexed(Erase(st, a), dev);
    forall i | 0 <= i < |Indexed(r, dev)|
      ensures var x := Indexed(r, dev)[i];
              x in r.sessions && r.sessions[x].Some? && s.device(r.sessions[x].value) == [Some(x)]
    {
      var x := Indexed(r, dev)[i];
      assert x in Indexed(Erase(st, a), dev);
      assert x in Indexed(st, dev) && x != a;
    }
  }

  lemma {:induction false} SendKeeps(s: Script, st: State, a: Addr, data: bytes)
    requires Good(s, st) && a in st.sessions
    ensures Good(s, Send(st, a, data))
  {
    var r := Send(st, a, data);
    forall dev: uint32 ensures IndexOk(r, dev) && IndexKnown(s, r, dev) {
      assert IndexOk(st, dev) && IndexKnown(s, st, dev);
    }
    forall k | k in r.info ensures DeviceOk(r, k) {
      assert DeviceOk(st, k);
    }
    forall x | x in r.sessions ensures SessionOk(r, x) {
      assert SessionOk(st, x);
    }
  }

  // ---- Runs.

  datatype Op =
    | FindInfoOp(k: DevKey)
    | FindSessionOp(dev: uint32, net: uint32)
    | InvalidateOp(gone: DevKey)
    | SendOp(session: Addr, data: bytes)

  function Apply(s: Script, st: State, op: Op): State
    requires Finite(s)
  {
    match op
    case FindInfoOp(k) => FindInfo(s, st, k)
    case FindSessionOp(dev, net) => FindSession(s, st, dev, net).0
    case InvalidateOp(k) => Invalidate(st, k)
    case SendOp(a, data) => if a in st.sessions then Send(st, a, data) else st
  }

  ghost predicate AllFinite(events: seq<(Script, Op)>) {
    forall i | 0 <= i < |events| :: Finite(events[i].0)
  }

  /** The state after a run; at each operation the script may be another one. */
  function RunState(events: seq<(Script, Op)>): State
    requires AllFinite(events)
  {
    if events == [] then EMPTY
    else
      var last := events[|events| - 1];
      Apply(last.0, RunState(events[..|events| - 1]), last.1)
  }

  /** What an operation needs to keep the registry consistent. */
  ghost predicate Safe(s: Script, st: State, op: Op) {
    match op
    case FindInfoOp(k) => SessionAlone(s, k) && DrawnWell(s, st, k)
    case FindSessionOp(dev, net) => ListedWell(s, st, dev, net)
    case _ => true
  }

  lemma {:induction false} ApplyKeeps(s: Script, st: State, op: Op)
    requires Agrees(s) && Good(s, st) && Safe(s, st, op)
    ensures Good(s, Apply(s, st, op))
  {
    hide Good, Agrees, ListedWell, SessionAlone, DrawnWell, FindInfo, FindSession, Invalidate, Send;
    AgreesFinite(s);
    match op
    case FindInfoOp(k) => FindInfoKeeps(s, st, k);
    case FindSessionOp(dev, net) => FindSessionKeeps(s, st, dev, net);
    case InvalidateOp(k) => InvalidateKeeps(s, st, k);
    case SendOp(a, data) =>
      if a in st.sessions {
        assert Good(s, Send(st, a, data)) by { SendKeeps(s, st, a, data); }
      }
  }

  lemma {:induction false} EmptyGood(s: Script)
    ensures Good(s, EMPTY)
  {}

  /** A script that may change keeps the registry consistent as long as it fits, at each operation, what has been loaded
      before. */
  lemma {:induction false} ChangingScriptKeeps(events: seq<(Script, Op)>)
    requires AllFinite(events)
    requires forall i | 0 <= i < |events| ::
               var (s, op) := events[i];
               Agrees(s) && Remembers(s, RunState(events[..i])) && Safe(s, RunState(events[..i]), op)
    ensures Bijection(RunState(events))
  {
    hide Bijection, Agrees, Remembers, Safe, Apply, Finite;
    if events == [] {
      EmptyBijection();
    } else {
      var n := |events| - 1;
      var before := events[..n];
      forall i | 0 <= i < n
        ensures var (s, op) := before[i];
                Agrees(s) && Remembers(s, RunState(before[..i])) && Safe(s, RunState(before[..i]), op)
      {
        assert before[..i] == events[..i] && before[i] == events[i];
      }
      ChangingScriptKeeps(before);
      ApplyKeeps(events[n].0, RunState(before), events[n].1);
    }
  }

  lemma {:induction false} EmptyBijection()
    ensures Bijection(EMPTY)
  {}

  // ---- The key of a session.

  /** The session keys of a join go by the device the session points to. */
  function DeviceKey<K>(st: State, keyOf: DevKey -> K, a: Addr): Option<K> {
    if a in st.sessions && st.sessions[a].Some? then Some(keyOf(st.sessions[a].value)) else None
  }

  /** As long as devices and sessions correspond, that is the device that was found for the join. */
  lemma DeviceKeyAgrees<K>(st: State, keyOf: DevKey -> K, k: DevKey)
    requires Bijection(st) && k in st.info
    ensures st.info[k].Some? && DeviceKey(st, keyOf, st.info[k].value) == Some(keyOf(k))
  {
    assert DeviceOk(st, k);
  }
}
