/** Devices and sessions as they are loaded from the configuration script, on demand and through each other: a device
    names its session, a session names its device. */
module RegistryModel {
  import opened Codec
  import opened Wrappers

  /** A device by its two identifiers. */
  type DevKey = nat

  /** A session by its network and its device address. */
  datatype Addr = Addr(net: uint32, dev: uint32)

  /** A session as the script returns it, with the device it belongs to. */
  datatype Answer = Answer(addr: Addr, device: Option<DevKey>)

  /** The script: the answers to a device query, each with the session of the device if there is one; the answers to
      a session query by device address and network, zero standing for any network; and the random address given to
      a new session when a set of addresses is taken. Only the devices in known are answered for. */
  datatype Script = Script(known: set<DevKey>, device: DevKey -> seq<Option<Addr>>,
                           session: (uint32, uint32) -> seq<Answer>, pick: set<Addr> -> uint32)

  /** The maps of the registry. A pointer to a session is the key of the session; a session that is being loaded
      has no device yet. */
  datatype State = State(info: map<DevKey, Option<Addr>>, sessions: map<Addr, Option<DevKey>>,
                         byDev: map<uint32, seq<Addr>>, queues: map<Addr, seq<bytes>>)

  const EMPTY: State := State(map[], map[], map[], map[])

  function Indexed(st: State, dev: uint32): seq<Addr> {
    if dev in st.byDev then st.byDev[dev] else []
  }

  /** The script answers for finitely many devices. */
  ghost predicate Finite(s: Script) {
    forall k: DevKey :: s.device(k) != [] ==> k in s.known
  }

  // ---- Erasing.

  function Remove(l: seq<Addr>, a: Addr): seq<Addr> {
    if l == [] then [] else if l[0] == a then l[1..] else [l[0]] + Remove(l[1..], a)
  }

  function Erase(st: State, a: Addr): (r: State)
    ensures r.info == st.info
  {
    st.(queues := Minus(st.queues, a), sessions := Minus(st.sessions, a),
        byDev := if a.dev in st.byDev then st.byDev[a.dev := Remove(st.byDev[a.dev], a)] else st.byDev)
  }

  // ---- Loading.

  /** The devices the script knows and that have not been loaded. */
  function Left(s: Script, st: State): nat {
    |s.known - st.info.Keys|
  }

  lemma Fewer(s: Script, st: State, r: State)
    requires st.info.Keys <= r.info.Keys
    ensures Left(s, r) <= Left(s, st)
  {
    Subset(s.known - r.info.Keys, s.known - st.info.Keys);
  }

  lemma Subset<T>(a: set<T>, b: set<T>)
    requires a <= b
    ensures |a| <= |b|
  {
    assert b == a + (b - a);
  }

  /** Other devices that are left besides k. */
  function LeftBesides(s: Script, st: State, k: DevKey): nat {
    |s.known - st.info.Keys - {k}|
  }

  lemma OneFewer(s: Script, st: State, k: DevKey)
    ensures k in s.known && k !in st.info ==> LeftBesides(s, st, k) < Left(s, st)
    ensures LeftBesides(s, st, k) <= Left(s, st)
    ensures k in st.info ==> LeftBesides(s, st, k) == Left(s, st)
    ensures Left(s, st.(info := st.info[k := None])) == LeftBesides(s, st, k)
  {
    Subset(s.known - st.info.Keys - {k}, s.known - st.info.Keys);
    if k in st.info {
      assert s.known - st.info.Keys - {k} == s.known - st.info.Keys;
    }
    assert s.known - st.info[k := None].Keys == s.known - st.info.Keys - {k};
  }

  lemma FewerBesides(s: Script, st: State, r: State, k: DevKey)
    requires st.info.Keys <= r.info.Keys
    ensures LeftBesides(s, r, k) <= LeftBesides(s, st, k)
  {
    Subset(s.known - r.info.Keys - {k}, s.known - st.info.Keys - {k});
  }

  /** A device that the script gave no session for gets a new one. */
  function Create(s: Script, st: State, k: DevKey): State {
    var a := Addr(0, s.pick(st.sessions.Keys));
    st.(sessions := st.sessions[a := Some(k)], info := st.info[k := Some(a)])
  }

  function FindInfo(s: Script, st: State, k: DevKey): (r: State)
    requires Finite(s)
    ensures st.info.Keys <= r.info.Keys
    decreases Left(s, st), 1, 0
  {
    if k in st.info || s.device(k) == [] then st
    else
      OneFewer(s, st, k);
      Devices(s, st, k, s.device(k))
  }

  /** One answer to a device query: the device is entered without a session, then its session is looked up, and
      when there is none a new one is made. */
  function Device(s: Script, st: State, k: DevKey, answer: Option<Addr>): (r: State)
    requires Finite(s) && k in s.known
    ensures st.info.Keys <= r.info.Keys
    decreases LeftBesides(s, st, k), 4, 0
  {
    OneFewer(s, st, k);
    var st1 := st.(info := st.info[k := None]);
    var st2 :=
      if answer.None? then st1
      else
        var (u, found) := FindSession(s, st1, answer.value.dev, answer.value.net);
        if found == [] then u else u.(info := u.info[k := Some(found[0])]);
    if st2.info[k].Some? then st2 else Create(s, st2, k)
  }

  /** The answers to a device query, one after the other. */
  function Devices(s: Script, st: State, k: DevKey, answers: seq<Option<Addr>>): (r: State)
    requires Finite(s) && k in s.known
    ensures st.info.Keys <= r.info.Keys
    decreases LeftBesides(s, st, k), 5, |answers|
  {
    if answers == [] then st
    else
      var st1 := Device(s, st, k, answers[0]);
      FewerBesides(s, st, st1, k);
      Devices(s, st1, k, answers[1..])
  }

  /** The sessions with a device address, in one network or, for zero, in any. */
  function FindSession(s: Script, st: State, dev: uint32, net: uint32): (r: (State, seq<Addr>))
    requires Finite(s)
    ensures st.info.Keys <= r.0.info.Keys
    decreases Left(s, st), 3, 0
  {
    if net == 0 then
      var st1 := if Indexed(st, dev) == [] then Sessions(s, st, dev, s.session(dev, 0)) else st;
      (st1, Indexed(st1, dev))
    else
      var a := Addr(net, dev);
      var st1 := if a in st.sessions then st else Sessions(s, st, dev, s.session(dev, net));
      (st1, if a in st1.sessions then [a] else [])
  }

  /** The session is in the map and in the index, but has no device yet. */
  function Insert(st: State, dev: uint32, a: Addr): (r: State)
    ensures r.info == st.info
  {
    st.(sessions := st.sessions[a := None], byDev := st.byDev[dev := Indexed(st, dev) + [a]])
  }

  /** Links a session with its device; another session that the device had is erased. */
  function Link(st: State, a: Addr, d: DevKey): (r: State)
    requires d in st.info
    ensures r.info.Keys == st.info.Keys
  {
    var st1 := st.(sessions := st.sessions[a := Some(d)]);
    var st2 := if st.info[d].Some? && st.info[d].value != a then Erase(st1, st.info[d].value) else st1;
    st2.(info := st2.info[d := Some(a)])
  }

  /** The answers to a session query, one after the other; a session without a device is skipped. */
  function Sessions(s: Script, st: State, dev: uint32, answers: seq<Answer>): (r: State)
    requires Finite(s)
    ensures st.info.Keys <= r.info.Keys
    decreases Left(s, st), 2, |answers|
  {
    if answers == [] then st
    else if answers[0].device.None? then Sessions(s, st, dev, answers[1..])
    else
      var a, d := answers[0].addr, answers[0].device.value;
      var st2 := FindInfo(s, Insert(st, dev, a), d);
      var st3 := if d in st2.info then Link(st2, a, d) else st2;
      Fewer(s, st, st3);
      Sessions(s, st3, dev, answers[1..])
  }

  // ---- Other operations.

  function Invalidate(st: State, k: DevKey): State {
    if k !in st.info || st.info[k].None? then st
    else
      var st1 := Erase(st, st.info[k].value);
      st1.(info := Minus(st1.info, k))
  }

  function Send(st: State, a: Addr, data: bytes): State {
    st.(queues := st.queues[a := (if a in st.queues then st.queues[a] else []) + [data]])
  }
}
