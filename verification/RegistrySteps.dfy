/** What the operations of the registry change, and that they change nothing else. */
module RegistrySteps {
  import opened Codec
  import opened Wrappers
  import opened RegistryModel
  import opened RegistryRuns

  /** A device that was loaded, or that the script does not know, is looked up without any change. */
  lemma NothingLoaded(s: Script, st: State, k: DevKey)
    requires Finite(s) && (k in st.info || s.device(k) == [])
    ensures FindInfo(s, st, k) == st
  {}

  lemma LinkedFields(st: State, a: Addr, k: DevKey)
    requires k !in st.info
    ensures var r := Loaded(st, a.dev, a, k);
            && r.info == st.info[k := Some(a)] && r.sessions == st.sessions[a := Some(k)] && r.queues == st.queues
            && r.byDev == st.byDev[a.dev := Indexed(st, a.dev) + [a]]
  {
    assert st.sessions[a := None][a := Some(k)] == st.sessions[a := Some(k)];
    assert st.info[k := Some(a)][k := Some(a)] == st.info[k := Some(a)];
  }

  /** A device that is not loaded and has a session: device and session enter the maps linked to each other, and the
      session enters the index behind the others of its address. */
  lemma LoadExactly(s: Script, st: State, k: DevKey, a: Addr)
    requires Agrees(s) && Good(s, st) && k !in st.info && s.device(k) == [Some(a)]
    requires a.net == 0 ==> ZeroAloneAt(s, a.dev)
    ensures Finite(s) && a !in st.sessions
    ensures FindInfo(s, st, k) ==
            State(st.info[k := Some(a)], st.sessions[a := Some(k)],
                  st.byDev[a.dev := (if a.dev in st.byDev then st.byDev[a.dev] else []) + [a]], st.queues)
  {
    hide Agrees, Good, ZeroAloneAt, FindInfo, Loaded;
    AgreesFinite(s);
    LoadDevice(s, st, k, a);
    LinkedFields(st, a, k);
  }

  /** A device that is not loaded and has no session gets one in network zero with a random address, which does not
      enter the index. */
  lemma CreateExactly(s: Script, st: State, k: DevKey)
    requires Finite(s) && k !in st.info && s.device(k) == [None]
    ensures var a := Addr(0, s.pick(st.sessions.Keys));
            FindInfo(s, st, k) == State(st.info[k := Some(a)], st.sessions[a := Some(k)], st.byDev, st.queues)
  {
    CreatedDevice(s, st, k);
    var a := Addr(0, s.pick(st.sessions.Keys));
    assert st.info[k := None][k := Some(a)] == st.info[k := Some(a)];
  }

  /** A session query finds, in one network, the session with the address if it is in the map afterwards, and for
      network zero all sessions of the index; it asks the script only when there is none. */
  lemma QueryFinds(s: Script, st: State, dev: uint32, net: uint32)
    requires Finite(s)
    ensures var (r, found) := FindSession(s, st, dev, net);
            && (net != 0 ==> found == if Addr(net, dev) in r.sessions then [Addr(net, dev)] else [])
            && (net == 0 ==> found == if dev in r.byDev then r.byDev[dev] else [])
            && (net != 0 && Addr(net, dev) in st.sessions ==> r == st)
            && (net == 0 && dev in st.byDev && st.byDev[dev] != [] ==> r == st)
  {
    hide Sessions;
  }

  /** Invalidating a loaded device removes the device, its session with everything queued for it, and the entry of the
      session in the index; nothing else changes. */
  lemma InvalidateExactly(s: Script, st: State, k: DevKey, dev: uint32, x: Addr)
    requires Good(s, st)
    ensures var r := Invalidate(st, k);
            if k !in st.info then r == st
            else
              && st.info[k].Some?
              && var a := st.info[k].value;
                 && r.info == (map y | y in st.info && y != k :: st.info[y])
                 && r.sessions == (map y | y in st.sessions && y != a :: st.sessions[y])
                 && r.queues == (map y | y in st.queues && y != a :: st.queues[y])
                 && (x in Indexed(r, dev) <==> x in Indexed(st, dev) && x != a)
  {
    hide Remove, SessionOk, IndexOk;
    if k in st.info {
      assert DeviceOk(st, k);
      assert IndexOk(st, dev);
      EraseIndex(st, st.info[k].value, dev);
    }
  }

  /** What is sent to a session waits behind what was sent to it before. */
  lemma SendExactly(st: State, a: Addr, data: bytes)
    ensures Send(st, a, data) ==
            State(st.info, st.sessions, st.byDev,
                  st.queues[a := if a in st.queues then st.queues[a] + [data] else [data]])
  {
    assert [] + [data] == [data];
  }
}
