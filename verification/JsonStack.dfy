/** The flat stack of the JSON reader and the partly built tree it stands for. An open container keeps, in the
    fields of its own value, the element count and the kind of the container around it. */
module JsonStack {
  import opened Codec
  import opened JsonText
  import opened JsonGrammar
  import opened Wrappers

  /** Open: the fields that will describe the finished container hold the size and kind of its parent. */
  datatype Cell<+S> = Done(v: Value<S>) | Open(isObject: bool, size: nat, flag: bool)

  datatype Slot<+S> = Slot(key: Option<S>, cell: Cell<S>)

  // ---- Bytes on the stack: an array element is a value, an object element a key and a value.

  const VALUE_BYTES: nat := 32
  const KEY_VALUE_BYTES: nat := 44

  function Width(keyed: bool): nat {
    if keyed then KEY_VALUE_BYTES else VALUE_BYTES
  }

  function Bytes<S>(st: seq<Slot<S>>): nat {
    if st == [] then 0 else Bytes(st[..|st| - 1]) + Width(st[|st| - 1].key.Some?)
  }

  /** How many slots end up above the top when a number of bytes is popped. */
  function SlotsIn<S>(st: seq<Slot<S>>, numBytes: nat): (n: nat)
    ensures n <= |st|
  {
    if st == [] || numBytes < Width(st[|st| - 1].key.Some?) then 0
    else 1 + SlotsIn(st[..|st| - 1], numBytes - Width(st[|st| - 1].key.Some?))
  }

  lemma {:induction false} SlotsInElements<S>(st: seq<Slot<S>>, n: nat, keyed: bool)
    requires n <= |st| && forall i | |st| - n <= i < |st| :: st[i].key.Some? == keyed
    ensures SlotsIn(st, n * Width(keyed)) == n
  {
    if n > 0 {
      assert n * Width(keyed) - Width(keyed) == (n - 1) * Width(keyed);
      SlotsInElements(st[..|st| - 1], n - 1, keyed);
    }
  }

  lemma {:induction false} BytesAtLeast<S>(st: seq<Slot<S>>)
    ensures Bytes(st) >= |st| * VALUE_BYTES
  {
    if st != [] {
      BytesAtLeast(st[..|st| - 1]);
    }
  }

  /** The test for the root by the number of bytes on the stack. */
  lemma RootByBytes<S>(st: seq<Slot<S>>)
    requires st != [] && st[0].key.None?
    ensures Bytes(st) <= VALUE_BYTES <==> |st| == 1
  {
    BytesAtLeast(st);
    if |st| == 1 {
      assert st[..0] == [];
      assert Bytes(st[..0]) == 0;
    }
  }

  // ---- The shape of the stack while isObject and count describe the innermost container.

  predicate Filled<S>(st: seq<Slot<S>>, isObject: bool, n: nat) {
    n <= |st| && forall i | |st| - n <= i < |st| :: st[i].cell.Done? && st[i].key.Some? == isObject
  }

  /** The top n slots are the elements of a container whose own slot is below them; below that slot the stack has
      the same shape for the parent, whose kind and count the slot keeps. */
  predicate Stacked<S>(st: seq<Slot<S>>, isObject: bool, n: nat)
    decreases |st|
  {
    && n < |st| && Filled(st, isObject, n)
    && var h := |st| - n - 1;
       var c := st[h].cell;
       && c.Open? && c.isObject == isObject
       && if h == 0 then st[h].key.None?
          else c.size > 0 && st[h].key.Some? == c.flag && Stacked(st[..h], c.flag, c.size - 1)
  }

  function ElemsOf<S>(st: seq<Slot<S>>, n: nat): (e: seq<Elem<S>>)
    requires n <= |st| && forall i | |st| - n <= i < |st| :: st[i].cell.Done?
    ensures |e| == n
  {
    seq(n, i requires 0 <= i < n => Elem(st[|st| - n + i].key, st[|st| - n + i].cell.v))
  }

  // ---- The partly built tree.

  /** A container that is being read: its elements so far, and the key of the element being read. */
  datatype Frame = Frame(isObject: bool, elems: seq<Elem<bytes>>, key: Option<bytes>)

  type Stack = seq<Slot<bytes>>

  /** The containers around the innermost one, outermost first. */
  function Parents(st: Stack, isObject: bool, n: nat): seq<Frame>
    requires Stacked(st, isObject, n)
    decreases |st|
  {
    var h := |st| - n - 1;
    if h == 0 then []
    else
      var c := st[h].cell;
      Parents(st[..h], c.flag, c.size - 1) + [Frame(c.flag, ElemsOf(st[..h], c.size - 1), st[h].key)]
  }

  /** What becomes of the document when the innermost container comes out as o: each parent takes the finished
      container as an element and goes on. */
  function Unwind(t: Text, frames: seq<Frame>, isObject: bool, o: Outcome<seq<Elem<bytes>>>): Outcome<Tree>
    requires o.Ok? ==> o.pos < |t|
    decreases |frames|
  {
    match o
    case Err(e, p) => Err(e, p)
    case Overrun => Overrun
    case Ok(elems, p) =>
      if frames == [] then Ok(Node(isObject, elems), p)
      else
        var f := frames[|frames| - 1];
        Unwind(t, frames[..|frames| - 1], f.isObject,
               Rest(t, f.isObject, f.elems + [Elem(f.key, Node(isObject, elems))], AfterNode, p))
  }

  /** The stack decodes to a partly built tree from which the reader will get what the recursive descent gets,
      provided the innermost container comes out as o. */
  ghost predicate Refines(t: Text, start: nat, st: Stack, isObject: bool, n: nat, o: Outcome<seq<Elem<bytes>>>) {
    && start < |t| && Opens(t[start])
    && Stacked(st, isObject, n)
    && (o.Ok? ==> o.pos < |t|)
    && Unwind(t, Parents(st, isObject, n), isObject, o) == Root(t, start)
  }

  // ---- Steps of the reader.

  lemma PushedElems<S>(st: seq<Slot<S>>, isObject: bool, n: nat, s: Slot<S>)
    requires Stacked(st, isObject, n) && s.cell.Done? && s.key.Some? == isObject
    ensures Stacked(st + [s], isObject, n + 1)
    ensures ElemsOf(st + [s], n + 1) == ElemsOf(st, n) + [Elem(s.key, s.cell.v)]
  {
    var h := |st| - n - 1;
    assert (st + [s])[..h] == st[..h];
    forall i | 0 <= i < n ensures ElemsOf(st + [s], n + 1)[i] == ElemsOf(st, n)[i] {
      assert (st + [s])[|st| - n + i] == st[|st| - n + i];
    }
    assert ElemsOf(st + [s], n + 1) == ElemsOf(st, n) + [Elem(s.key, s.cell.v)];
  }

  lemma PushedParents(st: Stack, isObject: bool, n: nat, s: Slot<bytes>)
    requires Stacked(st, isObject, n) && s.cell.Done? && s.key.Some? == isObject
    ensures Stacked(st + [s], isObject, n + 1) && Parents(st + [s], isObject, n + 1) == Parents(st, isObject, n)
  {
    PushedElems(st, isObject, n, s);
    var h := |st| - n - 1;
    assert (st + [s])[..h] == st[..h];
  }

  lemma StartRefines(t: Text, start: nat)
    requires start < |t| && Opens(t[start])
    ensures var isObject := t[start] == 0x7B;
            && Refines(t, start, [Slot(None, Open(isObject, 0, false))], isObject, 0,
                       Rest(t, isObject, [], First, start + 1))
            && ElemsOf<bytes>([Slot(None, Open(isObject, 0, false))], 0) == []
  {
    hide Rest;
  }

  lemma ScalarRefines(t: Text, start: nat, st: Stack, isObject: bool, n: nat, p: nat, key: Option<bytes>, q: nat,
                      v: Tree, r: nat)
    requires Stacked(st, isObject, n) && p <= q < |t|
    requires Refines(t, start, st, isObject, n, Element(t, isObject, ElemsOf(st, n), p))
    requires Key(t, p, isObject) == Ok(key, q) && !Opens(t[q]) && Scalar(t, q) == Ok(v, r)
    ensures var st' := st + [Slot(key, Done(v))];
            && Stacked(st', isObject, n + 1)
            && Refines(t, start, st', isObject, n + 1, Rest(t, isObject, ElemsOf(st', n + 1), AfterScalar, r))
  {
    hide Key, Scalar, Element, Rest, Parents, ElemsOf, Unwind;
    PushedElems(st, isObject, n, Slot(key, Done(v)));
    PushedParents(st, isObject, n, Slot(key, Done(v)));
    ElementOfScalar(t, isObject, ElemsOf(st, n), p, key, q, v, r);
  }

  lemma OpenedParents(st: Stack, isObject: bool, n: nat, key: Option<bytes>, child: bool)
    requires Stacked(st, isObject, n) && key.Some? == isObject
    ensures var st' := st + [Slot(key, Open(child, n + 1, isObject))];
            && Stacked(st', child, 0) && ElemsOf(st', 0) == []
            && Parents(st', child, 0) == Parents(st, isObject, n) + [Frame(isObject, ElemsOf(st, n), key)]
  {
    var st' := st + [Slot(key, Open(child, n + 1, isObject))];
    assert st'[..|st|] == st;
  }

  /** Unwinding a container through its parent goes on with the rest of the parent. */
  lemma UnwindChild(t: Text, frames: seq<Frame>, f: Frame, child: bool, o: Outcome<seq<Elem<bytes>>>)
    requires o.Ok? ==> o.pos < |t|
    ensures Unwind(t, frames + [f], child, o) ==
            if o.Ok? then
              Unwind(t, frames, f.isObject,
                     Rest(t, f.isObject, f.elems + [Elem(f.key, Node(child, o.value))], AfterNode, o.pos))
            else if o.Err? then Err(o.error, o.pos) else Overrun
  {
    assert (frames + [f])[..|frames|] == frames;
  }

  lemma OpenRefines(t: Text, start: nat, st: Stack, isObject: bool, n: nat, p: nat, key: Option<bytes>, q: nat)
    requires Stacked(st, isObject, n) && p <= q < |t|
    requires Refines(t, start, st, isObject, n, Element(t, isObject, ElemsOf(st, n), p))
    requires Key(t, p, isObject) == Ok(key, q) && Opens(t[q])
    ensures var child := t[q] == 0x7B;
            var st' := st + [Slot(key, Open(child, n + 1, isObject))];
            && Stacked(st', child, 0) && ElemsOf(st', 0) == []
            && Refines(t, start, st', child, 0, Rest(t, child, [], First, q + 1))
  {
    hide Key, Rest, Parents, ElemsOf;
    var child := t[q] == 0x7B;
    OpenedParents(st, isObject, n, key, child);
    UnwindChild(t, Parents(st, isObject, n), Frame(isObject, ElemsOf(st, n), key), child,
                Rest(t, child, [], First, q + 1));
  }

  /** The slot below the elements of the innermost container. */
  function Header<S>(st: seq<Slot<S>>, n: nat): Slot<S>
    requires n < |st|
  {
    st[|st| - n - 1]
  }

  /** The stack after the innermost container has been closed. */
  function ClosedStack<S>(st: seq<Slot<S>>, isObject: bool, n: nat): seq<Slot<S>>
    requires Stacked(st, isObject, n)
  {
    st[..|st| - n - 1] + [Slot(Header(st, n).key, Done(Node(isObject, ElemsOf(st, n))))]
  }

  /** Closing a container restores the count and kind of its parent. */
  lemma CloseRefines(t: Text, start: nat, st: Stack, isObject: bool, n: nat, p: nat)
    requires Stacked(st, isObject, n) && p < |t| && n + 1 < |st|
    requires Refines(t, start, st, isObject, n, Ok(ElemsOf(st, n), p))
    ensures var st', c := ClosedStack(st, isObject, n), Header(st, n).cell;
            && Stacked(st', c.flag, c.size)
            && Refines(t, start, st', c.flag, c.size, Rest(t, c.flag, ElemsOf(st', c.size), AfterNode, p))
  {
    hide Rest, ElemsOf, Unwind;
    var h := |st| - n - 1;
    var c := st[h].cell;
    var slot := Slot(st[h].key, Done(Node(isObject, ElemsOf(st, n))));
    PushedElems(st[..h], c.flag, c.size - 1, slot);
    PushedParents(st[..h], c.flag, c.size - 1, slot);
    UnwindChild(t, Parents(st[..h], c.flag, c.size - 1), Frame(c.flag, ElemsOf(st[..h], c.size - 1), st[h].key),
                isObject, Ok(ElemsOf(st, n), p));
  }

  lemma CloseRoot(t: Text, start: nat, st: Stack, isObject: bool, n: nat, p: nat)
    requires Stacked(st, isObject, n) && p < |t| && n + 1 == |st|
    requires Refines(t, start, st, isObject, n, Ok(ElemsOf(st, n), p))
    ensures Root(t, start) == Ok(Node(isObject, ElemsOf(st, n)), p)
  {
    hide Rest, ElemsOf;
  }

  lemma FailureRefines(t: Text, start: nat, st: Stack, isObject: bool, n: nat, o: Outcome<seq<Elem<bytes>>>)
    requires Refines(t, start, st, isObject, n, o) && !o.Ok?
    ensures start < |t| && Opens(t[start])
    ensures o.Err? ==> Root(t, start) == Err(o.error, o.pos)
    ensures o.Overrun? ==> Root(t, start) == Overrun
  {
    hide Rest;
  }
}
