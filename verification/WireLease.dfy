/** The lease machine over the wire: what leases hold are connections whose protocol state changes as they are used. */
module WireLease {
  import opened Values
  import opened Lists
  import opened Packets
  import opened Leases

  /** reading: a response that has not seen its end. inserts: the connection's list of open INSERT handles. */
  datatype Wire = Wire(unread: seq<Packet>, reading: bool, inserts: seq<nat>)

  /** conn is None once the connection closed under the handle. */
  datatype Handle = Handle(conn: Option<nat>, finalized: bool, released: bool)

  datatype World = World(s: State, wires: map<nat, Wire>, handles: map<nat, Handle>)

  datatype Step =
    | Manage(step: Leases.Step)
    | Select(lease: nat, sent: bool, answer: seq<Packet>)
    | Pump(lease: nat)
    | Free(lease: nat, cancelSent: bool, raised: bool, rest: seq<Packet>)
    | Begin(lease: nat, handle: nat, opening: Opening)
    | Flush(handle: nat, sent: bool)
    | Finalize(handle: nat, sent: bool, rest: seq<Packet>)
    | ReleaseHandle(handle: nat)

  predicate Attached(w: World, h: nat, c: nat) {
    h in w.handles && !w.handles[h].released && w.handles[h].conn == Some(c)
  }

  /** An INSERT of this connection that is neither finalized nor given up. */
  predicate Inserting(w: World, h: nat, c: nat) {
    Attached(w, h, c) && !w.handles[h].finalized
  }

  function WireOf(w: World, c: nat): Wire {
    if c in w.wires then w.wires[c] else Wire([], false, [])
  }

  /** Nothing is in flight. */
  ghost predicate Idle(w: World, c: nat) {
    !WireOf(w, c).reading && forall h :: !Inserting(w, h, c)
  }

  ghost predicate Quiet(w: World, c: nat) {
    c in w.s.broken || Idle(w, c)
  }

  predicate Uses(s: State, l: nat, c: nat) {
    Live(s, l) && s.leases[l].conn == c
  }

  // ---------- the invariant ----------

  /** A connection with nothing in flight has read every packet of its past requests. */
  ghost predicate AtBoundary(w: World, c: nat)
    requires c in w.wires
  {
    c in w.s.broken ||
    ((w.wires[c].reading ==> Complete(w.wires[c].unread) && forall h :: !Inserting(w, h, c)) &&
     (Idle(w, c) ==> w.wires[c].unread == []))
  }

  /** The list holds exactly the unreleased handles of this connection. */
  ghost predicate ListExact(w: World, c: nat)
    requires c in w.wires
  {
    (forall h :: h in w.wires[c].inserts <==> Attached(w, h, c)) &&
    forall i, j :: 0 <= i < j < |w.wires[c].inserts| ==> w.wires[c].inserts[i] != w.wires[c].inserts[j]
  }

  ghost predicate WireInv(w: World) {
    Inv(w.s) && w.wires.Keys == w.s.open &&
    (forall c :: c in w.wires ==> AtBoundary(w, c)) &&
    (forall c :: c in w.wires ==> ListExact(w, c)) &&
    (forall c :: c in w.wires && !Quiet(w, c) ==> exists l :: Uses(w.s, l, c)) &&
    (forall h, c :: Attached(w, h, c) ==> c in w.s.open)
  }

  // ---------- the steps ----------

  /** The protocol state of one connection, in the terms of the driver's own steps. */
  function LineOf(w: World, c: nat): Line {
    Line(WireOf(w, c).unread, c in w.s.broken, WireOf(w, c).reading)
  }

  function SetLine(w: World, c: nat, x: Line): World {
    w.(s := if x.broken then Break(w.s, c) else w.s,
       wires := w.wires[c := WireOf(w, c).(unread := x.unread, reading := x.reading)])
  }

  function SetInserts(w: World, c: nat, hs: seq<nat>): World {
    w.(wires := w.wires[c := WireOf(w, c).(inserts := hs)])
  }

  function SetHandle(w: World, h: nat, x: Handle): World {
    w.(handles := w.handles[h := x])
  }

  /** Connections that a lease step opened start clean; those it closed take their wire along and detach their
      handles. */
  function Resync(w: World, t: State): World {
    World(t,
          map c | c in t.open :: if c in w.wires then w.wires[c] else Wire([], false, []),
          map h | h in w.handles :: Detach(w.handles[h], t))
  }

  function Detach(h: Handle, t: State): Handle {
    if h.conn.Some? && h.conn.value !in t.open then h.(conn := None) else h
  }

  /** Handles are created by the lease's user and outlive the lease. Release is only of leases at rest: cursors are
      closed and INSERTs finalized or released before their lease, and before the transaction ends. */
  ghost predicate WireEnabled(w: World, step: Step) {
    match step
    case Manage(st) =>
      !st.Fail? && Leases.Enabled(w.s, st) &&
      forall l :: Live(w.s, l) && Ends(st, l) ==> Quiet(w, w.s.leases[l].conn)
    case Select(l, _, answer) => Live(w.s, l) && Quiet(w, w.s.leases[l].conn) && Complete(answer)
    case Pump(l) => Live(w.s, l) && WireOf(w, w.s.leases[l].conn).reading
    case Free(l, _, _, rest) => Live(w.s, l) && WireOf(w, w.s.leases[l].conn).reading && Complete(rest)
    case Begin(l, h, _) => Live(w.s, l) && Quiet(w, w.s.leases[l].conn) && h !in w.handles
    case Flush(h, _) => h in w.handles && !w.handles[h].released
    case Finalize(h, sent, rest) =>
      h in w.handles && !w.handles[h].released &&
      (forall c :: Inserting(w, h, c) && sent ==> c in w.s.broken || Complete(WireOf(w, c).unread + rest))
    case ReleaseHandle(h) => h in w.handles && !w.handles[h].released
  }

  lemma {:induction false} UsesOpen(s: State)
    requires Inv(s)
    ensures forall l :: Live(s, l) ==> s.leases[l].conn in s.open
  {
    forall l | Live(s, l) ensures s.leases[l].conn in s.open {
      LiveOpen(s, l);
    }
  }

  function BeginOn(w: World, c: nat, h: nat, opening: Opening): World {
    var next := SetLine(w, c, Opened(LineOf(w, c), opening));
    if !opening.Entered? then next
    else SetHandle(SetInserts(next, c, [h] + WireOf(w, c).inserts), h, Handle(Some(c), false, false))
  }

  function FinalizeOn(w: World, c: nat, h: nat, sent: bool, rest: seq<Packet>): World
    requires h in w.handles
  {
    SetHandle(SetLine(w, c, Finalized(LineOf(w, c), sent, rest)), h, w.handles[h].(finalized := true))
  }

  function ReleaseOn(w: World, c: nat, h: nat): World
    requires h in w.handles
  {
    var marked := SetLine(w, c, Marked(LineOf(w, c), !w.handles[h].finalized));
    SetHandle(SetInserts(marked, c, Remove(WireOf(w, c).inserts, h)), h, w.handles[h].(released := true))
  }

  /** A detached handle touches no connection. */
  function Advance(w: World, step: Step): World
    requires WireEnabled(w, step)
  {
    match step
    case Manage(st) => Resync(w, Leases.Apply(w.s, st))
    case Select(l, sent, answer) =>
      var c := w.s.leases[l].conn;
      SetLine(w, c, Queried(LineOf(w, c), sent, answer))
    case Pump(l) =>
      var c := w.s.leases[l].conn;
      SetLine(w, c, Pumped(LineOf(w, c)))
    case Free(l, cancelSent, raised, rest) =>
      var c := w.s.leases[l].conn;
      SetLine(w, c, Freed(LineOf(w, c), cancelSent, raised, rest))
    case Begin(l, h, opening) => BeginOn(w, w.s.leases[l].conn, h, opening)
    case Flush(h, sent) =>
      if w.handles[h].conn.None? then w
      else SetLine(w, w.handles[h].conn.value, Marked(LineOf(w, w.handles[h].conn.value), !sent))
    case Finalize(h, sent, rest) =>
      if w.handles[h].finalized || w.handles[h].conn.None? then w
      else FinalizeOn(w, w.handles[h].conn.value, h, sent, rest)
    case ReleaseHandle(h) =>
      if w.handles[h].conn.None? then SetHandle(w, h, w.handles[h].(released := true))
      else ReleaseOn(w, w.handles[h].conn.value, h)
  }

  // ---------- every step keeps it ----------

  /** A step that touches connection c alone is judged at c alone. */
  lemma {:induction false} LocalKeeps(w: World, v: World, c: nat)
    requires WireInv(w) && c in w.wires && (v.s == w.s || v.s == Break(w.s, c)) && v.wires.Keys == w.wires.Keys
    requires forall d :: d in w.wires && d != c ==> v.wires[d] == w.wires[d]
    requires forall h, d :: d != c ==> (Attached(v, h, d) <==> Attached(w, h, d))
    requires forall h, d :: d != c ==> (Inserting(v, h, d) <==> Inserting(w, h, d))
    requires AtBoundary(v, c) && ListExact(v, c) && (Quiet(v, c) || exists l :: Uses(w.s, l, c))
    ensures WireInv(v)
  {
    if v.s != w.s {
      BreakKeeps(w.s, c);
    }
    forall d | d in v.wires ensures AtBoundary(v, d) && ListExact(v, d) {
      assert AtBoundary(w, d) && ListExact(w, d);
    }
    forall d | d in v.wires && !Quiet(v, d) ensures exists l :: Uses(v.s, l, d) {
      assert d != c ==> !Quiet(w, d);
      var l :| Uses(w.s, l, d);
      assert Uses(v.s, l, d);
    }
    forall h, d | Attached(v, h, d) ensures d in v.s.open {
      assert d == c || Attached(w, h, d);
    }
  }

  /** A new protocol state alone. */
  lemma {:induction false} LineKeeps(w: World, c: nat, x: Line)
    requires WireInv(w) && c in w.wires
    requires AtRest(w, c, x) && (w.wires[c].reading || !x.reading || exists l :: Uses(w.s, l, c))
    ensures WireInv(SetLine(w, c, x))
  {
    var v := SetLine(w, c, x);
    assert forall h, d :: Attached(v, h, d) <==> Attached(w, h, d);
    assert forall h, d :: Inserting(v, h, d) <==> Inserting(w, h, d);
    assert ListExact(w, c) && AtBoundary(w, c);
    if !Quiet(v, c) && !x.reading {
      assert !Quiet(w, c);
    }
    LocalKeeps(w, v, c);
  }

  /** What AtBoundary asks of a new protocol state x. */
  ghost predicate AtRest(w: World, c: nat, x: Line) {
    (c in w.s.broken ==> x.broken) &&
    (x.broken || ((x.reading ==> Complete(x.unread) && forall h :: !Inserting(w, h, c)) &&
                  (!x.reading && (forall h :: !Inserting(w, h, c)) ==> x.unread == [])))
  }

  lemma {:induction false} SelectKeeps(w: World, l: nat, c: nat, sent: bool, answer: seq<Packet>)
    requires WireInv(w) && Uses(w.s, l, c) && c in w.wires && Quiet(w, c) && Complete(answer)
    ensures WireInv(SetLine(w, c, Queried(LineOf(w, c), sent, answer)))
  {
    LineKeeps(w, c, Queried(LineOf(w, c), sent, answer));
  }

  lemma {:induction false} PumpKeeps(w: World, c: nat)
    requires WireInv(w) && c in w.wires && w.wires[c].reading
    ensures WireInv(SetLine(w, c, Pumped(LineOf(w, c))))
  {
    assert AtBoundary(w, c);
    LineKeeps(w, c, Pumped(LineOf(w, c)));
  }

  lemma {:induction false} FreeKeeps(w: World, c: nat, cancelSent: bool, raised: bool, rest: seq<Packet>)
    requires WireInv(w) && c in w.wires && w.wires[c].reading
    ensures var v := SetLine(w, c, Freed(LineOf(w, c), cancelSent, raised, rest)); WireInv(v) && Quiet(v, c)
  {
    assert AtBoundary(w, c);
    var v := SetLine(w, c, Freed(LineOf(w, c), cancelSent, raised, rest));
    LineKeeps(w, c, Freed(LineOf(w, c), cancelSent, raised, rest));
    assert forall h :: Inserting(v, h, c) ==> Inserting(w, h, c);
  }

  lemma {:induction false} FlushKeeps(w: World, c: nat, sent: bool)
    requires WireInv(w) && c in w.wires
    ensures WireInv(SetLine(w, c, Marked(LineOf(w, c), !sent)))
  {
    assert AtBoundary(w, c);
    LineKeeps(w, c, Marked(LineOf(w, c), !sent));
  }

  lemma {:induction false} BeginKeeps(w: World, l: nat, c: nat, h: nat, opening: Opening)
    requires WireInv(w) && Uses(w.s, l, c) && c in w.wires && Quiet(w, c) && h !in w.handles
    ensures WireInv(BeginOn(w, c, h, opening))
  {
    assert AtBoundary(w, c);
    if opening.Entered? {
      EnterKeeps(w, l, c, h, opening.left);
    } else {
      LineKeeps(w, c, Opened(LineOf(w, c), opening));
    }
  }

  lemma {:induction false} EnterKeeps(w: World, l: nat, c: nat, h: nat, left: seq<Packet>)
    requires WireInv(w) && Uses(w.s, l, c) && c in w.wires && Quiet(w, c) && h !in w.handles
    ensures WireInv(BeginOn(w, c, h, Entered(left)))
  {
    var v := BeginOn(w, c, h, Entered(left));
    assert ListExact(w, c) && AtBoundary(w, c);
    EnterHandles(w, c, h, left);
    assert Inserting(v, h, c) && !Attached(w, h, c);
    assert v.wires[c].inserts == [h] + w.wires[c].inserts;
    LocalKeeps(w, v, c);
  }

  lemma {:induction false} EnterHandles(w: World, c: nat, h: nat, left: seq<Packet>)
    requires h !in w.handles
    ensures var v := BeginOn(w, c, h, Entered(left));
            (forall g, d :: Attached(v, g, d) <==> Attached(w, g, d) || (g == h && d == c)) &&
            forall g, d :: Inserting(v, g, d) <==> Inserting(w, g, d) || (g == h && d == c)
  {
  }

  lemma {:induction false} FinalizeKeeps(w: World, c: nat, h: nat, sent: bool, rest: seq<Packet>)
    requires WireInv(w) && c in w.wires && Inserting(w, h, c)
    ensures WireInv(FinalizeOn(w, c, h, sent, rest))
  {
    var v := FinalizeOn(w, c, h, sent, rest);
    forall g, d ensures Attached(v, g, d) <==> Attached(w, g, d) {
    }
    forall g, d ensures Inserting(v, g, d) <==> Inserting(w, g, d) && g != h {
    }
    assert ListExact(w, c) && AtBoundary(w, c);
    assert !Quiet(w, c) || c in w.s.broken;
    LocalKeeps(w, v, c);
  }

  /** A handle released before it is finalized leaves its connection broken. */
  lemma {:induction false} ReleaseHandleKeeps(w: World, c: nat, h: nat)
    requires WireInv(w) && c in w.wires && Attached(w, h, c)
    ensures WireInv(ReleaseOn(w, c, h)) && (!w.handles[h].finalized ==> c in ReleaseOn(w, c, h).s.broken)
  {
    var v := ReleaseOn(w, c, h);
    assert ListExact(w, c) && AtBoundary(w, c);
    RemoveElements(w.wires[c].inserts, h);
    forall g, d ensures Attached(v, g, d) <==> Attached(w, g, d) && g != h {
    }
    forall g, d ensures Inserting(v, g, d) <==> Inserting(w, g, d) && g != h {
    }
    if !Quiet(v, c) {
      assert !Quiet(w, c);
    }
    LocalKeeps(w, v, c);
  }

  // ---------- lease steps ----------

  /** A lease step breaks no connection, and those it opens are new. */
  lemma {:induction false} LeaseStepOpens(s: State, step: Leases.Step)
    requires Inv(s) && Leases.Enabled(s, step) && !step.Fail?
    ensures Apply(s, step).broken == s.broken
    ensures forall c :: c in Apply(s, step).open ==> c in s.open || s.next <= c
  {
    match step
    case Get(u, _, connects, _) => EntryOpens(s, u, connects);
    case Version(u, connects) => EntryOpens(s, u, connects);
    case Explicit(l) => ReleaseOpens(s, l);
    case Reset(l) => ReleaseOpens(s, l);
    case _ =>
  }

  lemma {:induction false} EntryOpens(s: State, u: User, connects: bool)
    ensures var t := GetEntry(s, u, connects).0;
            t.broken == s.broken && s.next <= t.next && forall c :: c in t.open ==> c in s.open || s.next <= c
  {
  }

  lemma {:induction false} ReleaseOpens(s: State, l: nat)
    requires l in s.leases
    ensures Release(s, l).broken == s.broken && Release(s, l).open <= s.open
  {
  }

  lemma {:induction false} ResyncKeeps(w: World, t: State)
    requires WireInv(w) && Inv(t) && t.broken == w.s.broken
    requires forall c :: c in t.open ==> c in w.s.open || w.s.next <= c
    requires forall l, c :: Uses(w.s, l, c) && c in t.open ==> Uses(t, l, c) || Quiet(w, c)
    ensures WireInv(Resync(w, t))
  {
    var v := Resync(w, t);
    ResyncHandles(w, t);
    forall c | c in v.wires ensures AtBoundary(v, c) && ListExact(v, c) {
      ResyncWire(w, t, c);
    }
    forall c | c in v.wires && !Quiet(v, c) ensures exists l :: Uses(t, l, c) {
      assert c in w.wires && !Quiet(w, c);
      var l :| Uses(w.s, l, c);
      assert Uses(t, l, c);
    }
  }

  lemma {:induction false} ResyncHandles(w: World, t: State)
    ensures forall h, d :: Attached(Resync(w, t), h, d) <==> Attached(w, h, d) && d in t.open
    ensures forall h, d :: Inserting(Resync(w, t), h, d) <==> Inserting(w, h, d) && d in t.open
  {
  }

  lemma {:induction false} ResyncWire(w: World, t: State, c: nat)
    requires WireInv(w) && t.broken == w.s.broken && c in t.open && (c in w.s.open || w.s.next <= c)
    ensures AtBoundary(Resync(w, t), c) && ListExact(Resync(w, t), c)
  {
    ResyncHandles(w, t);
    if c in w.wires {
      assert AtBoundary(w, c) && ListExact(w, c);
    } else {
      assert forall h :: !Attached(w, h, c);
    }
  }

  lemma {:induction false} LeaseKeeps(w: World, step: Leases.Step)
    requires WireInv(w) && WireEnabled(w, Manage(step))
    ensures WireInv(Resync(w, Apply(w.s, step)))
  {
    var t := Apply(w.s, step);
    StepKeeps(w.s, step);
    LeaseStepOpens(w.s, step);
    UsesOpen(w.s);
    forall l, c | Uses(w.s, l, c) && c in t.open ensures Uses(t, l, c) || Quiet(w, c) {
      if !Ends(step, l) {
        NoPullOut(w.s, step, l);
      }
    }
    ResyncKeeps(w, t);
  }

  lemma {:induction false} AdvanceKeeps(w: World, step: Step)
    requires WireInv(w) && WireEnabled(w, step)
    ensures WireInv(Advance(w, step))
  {
    UsesOpen(w.s);
    match step
    case Manage(st) => LeaseKeeps(w, st);
    case Select(l, sent, answer) => SelectKeeps(w, l, w.s.leases[l].conn, sent, answer);
    case Pump(l) => PumpKeeps(w, w.s.leases[l].conn);
    case Free(l, cancelSent, raised, rest) => FreeKeeps(w, w.s.leases[l].conn, cancelSent, raised, rest);
    case Begin(l, h, opening) => BeginKeeps(w, l, w.s.leases[l].conn, h, opening);
    case Flush(_, _) => HandleKeeps(w, step);
    case Finalize(_, _, _) => HandleKeeps(w, step);
    case ReleaseHandle(_) => HandleKeeps(w, step);
  }

  /** The steps of INSERT handles, attached or not. */
  lemma {:induction false} HandleKeeps(w: World, step: Step)
    requires WireInv(w) && WireEnabled(w, step) && (step.Flush? || step.Finalize? || step.ReleaseHandle?)
    ensures WireInv(Advance(w, step))
  {
    var h := step.handle;
    if w.handles[h].conn.None? {
      DetachedKeeps(w, h);
    } else {
      var c := w.handles[h].conn.value;
      assert Attached(w, h, c);
      match step
      case Flush(_, sent) => FlushKeeps(w, c, sent);
      case Finalize(_, sent, rest) =>
        if !w.handles[h].finalized {
          assert Inserting(w, h, c);
          FinalizeKeeps(w, c, h, sent, rest);
        }
      case ReleaseHandle(_) => ReleaseHandleKeeps(w, c, h);
    }
  }

  lemma {:induction false} DetachedKeeps(w: World, h: nat)
    requires WireInv(w) && h in w.handles && w.handles[h].conn.None?
    ensures WireInv(SetHandle(w, h, w.handles[h].(released := true)))
  {
    var v := SetHandle(w, h, w.handles[h].(released := true));
    assert forall g, d :: Attached(v, g, d) <==> Attached(w, g, d);
    assert forall g, d :: Inserting(v, g, d) <==> Inserting(w, g, d);
    forall c | c in v.wires ensures AtBoundary(v, c) && ListExact(v, c) && (Quiet(v, c) <==> Quiet(w, c)) {
      assert AtBoundary(w, c) && ListExact(w, c);
    }
  }

  // ---------- runs ----------

  ghost predicate WireRun(w: World, steps: seq<Step>, v: World)
    decreases |steps|
  {
    if steps == [] then w == v
    else WireEnabled(w, steps[0]) && WireRun(Advance(w, steps[0]), steps[1..], v)
  }

  function Begun(): World {
    World(Start(), map[], map[])
  }

  lemma {:induction false} WireAlways(w: World, steps: seq<Step>, v: World)
    requires WireInv(w) && WireRun(w, steps, v)
    ensures WireInv(v)
    decreases |steps|
  {
    if steps != [] {
      AdvanceKeeps(w, steps[0]);
      WireAlways(Advance(w, steps[0]), steps[1..], v);
    }
  }

  /** Lease l holds a current connection of that user mapping at a protocol boundary: no response or INSERT is in flight
      and no packet of an earlier request is left to read. */
  ghost predicate CleanHandout(w: World, umid: nat, l: nat) {
    Live(w.s, l) &&
    var c := w.s.leases[l].conn;
    c in w.wires && Current(w.s, umid, c) && Idle(w, c) && w.wires[c].unread == []
  }

  /** A lease taken on top of the present ones holds a connection that none of them uses, so it is at rest. */
  lemma {:induction false} TakenIdle(w: World, t: State, l: nat, c: nat)
    requires WireInv(w) && Inv(t) && l !in w.s.leases && Uses(t, l, c)
    requires forall m :: Uses(w.s, m, c) ==> Uses(t, m, c)
    requires c in t.open && c !in t.broken && t.broken == w.s.broken
    ensures var v := Resync(w, t); Idle(v, c) && v.wires[c].unread == []
  {
    var v := Resync(w, t);
    forall h ensures Inserting(v, h, c) ==> Inserting(w, h, c) {
    }
    if c in w.wires {
      if !Quiet(w, c) {
        var m :| Uses(w.s, m, c);
        Exclusive(t, l, m);
      }
      assert Idle(w, c) && AtBoundary(w, c);
    } else {
      assert forall h :: !Attached(w, h, c);
    }
  }

  lemma {:induction false} GetTakesIdle(w: World, step: Leases.Step)
    requires WireInv(w) && step.Get? && WireEnabled(w, Manage(step)) && Live(Apply(w.s, step), step.lease)
    ensures CleanHandout(Advance(w, Manage(step)), step.user.umid, step.lease)
  {
    var t, l := Apply(w.s, step), step.lease;
    var c := t.leases[l].conn;
    StepKeeps(w.s, step);
    GetLeaseKeeps(w.s, step.user, l, step.connects, step.privateConnects);
    LeaseStepOpens(w.s, step);
    forall m | Uses(w.s, m, c) ensures Uses(t, m, c) {
      NoPullOut(w.s, step, m);
    }
    TakenIdle(w, t, l, c);
  }

  ghost predicate GrantsClean(w: World, step: Leases.Step)
    requires step.Get?
  {
    WireInv(w) && WireEnabled(w, Manage(step)) &&
    (Live(Apply(w.s, step), step.lease) ==> CleanHandout(Advance(w, Manage(step)), step.user.umid, step.lease))
  }

  /** After every run, from the beginning or from any state that keeps the invariant, a lease that is granted is granted
      clean. */
  lemma {:induction false} HandoutAtBoundary(from: World, steps: seq<Step>, w: World, step: Leases.Step)
    requires (from == Begun() || WireInv(from)) && WireRun(from, steps, w) && step.Get? && step.lease !in w.s.leases
    ensures GrantsClean(w, step)
  {
    RunKeeps(from, steps, w);
    GetEnabled(w, step);
    if Live(Apply(w.s, step), step.lease) {
      GetTakesIdle(w, step);
    }
  }

  lemma {:induction false} RunKeeps(from: World, steps: seq<Step>, w: World)
    requires (from == Begun() || WireInv(from)) && WireRun(from, steps, w)
    ensures WireInv(w)
  {
    BegunInv();
    WireAlways(from, steps, w);
  }

  lemma {:induction false} GetEnabled(w: World, step: Leases.Step)
    requires step.Get? && step.lease !in w.s.leases
    ensures WireEnabled(w, Manage(step))
  {
  }

  lemma {:induction false} BegunInv()
    ensures WireInv(Begun())
  {
    StartInv();
  }

  /** Why cursors are closed before their lease: giving back a live lease of a cached connection keeps the invariant
      exactly when nothing is in flight on it or it is broken. */
  lemma {:induction false} ReleaseQuietExactly(w: World, l: nat, k: nat)
    requires WireInv(w) && Holds(w.s, l, k) && k in w.s.entries && w.s.leases[l].conn in w.wires
    ensures WireInv(Resync(w, Release(w.s, l))) <==> Quiet(w, w.s.leases[l].conn)
  {
    var c, t := w.s.leases[l].conn, Release(w.s, l);
    assert Leases.Enabled(w.s, Explicit(l)) && Apply(w.s, Explicit(l)) == t;
    if Quiet(w, c) {
      LeaseKeeps(w, Explicit(l));
    } else {
      StrayBreaks(w, l, c, t);
    }
  }

  /** Once l is released, nobody uses c, although something is in flight on it. */
  lemma {:induction false} StrayBreaks(w: World, l: nat, c: nat, t: State)
    requires WireInv(w) && Uses(w.s, l, c) && c in w.wires && !Quiet(w, c) && t.broken == w.s.broken && t.open ==
             w.s.open
    requires forall m :: Live(t, m) ==> Live(w.s, m) && m != l && t.leases[m] == w.s.leases[m]
    ensures !WireInv(Resync(w, t))
  {
    var v := Resync(w, t);
    ResyncHandles(w, t);
    assert !Quiet(v, c);
    forall m ensures !Uses(t, m, c) {
      if Uses(t, m, c) {
        Exclusive(w.s, l, m);
      }
    }
  }

  /** The same for transaction end: it keeps the invariant exactly when every connection that stays open is at rest. */
  lemma {:induction false} EndQuietExactly(w: World)
    requires WireInv(w)
    ensures WireInv(Resync(w, XactEnd(w.s))) <==> forall c :: c in XactEnd(w.s).open ==> Quiet(w, c)
  {
    var t := XactEnd(w.s);
    var v := Resync(w, t);
    XactEndKeeps(w.s);
    ResyncHandles(w, t);
    forall c | c in t.open ensures Quiet(v, c) <==> Quiet(w, c) {
    }
    if forall c :: c in t.open ==> Quiet(w, c) {
      ResyncKeeps(w, t);
    } else {
      var c :| c in t.open && !Quiet(w, c);
      assert !Quiet(v, c) && forall l :: !Uses(t, l, c);
    }
  }
}
