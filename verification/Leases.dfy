/** Leasing cached and private connections (src/connection.c), one step at a time. */
module Leases {
  import opened Values
  import opened Lists

  /** A cache entry. The fields after conn mean nothing while conn is None. */
  datatype Entry = Entry(conn: Option<nat>, invalidated: bool, busy: bool, serverHash: nat, mappingHash: nat)

  /** entry is None for a private connection. */
  datatype Lease = Lease(entry: Option<nat>, conn: nat, generation: nat, released: bool)

  datatype User = User(umid: nat, serverHash: nat, mappingHash: nat)

  datatype CacheId = ForeignServer | UserMapping

  /** The backend's state: the hash table by user mapping, the private list, the transaction counter and the leases
      taken. open, broken, madeFor and stale describe the connections themselves: those not yet closed, those that
      failed, the server and user mapping that each was made from, and those whose server or mapping has been
      invalidated since. Connections are numbered as they are made. */
  datatype State = State(
    entries: map<nat, Entry>,
    privates: seq<nat>,
    generation: nat,
    leases: map<nat, Lease>,
    open: set<nat>,
    broken: set<nat>,
    madeFor: map<nat, User>,
    stale: set<nat>,
    next: nat)

  function Close(s: State, c: nat): State {
    s.(open := s.open - {c})
  }

  function Put(s: State, k: nat, e: Entry): State {
    s.(entries := s.entries[k := e])
  }

  function FindEntry(s: State, k: nat): Entry {
    if k in s.entries then s.entries[k] else Entry(None, false, false, 0, 0)
  }

  /** An idle connection is dropped if it is invalidated or broken. */
  predicate MustDrop(s: State, e: Entry) {
    e.conn.Some? && !e.busy && (e.invalidated || e.conn.value in s.broken)
  }

  function DropIdle(s: State, k: nat): State {
    var e := FindEntry(s, k);
    if MustDrop(s, e) then Put(Close(s, e.conn.value), k, e.(conn := None)) else Put(s, k, e)
  }

  /** get_connection_entry. When the connection attempt fails the entry stays empty and the call raises. */
  function GetEntry(s: State, u: User, connects: bool): (r: (State, bool))
    ensures u.umid in r.0.entries && (r.1 ==> r.0.entries[u.umid].conn.Some?)
  {
    var d := DropIdle(s, u.umid);
    if d.entries[u.umid].conn.Some? then (d, true) else (Fill(d, u, connects), connects)
  }

  /** An empty entry is reset, then connected. */
  function Fill(s: State, u: User, connects: bool): (r: State)
    requires u.umid in s.entries
    ensures u.umid in r.entries && (connects ==> r.entries[u.umid].conn.Some?)
  {
    var reset := s.entries[u.umid].(invalidated := false, serverHash := u.serverHash, mappingHash := u.mappingHash);
    if !connects then Put(s, u.umid, reset)
    else Made(Put(s, u.umid, reset.(conn := Some(s.next))), u)
  }

  /** A new connection. */
  function Made(s: State, u: User): State {
    s.(open := s.open + {s.next}, madeFor := s.madeFor[s.next := u], next := s.next + 1)
  }

  function TakeCached(s: State, k: nat, l: nat): State
    requires k in s.entries && s.entries[k].conn.Some?
  {
    Put(s, k, s.entries[k].(busy := true)).(leases :=
      s.leases[l := Lease(Some(k), s.entries[k].conn.value, s.generation, false)])
  }

  function TakePrivate(s: State, u: User, l: nat): State {
    Made(s, u).(privates := s.privates + [s.next], leases := s.leases[l := Lease(None, s.next, s.generation, false)])
  }

  /** chfdw_get_scan_connection: the cached connection if idle, else a private one. */
  function GetLease(s: State, u: User, l: nat, connects: bool, privateConnects: bool): (r: (State, bool)) {
    var (s1, ok) := GetEntry(s, u, connects);
    if !ok then (s1, false)
    else
      if !s1.entries[u.umid].busy then (TakeCached(s1, u.umid, l), true)
      else if !privateConnects then (s1, false)
      else (TakePrivate(s1, u, l), true)
  }

  /** chfdw_release_scan_connection. */
  function Release(s: State, l: nat): State
    requires l in s.leases
  {
    var lease := s.leases[l];
    if lease.released then s
    else
      var s1 := s.(leases := s.leases[l := lease.(released := true)]);
      if lease.entry.Some? then Put(s1, lease.entry.value, FindEntry(s1, lease.entry.value).(busy := false))
      else if lease.conn in s1.privates then Close(s1, lease.conn).(privates := Remove(s1.privates, lease.conn))
      else s1
  }

  /** release_lease, the memory-context callback: a lease of an earlier transaction does nothing. */
  function Callback(s: State, l: nat): State
    requires l in s.leases
  {
    if s.leases[l].generation == s.generation then Release(s, l) else s
  }

  /** Hash value 0 resets everything. */
  predicate Hit(e: Entry, id: CacheId, hash: nat) {
    e.conn.Some? && (hash == 0 || (id == ForeignServer && e.serverHash == hash) ||
      (id == UserMapping && e.mappingHash == hash))
  }

  /** A change of a server or of a user mapping, or of anything, concerns what was made from it. */
  predicate Concerns(u: User, id: CacheId, hash: nat) {
    hash == 0 || hash == match id
                         case ForeignServer => u.serverHash
                         case UserMapping => u.mappingHash
  }

  function Invalidate(s: State, id: CacheId, hash: nat): State {
    s.(entries := map k | k in s.entries ::
      if Hit(s.entries[k], id, hash) then s.entries[k].(invalidated := true) else s.entries[k],
       stale := s.stale + set c | c in s.madeFor && Concerns(s.madeFor[c], id, hash))
  }

  predicate Doomed(e: Entry) {
    e.conn.Some? && e.invalidated
  }

  function DoomedConns(s: State): set<nat> {
    set k | k in s.entries && Doomed(s.entries[k]) :: s.entries[k].conn.value
  }

  /** chfdw_xact_callback at commit or abort. */
  function XactEnd(s: State): State {
    s.(privates := [], generation := s.generation + 1,
       entries := map k | k in s.entries ::
                    s.entries[k].(busy := false, conn := if Doomed(s.entries[k]) then None else s.entries[k].conn),
       open := s.open - (set c | c in s.privates) - DoomedConns(s))
  }

  // ---------- the invariant ----------

  predicate Live(s: State, l: nat) {
    l in s.leases && !s.leases[l].released && s.leases[l].generation == s.generation
  }

  predicate Holds(s: State, l: nat, k: nat) {
    Live(s, l) && s.leases[l].entry == Some(k)
  }

  /** A connection belongs to an entry. */
  predicate Cached(s: State, k: nat, c: nat) {
    k in s.entries && s.entries[k].conn == Some(c)
  }

  /** Every open connection belongs to one entry or to one cell of the private list. */
  ghost predicate Owned(s: State) {
    (forall k, c :: Cached(s, k, c) ==> c in s.open && c !in s.privates) &&
    (forall k, j, c :: Cached(s, k, c) && Cached(s, j, c) ==> k == j) &&
    (forall c :: c in s.privates ==> c in s.open) &&
    (forall i, j :: 0 <= i < j < |s.privates| ==> s.privates[i] != s.privates[j]) &&
    (forall c :: c in s.open ==> c in s.privates || exists k :: Cached(s, k, c)) &&
    (forall c :: c in s.open ==> c < s.next)
  }

  /** An entry is busy exactly when a live lease holds it, and then only one; the lease holds the entry's connection. */
  ghost predicate Leased(s: State) {
    (forall k :: k in s.entries && s.entries[k].busy ==> s.entries[k].conn.Some? && exists l :: Holds(s, l, k)) &&
    (forall l, k :: Holds(s, l, k) ==>
      k in s.entries && s.entries[k].busy && s.entries[k].conn == Some(s.leases[l].conn)) &&
    (forall l, m, k :: Holds(s, l, k) && Holds(s, m, k) ==> l == m) &&
    (forall l, k :: l in s.leases && s.leases[l].entry == Some(k) ==> k in s.entries) &&
    (forall l :: l in s.leases ==> s.leases[l].generation <= s.generation)
  }

  predicate HoldsPrivate(s: State, l: nat, c: nat) {
    Live(s, l) && s.leases[l].entry == None && s.leases[l].conn == c
  }

  /** The private list is exactly the live private leases. */
  ghost predicate PrivatelyHeld(s: State) {
    (forall l, c :: HoldsPrivate(s, l, c) ==> c in s.privates) &&
    (forall c :: c in s.privates ==> exists l :: HoldsPrivate(s, l, c)) &&
    (forall l, m, c :: HoldsPrivate(s, l, c) && HoldsPrivate(s, m, c) ==> l == m) &&
    (forall l :: l in s.leases && s.leases[l].entry == None && !Live(s, l) ==> s.leases[l].conn !in s.privates) &&
    (forall l :: l in s.leases ==> s.leases[l].conn < s.next)
  }

  /** An entry remembers whom its connection was made for, and whether that has been invalidated since. */
  predicate Remembers(k: nat, e: Entry, u: User, stale: bool) {
    u == User(k, e.serverHash, e.mappingHash) && e.invalidated == stale
  }

  ghost predicate Remembered(s: State) {
    (forall k, c :: Cached(s, k, c) ==> c in s.madeFor && Remembers(k, s.entries[k], s.madeFor[c], c in s.stale)) &&
    (forall c :: c in s.stale ==> c in s.madeFor) &&
    (forall c :: c in s.madeFor || c in s.broken ==> c < s.next)
  }

  ghost predicate Inv(s: State) {
    Owned(s) && Leased(s) && PrivatelyHeld(s) && Remembered(s)
  }

  function Start(): State {
    State(map[], [], 0, map[], {}, {}, map[], {}, 0)
  }

  /** No two live leases share a connection. */
  lemma {:induction false} Exclusive(s: State, l: nat, m: nat)
    requires Inv(s) && Live(s, l) && Live(s, m) && s.leases[l].conn == s.leases[m].conn
    ensures l == m
  {
    var a, b := s.leases[l], s.leases[m];
    if a.entry.Some? {
      assert Holds(s, l, a.entry.value) && Cached(s, a.entry.value, a.conn);
    } else {
      assert HoldsPrivate(s, l, a.conn);
    }
    if b.entry.Some? {
      assert Holds(s, m, b.entry.value) && Cached(s, b.entry.value, b.conn);
    } else {
      assert HoldsPrivate(s, m, b.conn);
    }
  }

  // ---------- every step keeps it ----------

  lemma {:induction false} PrivateFrame(s: State, t: State)
    requires PrivatelyHeld(s) && t.privates == s.privates && t.leases == s.leases && t.generation == s.generation &&
             s.next <= t.next
    ensures PrivatelyHeld(t)
  {
    assert forall l, c :: HoldsPrivate(t, l, c) <==> HoldsPrivate(s, l, c);
    assert forall l :: Live(t, l) <==> Live(s, l);
    forall c | c in t.privates ensures exists l :: HoldsPrivate(t, l, c) {
      var l :| HoldsPrivate(s, l, c);
      assert HoldsPrivate(t, l, c);
    }
  }

  lemma {:induction false} LeasedFrame(s: State, t: State)
    requires Leased(s) && t.leases == s.leases && t.generation == s.generation && s.entries.Keys <= t.entries.Keys
    requires forall k :: k in t.entries ==> if k in s.entries then t.entries[k].busy == s.entries[k].busy
             else !t.entries[k].busy
    requires forall k :: k in s.entries && s.entries[k].busy ==> t.entries[k].conn == s.entries[k].conn
    ensures Leased(t)
  {
    assert forall l, k :: Holds(t, l, k) <==> Holds(s, l, k);
    forall k | k in t.entries && t.entries[k].busy ensures exists l :: Holds(t, l, k) {
      var l :| Holds(s, l, k);
      assert Holds(t, l, k);
    }
  }

  lemma {:induction false} DropIdleKeeps(s: State, k: nat)
    requires Inv(s)
    ensures MustDrop(s, FindEntry(s, k)) ==> FindEntry(s, k).conn.value in s.open
    ensures Inv(DropIdle(s, k))
  {
    var e := FindEntry(s, k);
    if e.conn.Some? {
      assert Cached(s, k, e.conn.value);
    }
    var t := DropIdle(s, k);
    PrivateFrame(s, t);
    LeasedFrame(s, t);
    assert forall j, c :: Cached(t, j, c) <==> Cached(s, j, c) && !(j == k && MustDrop(s, e));
    forall c | c in t.open ensures c in t.privates || exists j :: Cached(t, j, c) {
      if c !in s.privates {
        var j :| Cached(s, j, c);
        assert Cached(t, j, c);
      }
    }
  }

  lemma {:induction false} FillKeeps(s: State, u: User, connects: bool)
    requires Inv(s) && u.umid in s.entries && s.entries[u.umid].conn.None?
    ensures Inv(Fill(s, u, connects))
  {
    var t, k := Fill(s, u, connects), u.umid;
    PrivateFrame(s, t);
    LeasedFrame(s, t);
    assert forall j, c :: Cached(t, j, c) <==> Cached(s, j, c) || (connects && j == k && c == s.next);
    forall c | c in t.open ensures c in t.privates || exists j :: Cached(t, j, c) {
      if c in s.open && c !in s.privates {
        var j :| Cached(s, j, c);
        assert Cached(t, j, c);
      } else if c == s.next {
        assert Cached(t, k, c);
      }
    }
  }

  lemma {:induction false} GetEntryKeeps(s: State, u: User, connects: bool)
    requires Inv(s)
    ensures MustDrop(s, FindEntry(s, u.umid)) ==> FindEntry(s, u.umid).conn.value in s.open
    ensures Inv(GetEntry(s, u, connects).0)
  {
    DropIdleKeeps(s, u.umid);
    var d := DropIdle(s, u.umid);
    if d.entries[u.umid].conn.None? {
      FillKeeps(d, u, connects);
    }
  }

  lemma {:induction false} TakeCachedKeeps(s: State, k: nat, l: nat)
    requires Inv(s) && k in s.entries && s.entries[k].conn.Some? && !s.entries[k].busy && l !in s.leases
    ensures Inv(TakeCached(s, k, l))
  {
    var t := TakeCached(s, k, l);
    assert forall m, j :: Holds(t, m, j) <==> Holds(s, m, j) || (m == l && j == k);
    assert forall m, c :: HoldsPrivate(t, m, c) <==> HoldsPrivate(s, m, c);
    assert forall j, c :: Cached(t, j, c) <==> Cached(s, j, c);
    assert Holds(t, l, k) && Cached(s, k, s.entries[k].conn.value);
    forall c | c in t.privates ensures exists m :: HoldsPrivate(t, m, c) {
      var m :| HoldsPrivate(s, m, c);
      assert HoldsPrivate(t, m, c);
    }
    forall c | c in t.open ensures c in t.privates || exists j :: Cached(t, j, c) {
      if c !in s.privates {
        var j :| Cached(s, j, c);
        assert Cached(t, j, c);
      }
    }
  }

  lemma {:induction false} TakePrivateKeeps(s: State, u: User, l: nat)
    requires Inv(s) && l !in s.leases
    ensures Inv(TakePrivate(s, u, l))
  {
    var t := TakePrivate(s, u, l);
    TakePrivateOwned(s, u, l);
    assert forall m, j :: Holds(t, m, j) <==> Holds(s, m, j);
    assert forall m, c :: HoldsPrivate(t, m, c) <==> HoldsPrivate(s, m, c) || (m == l && c == s.next);
    assert HoldsPrivate(t, l, s.next);
    forall c | c in t.privates ensures exists m :: HoldsPrivate(t, m, c) {
      if c in s.privates {
        var m :| HoldsPrivate(s, m, c);
        assert HoldsPrivate(t, m, c);
      }
    }
  }

  lemma {:induction false} TakePrivateOwned(s: State, u: User, l: nat)
    requires Owned(s) && Remembered(s)
    ensures Owned(TakePrivate(s, u, l)) && Remembered(TakePrivate(s, u, l))
  {
    var t := TakePrivate(s, u, l);
    assert forall j, c :: Cached(t, j, c) <==> Cached(s, j, c);
    forall c | c in t.open ensures c in t.privates || exists j :: Cached(t, j, c) {
      if c in s.open && c !in s.privates {
        var j :| Cached(s, j, c);
        assert Cached(t, j, c);
      }
    }
  }

  predicate Current(s: State, umid: nat, c: nat) {
    c in s.open && c !in s.broken && c in s.madeFor && s.madeFor[c].umid == umid && c !in s.stale
  }

  /** A handed-out connection is open and not broken, was made for that user mapping, and neither the mapping nor its
      server has been invalidated since. */
  lemma {:induction false} GetLeaseKeeps(s: State, u: User, l: nat, connects: bool, privateConnects: bool)
    requires Inv(s) && l !in s.leases
    ensures MustDrop(s, FindEntry(s, u.umid)) ==> FindEntry(s, u.umid).conn.value in s.open
    ensures var (t, ok) := GetLease(s, u, l, connects, privateConnects);
            Inv(t) && (ok ==> Live(t, l) && Current(t, u.umid, t.leases[l].conn))
  {
    GetEntryKeeps(s, u, connects);
    var (s1, ok) := GetEntry(s, u, connects);
    if ok {
      var e := s1.entries[u.umid];
      assert Cached(s1, u.umid, e.conn.value);
      if !e.busy {
        TakeCachedKeeps(s1, u.umid, l);
      } else if privateConnects {
        TakePrivateKeeps(s1, u, l);
      }
    }
  }

  /** An idle connection that still serves. */
  predicate Serves(s: State, k: nat, c: nat) {
    Cached(s, k, c) && !s.entries[k].busy && c !in s.stale && c !in s.broken
  }

  predicate Busy(s: State, k: nat) {
    k in s.entries && s.entries[k].conn.Some? && s.entries[k].busy
  }

  /** When a lease is granted, and on which connection: the cached one if it still serves, else a new one, which is
      private while the cached one is in use. */
  lemma {:induction false} GetLeaseExactly(s: State, u: User, l: nat, connects: bool, privateConnects: bool, c: nat)
    requires Inv(s) && l !in s.leases
    ensures var (t, ok) := GetLease(s, u, l, connects, privateConnects);
            var busy, serves := Busy(s, u.umid), exists d :: Serves(s, u.umid, d);
            (ok <==> if busy then privateConnects else serves || connects) && (ok <==> l in t.leases) &&
            (ok ==> t.leases[l].entry == (if busy then None else Some(u.umid)) &&
                    (if Serves(s, u.umid, c) then t.leases[l].conn == c else serves || t.leases[l].conn == s.next))
  {
    var e := FindEntry(s, u.umid);
    if e.conn.Some? {
      assert Cached(s, u.umid, e.conn.value);
      assert Serves(s, u.umid, e.conn.value) <==> !e.busy && !e.invalidated && e.conn.value !in s.broken;
    }
  }

  lemma {:induction false} ReleaseCachedKeeps(s: State, l: nat, k: nat)
    requires Inv(s) && Holds(s, l, k)
    ensures Inv(Release(s, l))
  {
    var t := Release(s, l);
    assert forall m, j :: Holds(t, m, j) <==> Holds(s, m, j) && m != l;
    assert forall m, c :: HoldsPrivate(t, m, c) <==> HoldsPrivate(s, m, c);
    assert forall j, c :: Cached(t, j, c) <==> Cached(s, j, c);
    forall j | j in t.entries && t.entries[j].busy ensures exists m :: Holds(t, m, j) {
      var m :| Holds(s, m, j);
      assert Holds(t, m, j);
    }
    forall c | c in t.open && c !in t.privates ensures exists j :: Cached(t, j, c) {
      var j :| Cached(s, j, c);
      assert Cached(t, j, c);
    }
  }

  lemma {:induction false} ReleasePrivateKeeps(s: State, l: nat, c: nat)
    requires Inv(s) && HoldsPrivate(s, l, c)
    ensures Inv(Release(s, l))
  {
    var t := Release(s, l);
    RemoveElements(s.privates, c);
    ReleasePrivateOwned(s, t, c);
    ReleasePrivateLeased(s, l);
    assert forall m, d :: HoldsPrivate(t, m, d) <==> HoldsPrivate(s, m, d) && m != l;
    forall d | d in t.privates ensures exists m :: HoldsPrivate(t, m, d) {
      var m :| HoldsPrivate(s, m, d);
      assert HoldsPrivate(t, m, d);
    }
  }

  lemma {:induction false} ReleasePrivateLeased(s: State, l: nat)
    requires Leased(s) && l in s.leases && s.leases[l].entry.None?
    ensures Leased(Release(s, l))
  {
    var t := Release(s, l);
    assert forall m, j :: Holds(t, m, j) <==> Holds(s, m, j);
    forall j | j in t.entries && t.entries[j].busy ensures exists m :: Holds(t, m, j) {
      var m :| Holds(s, m, j);
      assert Holds(t, m, j);
    }
  }

  lemma {:induction false} ReleasePrivateOwned(s: State, t: State, c: nat)
    requires Owned(s) && Remembered(s) && c in s.privates && t.entries == s.entries && t.next == s.next
    requires t.privates == Remove(s.privates, c) && t.open == s.open - {c} && t.broken == s.broken
    requires t.madeFor == s.madeFor && t.stale == s.stale
    ensures Owned(t) && Remembered(t)
  {
    RemoveElements(s.privates, c);
    assert forall j, d :: Cached(t, j, d) <==> Cached(s, j, d);
    forall d | d in t.open && d !in t.privates ensures exists j :: Cached(t, j, d) {
      var j :| Cached(s, j, d);
      assert Cached(t, j, d);
    }
  }

  /** A stale lease of a private connection that is gone releases nothing; one of an idle entry changes nothing
      either. */
  lemma {:induction false} ReleaseStaleKeeps(s: State, l: nat)
    requires Inv(s) && l in s.leases && !Live(s, l)
    requires s.leases[l].entry.Some? ==> s.leases[l].released || !s.entries[s.leases[l].entry.value].busy
    ensures Inv(Release(s, l))
  {
    var t := Release(s, l);
    assert t.entries == s.entries;
    assert forall m, j :: Holds(t, m, j) <==> Holds(s, m, j);
    assert forall m, d :: HoldsPrivate(t, m, d) <==> HoldsPrivate(s, m, d);
    assert forall j, d :: Cached(t, j, d) <==> Cached(s, j, d);
    forall j | j in t.entries && t.entries[j].busy ensures exists m :: Holds(t, m, j) {
      var m :| Holds(s, m, j);
      assert Holds(t, m, j);
    }
    forall d | d in t.privates ensures exists m :: HoldsPrivate(t, m, d) {
      var m :| HoldsPrivate(s, m, d);
      assert HoldsPrivate(t, m, d);
    }
    forall d | d in t.open && d !in t.privates ensures exists j :: Cached(t, j, d) {
      var j :| Cached(s, j, d);
      assert Cached(t, j, d);
    }
  }

  lemma {:induction false} InvalidateKeeps(s: State, id: CacheId, hash: nat)
    requires Inv(s)
    ensures Inv(Invalidate(s, id, hash))
  {
    var t := Invalidate(s, id, hash);
    assert forall m, j :: Holds(t, m, j) <==> Holds(s, m, j);
    assert forall m, d :: HoldsPrivate(t, m, d) <==> HoldsPrivate(s, m, d);
    assert forall j, d :: Cached(t, j, d) <==> Cached(s, j, d);
    forall j | j in t.entries && t.entries[j].busy ensures exists m :: Holds(t, m, j) {
      var m :| Holds(s, m, j);
      assert Holds(t, m, j);
    }
    forall d | d in t.privates ensures exists m :: HoldsPrivate(t, m, d) {
      var m :| HoldsPrivate(s, m, d);
      assert HoldsPrivate(t, m, d);
    }
    forall d | d in t.open && d !in t.privates ensures exists j :: Cached(t, j, d) {
      var j :| Cached(s, j, d);
      assert Cached(t, j, d);
    }
    forall k, c | Cached(t, k, c)
      ensures c in t.madeFor && Remembers(k, t.entries[k], t.madeFor[c], c in t.stale)
    {
      assert Cached(s, k, c);
    }
  }

  /** After transaction end nothing is private, busy, live, or both open and invalidated; each connection closed here
      was open and closed once, since no connection has two owners. What is not stale stays cached. */
  lemma {:induction false} XactEndKeeps(s: State)
    requires Inv(s)
    ensures Inv(XactEnd(s))
    ensures (set c | c in s.privates) <= s.open && DoomedConns(s) <= s.open &&
            (set c | c in s.privates) !! DoomedConns(s)
    ensures var t := XactEnd(s);
            t.privates == [] && (forall l :: !Live(t, l)) &&
            forall k :: k in t.entries ==> !t.entries[k].busy && !Doomed(t.entries[k])
    ensures forall k, c :: Cached(XactEnd(s), k, c) <==> Cached(s, k, c) && c !in s.stale
  {
    var t := XactEnd(s);
    forall c | c in DoomedConns(s) ensures exists k :: Cached(s, k, c) && Doomed(s.entries[k]) {
      var k :| k in s.entries && Doomed(s.entries[k]) && s.entries[k].conn.value == c;
      assert Cached(s, k, c);
    }
    assert forall l :: !Live(t, l);
    assert forall j, d :: Cached(t, j, d) <==> Cached(s, j, d) && !Doomed(s.entries[j]);
    forall d | d in t.open ensures exists j :: Cached(t, j, d) {
      var j :| Cached(s, j, d);
      assert Cached(t, j, d);
    }
  }

  /** A connection in use fails. */
  function Break(s: State, c: nat): State {
    s.(broken := s.broken + {c})
  }

  lemma {:induction false} BreakKeeps(s: State, c: nat)
    requires Inv(s) && c in s.open
    ensures Inv(Break(s, c))
  {
    var t := Break(s, c);
    assert forall m, j :: Holds(t, m, j) <==> Holds(s, m, j);
    assert forall m, d :: HoldsPrivate(t, m, d) <==> HoldsPrivate(s, m, d);
    assert forall j, d :: Cached(t, j, d) <==> Cached(s, j, d);
    forall j | j in t.entries && t.entries[j].busy ensures exists m :: Holds(t, m, j) {
      var m :| Holds(s, m, j);
      assert Holds(t, m, j);
    }
    forall d | d in t.privates ensures exists m :: HoldsPrivate(t, m, d) {
      var m :| HoldsPrivate(s, m, d);
      assert HoldsPrivate(t, m, d);
    }
    forall d | d in t.open && d !in t.privates ensures exists j :: Cached(t, j, d) {
      var j :| Cached(s, j, d);
      assert Cached(t, j, d);
    }
  }

  // ---------- runs ----------

  /** Explicit releases come from the transaction that took the lease; stale ones only through the callback. */
  datatype Step =
    | Get(user: User, lease: nat, connects: bool, privateConnects: bool)
    | Explicit(lease: nat)
    | Reset(lease: nat)
    | Inval(id: CacheId, hash: nat)
    | Version(user: User, connects: bool)
    | Fail(conn: nat)
    | End

  predicate Enabled(s: State, step: Step) {
    match step
    case Get(_, l, _, _) => l !in s.leases
    case Explicit(l) => l in s.leases && s.leases[l].generation == s.generation
    case Reset(l) => l in s.leases
    case Inval(_, _) => true
    case Version(_, _) => true
    case Fail(c) => c in s.open
    case End => true
  }

  /** What a step closes or looks up is open, or there. */
  lemma {:induction false} Callable(s: State)
    requires Inv(s)
    ensures forall k :: MustDrop(s, FindEntry(s, k)) ==> FindEntry(s, k).conn.value in s.open
    ensures forall l :: l in s.leases && s.leases[l].entry.Some? ==> s.leases[l].entry.value in s.entries
  {
    forall k | MustDrop(s, FindEntry(s, k)) ensures FindEntry(s, k).conn.value in s.open {
      DropIdleKeeps(s, k);
    }
  }

  function Apply(s: State, step: Step): State
    requires Enabled(s, step)
  {
    match step
    case Get(u, l, connects, privateConnects) => GetLease(s, u, l, connects, privateConnects).0
    case Explicit(l) => Release(s, l)
    case Reset(l) => Callback(s, l)
    case Inval(id, hash) => Invalidate(s, id, hash)
    case Version(u, connects) => GetEntry(s, u, connects).0
    case Fail(c) => Break(s, c)
    case End => XactEnd(s)
  }

  lemma {:induction false} CurrentReleaseKeeps(s: State, l: nat)
    requires Inv(s) && l in s.leases && s.leases[l].generation == s.generation
    ensures Inv(Release(s, l))
  {
    var lease := s.leases[l];
    if !lease.released {
      if lease.entry.Some? {
        ReleaseCachedKeeps(s, l, lease.entry.value);
      } else {
        ReleasePrivateKeeps(s, l, lease.conn);
      }
    }
  }

  lemma {:induction false} StepKeeps(s: State, step: Step)
    requires Inv(s) && Enabled(s, step)
    ensures Inv(Apply(s, step))
  {
    Callable(s);
    match step
    case Get(u, l, connects, privateConnects) => GetLeaseKeeps(s, u, l, connects, privateConnects);
    case Explicit(l) => CurrentReleaseKeeps(s, l);
    case Reset(l) =>
      if s.leases[l].generation == s.generation {
        CurrentReleaseKeeps(s, l);
      }
    case Inval(id, hash) => InvalidateKeeps(s, id, hash);
    case Version(u, connects) => GetEntryKeeps(s, u, connects);
    case Fail(c) => BreakKeeps(s, c);
    case End => XactEndKeeps(s);
  }

  /** A run from s whose steps are all enabled, and where it ends. */
  predicate Run(s: State, steps: seq<Step>, t: State)
    decreases |steps|
  {
    if steps == [] then s == t
    else Enabled(s, steps[0]) && Run(Apply(s, steps[0]), steps[1..], t)
  }

  /** Exclusivity, conservation and the rest hold after every run. */
  lemma {:induction false} AlwaysInv(s: State, steps: seq<Step>, t: State)
    requires Inv(s) && Run(s, steps, t)
    ensures Inv(t)
    decreases |steps|
  {
    if steps != [] {
      StepKeeps(s, steps[0]);
      AlwaysInv(Apply(s, steps[0]), steps[1..], t);
    }
  }

  lemma {:induction false} StartInv()
    ensures Inv(Start())
  {
  }

  /** A connection starts current. */
  lemma {:induction false} MadeCurrent(s: State, step: Step, c: nat)
    requires Inv(s) && Enabled(s, step) && c !in s.madeFor && c in Apply(s, step).madeFor
    ensures c !in Apply(s, step).stale
  {
  }

  predicate IsConcerned(u: User, step: Step) {
    step.Inval? && Concerns(u, step.id, step.hash)
  }

  /** And is stale exactly if, since it was made, an invalidation came that concerns whom it was made for. */
  lemma {:induction false} StaleExactly(s: State, steps: seq<Step>, t: State, c: nat)
    requires Run(s, steps, t) && c in s.madeFor && c < s.next
    ensures c < t.next && c in t.madeFor && t.madeFor[c] == s.madeFor[c]
    ensures c in t.stale <==> c in s.stale || exists i :: 0 <= i < |steps| && IsConcerned(s.madeFor[c], steps[i])
    decreases |steps|
  {
    if steps != [] {
      StaleStep(s, steps[0], c);
      StaleExactly(Apply(s, steps[0]), steps[1..], t, c);
      if i :| 0 <= i < |steps| && IsConcerned(s.madeFor[c], steps[i]) {
        if i > 0 {
          assert steps[1..][i - 1] == steps[i];
        }
      }
    }
  }

  lemma {:induction false} StaleStep(s: State, step: Step, c: nat)
    requires Enabled(s, step) && c in s.madeFor && c < s.next
    ensures var t := Apply(s, step);
            c < t.next && c in t.madeFor && t.madeFor[c] == s.madeFor[c] &&
            (c in t.stale <==> c in s.stale || IsConcerned(s.madeFor[c], step))
  {
    if step.Get? {
      TakingKeepsMade(s, step, c);
    } else if step.Explicit? || step.Reset? {
      ReleaseKeepsMade(s, step.lease);
    }
  }

  lemma {:induction false} TakingKeepsMade(s: State, step: Step, c: nat)
    requires step.Get? && Enabled(s, step) && c < s.next
    ensures var t := Apply(s, step);
            c < t.next && t.stale == s.stale && (c in t.madeFor <==> c in s.madeFor) &&
            (c in s.madeFor ==> t.madeFor[c] == s.madeFor[c])
  {
    EntryKeepsMade(s, step.user, step.connects, c);
  }

  lemma {:induction false} EntryKeepsMade(s: State, u: User, connects: bool, c: nat)
    requires c < s.next
    ensures var t := GetEntry(s, u, connects).0;
            c < t.next && t.stale == s.stale && (c in t.madeFor <==> c in s.madeFor) &&
            (c in s.madeFor ==> t.madeFor[c] == s.madeFor[c])
  {
  }

  lemma {:induction false} ReleaseKeepsMade(s: State, l: nat)
    requires l in s.leases
    ensures var t := Release(s, l); t.next == s.next && t.stale == s.stale && t.madeFor == s.madeFor
  {
  }

  /** So no lease is granted on a connection made before such an invalidation: from any earlier state on in which the
      connection was there. */
  lemma {:induction false} NoStaleGrant(from: State, steps: seq<Step>, s: State, step: Step)
    requires Inv(from) && Run(from, steps, s) && step.Get? && Enabled(s, step) && Live(Apply(s, step), step.lease)
    ensures var t := Apply(s, step); var c := t.leases[step.lease].conn;
            Current(t, step.user.umid, c) &&
            (c in from.madeFor ==> forall i :: 0 <= i < |steps| ==> !IsConcerned(from.madeFor[c], steps[i]))
  {
    AlwaysInv(from, steps, s);
    GetLeaseKeeps(s, step.user, step.lease, step.connects, step.privateConnects);
    var c := Apply(s, step).leases[step.lease].conn;
    if c in from.madeFor {
      StaleExactly(from, steps, s, c);
      StaleStep(s, step, c);
    }
  }

  /** The releases that end lease l. */
  predicate Ends(step: Step, l: nat) {
    step == End || step == Explicit(l) || step == Reset(l)
  }

  /** A live lease's connection is open. */
  lemma {:induction false} LiveOpen(s: State, l: nat)
    requires Inv(s) && Live(s, l)
    ensures s.leases[l].conn in s.open
  {
    if s.leases[l].entry.Some? {
      assert Holds(s, l, s.leases[l].entry.value);
      assert Cached(s, s.leases[l].entry.value, s.leases[l].conn);
    } else {
      assert HoldsPrivate(s, l, s.leases[l].conn);
    }
  }

  lemma {:induction false} LeaseStays(s: State, step: Step, l: nat)
    requires Enabled(s, step) && Live(s, l) && !Ends(step, l)
    ensures var t := Apply(s, step); Live(t, l) && t.leases[l] == s.leases[l]
  {
  }

  /** And a step that ends it does end it. */
  lemma {:induction false} LiveExactly(s: State, step: Step, l: nat)
    requires Inv(s) && Enabled(s, step) && Live(s, l)
    ensures Live(Apply(s, step), l) <==> !Ends(step, l)
  {
    if !Ends(step, l) {
      LeaseStays(s, step, l);
    }
  }

  /** A cached connection given back is there for the next lease. */
  lemma {:induction false} GivenBack(s: State, l: nat, m: nat, u: User, connects: bool, privateConnects: bool)
    requires Inv(s) && Holds(s, l, u.umid) && m !in s.leases && s.leases[l].conn !in s.stale + s.broken
    ensures var (t, ok) := GetLease(Release(s, l), u, m, connects, privateConnects);
            ok && t.leases[m].entry == Some(u.umid) && t.leases[m].conn == s.leases[l].conn
  {
    ReleaseCachedKeeps(s, l, u.umid);
    var c := s.leases[l].conn;
    assert Cached(s, u.umid, c) && Serves(Release(s, l), u.umid, c);
    GetLeaseExactly(Release(s, l), u, m, connects, privateConnects, c);
  }

  /** A live lease keeps its connection, open, through every step but its own release and the end of the transaction. */
  lemma {:induction false} NoPullOut(s: State, step: Step, l: nat)
    requires Inv(s) && Enabled(s, step) && Live(s, l) && !Ends(step, l)
    ensures var t := Apply(s, step); Live(t, l) && t.leases[l].conn == s.leases[l].conn && t.leases[l].conn in t.open
  {
    StepKeeps(s, step);
    LeaseStays(s, step, l);
    LiveOpen(Apply(s, step), l);
  }

  /** The same over a whole run. */
  lemma {:induction false} NeverPulledOut(s: State, steps: seq<Step>, t: State, l: nat)
    requires Inv(s) && Run(s, steps, t) && Live(s, l) && forall i :: 0 <= i < |steps| ==> !Ends(steps[i], l)
    ensures Live(t, l) && t.leases[l].conn == s.leases[l].conn && t.leases[l].conn in t.open
    decreases |steps|
  {
    if steps == [] {
      LiveOpen(s, l);
    } else {
      NoPullOut(s, steps[0], l);
      StepKeeps(s, steps[0]);
      NeverPulledOut(Apply(s, steps[0]), steps[1..], t, l);
    }
  }

  /** Why explicit releases must stay in their transaction: releasing an unreleased lease keeps the invariant exactly
      when the lease is current, or private, or its entry is idle. */
  lemma {:induction false} ReleaseSafeExactly(s: State, l: nat)
    requires Inv(s) && l in s.leases && !s.leases[l].released
    requires s.leases[l].entry.Some? ==> s.leases[l].entry.value in s.entries
    ensures Inv(Release(s, l)) <==>
            s.leases[l].generation == s.generation || s.leases[l].entry.None? ||
              !s.entries[s.leases[l].entry.value].busy
  {
    var lease, t := s.leases[l], Release(s, l);
    if lease.generation == s.generation {
      CurrentReleaseKeeps(s, l);
    } else if lease.entry.None? || !s.entries[lease.entry.value].busy {
      ReleaseStaleKeeps(s, l);
    } else {
      var k := lease.entry.value;
      var m :| Holds(s, m, k);
      assert Holds(t, m, k) && !t.entries[k].busy;
    }
  }
}
