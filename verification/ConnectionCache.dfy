/** src/connection.c as it runs: global state changed in place, with loops over the hash table and the private list.
    Each method makes the step of the same name in module Leases. */
module ConnectionCache {
  import opened Values
  import opened Lists
  import opened Leases

  class Backend {
    var entries: map<nat, Entry>
    var privates: seq<nat>
    var generation: nat
    var leases: map<nat, Lease>
    var open: set<nat>
    var broken: set<nat>
    ghost var madeFor: map<nat, User>
    ghost var stale: set<nat>
    var next: nat

    ghost function View(): State
      reads this
    {
      State(entries, privates, generation, leases, open, broken, madeFor, stale, next)
    }

    constructor ()
      ensures View() == Start()
    {
      entries, privates, generation, leases := map[], [], 0, map[];
      open, broken, madeFor, stale, next := {}, {}, map[], {}, 0;
    }

    /** Closing asks for an open connection, so no connection is ever closed twice. */
    method Disconnect(c: nat)
      requires c in open
      modifies this`open
      ensures open == old(open) - {c}
    {
      open := open - {c};
    }

    /** get_connection_entry. */
    method GetConnectionEntry(u: User, connects: bool) returns (ok: bool)
      requires MustDrop(View(), FindEntry(View(), u.umid)) ==> FindEntry(View(), u.umid).conn.value in open
      modifies this`entries, this`open, this`madeFor, this`next
      ensures (View(), ok) == GetEntry(old(View()), u, connects)
    {
      var e := Entry(None, false, false, 0, 0);
      if u.umid in entries {
        e := entries[u.umid];
      }
      assert e == FindEntry(old(View()), u.umid);
      if e.conn.Some? && e.invalidated && !e.busy {
        Disconnect(e.conn.value);
        e := e.(conn := None);
      }
      if e.conn.Some? && !e.busy && e.conn.value in broken {
        Disconnect(e.conn.value);
        e := e.(conn := None);
      }
      entries := entries[u.umid := e];
      assert View() == DropIdle(old(View()), u.umid);
      ok := true;
      if e.conn.None? {
        ok := FillEntry(u, connects);
      }
    }

    /** Its second half: reset the empty entry, then try to connect. */
    method FillEntry(u: User, connects: bool) returns (ok: bool)
      requires u.umid in entries
      modifies this`entries, this`open, this`madeFor, this`next
      ensures View() == Fill(old(View()), u, connects) && ok == connects
    {
      var e := entries[u.umid].(invalidated := false, serverHash := u.serverHash, mappingHash := u.mappingHash);
      ok := connects;
      if connects {
        e := e.(conn := Some(next));
        madeFor := madeFor[next := u];
        open, next := open + {next}, next + 1;
      }
      entries := entries[u.umid := e];
    }

    /** chfdw_get_scan_connection. */
    method GetScanConnection(u: User, l: nat, connects: bool, privateConnects: bool) returns (ok: bool)
      requires MustDrop(View(), FindEntry(View(), u.umid)) ==> FindEntry(View(), u.umid).conn.value in open
      modifies this
      ensures (View(), ok) == GetLease(old(View()), u, l, connects, privateConnects)
    {
      ok := GetConnectionEntry(u, connects);
      if !ok {
        return;
      }
      var e := entries[u.umid];
      if !e.busy {
        entries := entries[u.umid := e.(busy := true)];
        leases := leases[l := Lease(Some(u.umid), e.conn.value, generation, false)];
      } else if privateConnects {
        madeFor := madeFor[next := u];
        privates, open := privates + [next], open + {next};
        leases := leases[l := Lease(None, next, generation, false)];
        next := next + 1;
      } else {
        ok := false;
      }
    }

    /** The search of the private list: unlink and close the first cell that holds c. */
    method ClosePrivate(c: nat)
      requires c in privates ==> c in open
      modifies this`privates, this`open
      ensures privates == Remove(old(privates), c)
      ensures open == if c in old(privates) then old(open) - {c} else old(open)
    {
      var i := 0;
      while i < |privates|
        invariant 0 <= i <= |privates| && privates == old(privates) && open == old(open)
        invariant forall k :: 0 <= k < i ==> privates[k] != c
      {
        if privates[i] == c {
          RemoveAt(privates, c, i);
          privates := Cut(privates, i);
          Disconnect(c);
          return;
        }
        i := i + 1;
      }
    }

    /** chfdw_release_scan_connection. */
    method ReleaseScanConnection(l: nat)
      requires l in leases && (leases[l].entry.Some? ==> leases[l].entry.value in entries)
      requires forall c :: c in privates ==> c in open
      modifies this
      ensures View() == Release(old(View()), l)
    {
      var lease := leases[l];
      if lease.released {
        return;
      }
      leases := leases[l := lease.(released := true)];
      if lease.entry.Some? {
        entries := entries[lease.entry.value := entries[lease.entry.value].(busy := false)];
      } else {
        ClosePrivate(lease.conn);
      }
    }

    /** release_lease. */
    method ReleaseLease(l: nat)
      requires l in leases && (leases[l].entry.Some? ==> leases[l].entry.value in entries)
      requires forall c :: c in privates ==> c in open
      modifies this
      ensures View() == Callback(old(View()), l)
    {
      if leases[l].generation == generation {
        ReleaseScanConnection(l);
      }
    }

    /** chfdw_inval_callback. */
    method InvalCallback(id: CacheId, hash: nat)
      modifies this`entries, this`stale
      ensures View() == Invalidate(old(View()), id, hash)
    {
      var todo := entries.Keys;
      while todo != {}
        invariant todo <= entries.Keys == old(entries).Keys
        invariant forall k :: k in todo ==> entries[k] == old(entries)[k]
        invariant forall k :: k in entries && k !in todo ==>
                    entries[k] == if Hit(old(entries)[k], id, hash) then old(entries)[k].(invalidated := true)
                      else old(entries)[k]
        decreases todo
      {
        var k :| k in todo;
        todo := todo - {k};
        var e := entries[k];
        if e.conn.None? {
          continue;
        }
        if hash == 0 || (id == ForeignServer && e.serverHash == hash) || (id == UserMapping && e.mappingHash == hash) {
          entries := entries[k := e.(invalidated := true)];
        }
      }
      stale := Invalidate(old(View()), id, hash).stale;
      assert entries == Invalidate(old(View()), id, hash).entries;
    }

    /** The first loop at transaction end. */
    method ClosePrivates()
      requires forall c :: c in privates ==> c in open
      requires forall i, j :: 0 <= i < j < |privates| ==> privates[i] != privates[j]
      modifies this`privates, this`open
      ensures privates == [] && open == old(open) - set c | c in old(privates)
    {
      var i := 0;
      while i < |privates|
        invariant 0 <= i <= |privates| && privates == old(privates)
        invariant open == old(open) - set c | c in privates[..i]
      {
        assert privates[i] !in privates[..i];
        Disconnect(privates[i]);
        assert privates[..i + 1] == privates[..i] + [privates[i]];
        i := i + 1;
      }
      assert privates[..i] == privates;
      privates := [];
    }

    /** Its body for one entry. */
    method EndEntry(k: nat)
      requires k in entries && (Doomed(entries[k]) ==> entries[k].conn.value in open)
      modifies this`entries, this`open
      ensures entries == old(entries)[k := Ended(old(entries)[k])]
      ensures open == old(open) - if Doomed(old(entries)[k]) then {old(entries)[k].conn.value} else {}
    {
      var e := entries[k].(busy := false);
      if e.conn.Some? && e.invalidated {
        Disconnect(e.conn.value);
        e := e.(conn := None);
      }
      entries := entries[k := e];
    }

    /** The second loop: clear busy, close what is invalidated. */
    method CloseInvalidated()
      requires forall k :: k in entries && Doomed(entries[k]) ==> entries[k].conn.value in open
      requires Apart(entries)
      modifies this`entries, this`open
      ensures entries == map k | k in old(entries) :: Ended(old(entries)[k])
      ensures open == old(open) - DoomedIn(old(entries), old(entries).Keys)
    {
      ghost var before := entries;
      var todo := entries.Keys;
      while todo != {}
        invariant todo <= entries.Keys == before.Keys
        invariant forall k :: k in todo ==> entries[k] == before[k]
        invariant forall k :: k in entries && k !in todo ==> entries[k] == Ended(before[k])
        invariant open == old(open) - DoomedIn(before, before.Keys - todo)
        decreases todo
      {
        var k :| k in todo;
        DoomedStep(before, before.Keys - todo, k);
        todo := todo - {k};
        assert before.Keys - todo == (before.Keys - (todo + {k})) + {k};
        EndEntry(k);
      }
      assert before.Keys - todo == before.Keys;
      assert entries == map k | k in before :: Ended(before[k]);
    }

    /** chfdw_xact_callback at commit or abort. */
    method XactCallback()
      requires Owned(View())
      modifies this
      ensures View() == XactEnd(old(View()))
    {
      ghost var before := View();
      forall k | k in entries && Doomed(entries[k]) ensures entries[k].conn.value in open &&
        entries[k].conn.value !in privates {
        assert Cached(before, k, entries[k].conn.value);
      }
      forall k, j | k in entries && j in entries && Doomed(entries[k]) && entries[k].conn == entries[j].conn
        ensures k == j
      {
        assert Cached(before, k, entries[k].conn.value) && Cached(before, j, entries[k].conn.value);
      }
      ClosePrivates();
      generation := generation + 1;
      CloseInvalidated();
      assert DoomedIn(before.entries, before.entries.Keys) == DoomedConns(before);
      assert entries == XactEnd(before).entries;
    }

    /** Any enabled step, on the state in place: every state that the backend reaches satisfies the invariant, so what
        module Leases proves over runs holds of this code. */
    method Perform(step: Step)
      requires Inv(View()) && Enabled(View(), step)
      modifies this
      ensures Inv(View()) && View() == Apply(old(View()), step)
    {
      StepKeeps(View(), step);
      Callable(View());
      match step {
        case Get(u, l, connects, privateConnects) =>
          var _ := GetScanConnection(u, l, connects, privateConnects);
        case Explicit(l) => ReleaseScanConnection(l);
        case Reset(l) => ReleaseLease(l);
        case Inval(id, hash) => InvalCallback(id, hash);
        case Version(u, connects) =>
          var _ := GetConnectionEntry(u, connects);
        case Fail(c) => broken := broken + {c};
        case End => XactCallback();
      }
    }
  }

  /** What transaction end leaves of an entry. */
  function Ended(e: Entry): Entry {
    e.(busy := false, conn := if Doomed(e) then None else e.conn)
  }

  /** No connection to be closed belongs to two entries. */
  ghost predicate Apart(entries: map<nat, Entry>) {
    forall i, j :: i in entries && j in entries && Doomed(entries[i]) && entries[i].conn == entries[j].conn ==> i == j
  }

  /** The invalidated connections of the entries ks. */
  ghost function DoomedIn(entries: map<nat, Entry>, ks: set<nat>): set<nat> {
    set k | k in ks && k in entries && Doomed(entries[k]) :: entries[k].conn.value
  }

  lemma {:induction false} DoomedStep(entries: map<nat, Entry>, ks: set<nat>, k: nat)
    requires k in entries && k !in ks
    requires Apart(entries)
    ensures DoomedIn(entries, ks + {k}) ==
            DoomedIn(entries, ks) + if Doomed(entries[k]) then {entries[k].conn.value} else {}
    ensures Doomed(entries[k]) ==> entries[k].conn.value !in DoomedIn(entries, ks)
  {
  }
}
