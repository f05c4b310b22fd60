/** The binary driver's reads and writes on one connection (src/binary/select.c, insert.c, binary.c). */
module BinaryDriver {
  import opened Values
  import opened Lists
  import opened Packets

  /** unread holds what the server has sent for past requests and the driver has not read. */
  class Connection {
    var broken: bool
    var unread: seq<Packet>
    var inserts: InsertHandle?
    ghost var pending: seq<InsertHandle>

    constructor ()
      ensures !broken && unread == [] && pending == [] && Linked()
    {
      broken, unread, inserts, pending := false, [], null, [];
    }

    /** Its protocol state, given whether a response is being read. */
    ghost function State(reading: bool): Line
      reads this
    {
      Line(unread, broken, reading)
    }

    /** The list that starts at inserts is exactly `pending`, each handle pointing back at this connection. */
    ghost predicate Linked()
      reads this, pending
    {
      inserts == At(pending, 0) &&
      Distinct(pending) &&
      forall i {:trigger Link(pending, i)} :: 0 <= i < |pending| ==> Link(pending, i) && pending[i].conn == this
    }

    /** chc_client_recv_packet: a failure if nothing comes or the transport is lost. */
    method Receive() returns (p: Packet)
      modifies this`unread
      ensures old(unread) == [] ==> p == Lost && unread == []
      ensures old(unread) != [] ==> p == old(unread)[0] && unread == old(unread)[1..]
    {
      if unread == [] {
        p := Lost;
      } else {
        p := unread[0];
        unread := unread[1..];
      }
    }

    /** ch_binary_drain: reads on to the end of the answer. */
    method Drain() returns (failed: bool)
      requires Complete(unread)
      modifies this`unread, this`broken
      ensures unread == []
      ensures failed == !EndsClean(old(unread)) && broken == (old(broken) || failed)
    {
      while true
        invariant Complete(unread) && unread[|unread| - 1] == old(unread)[|old(unread)| - 1] && broken == old(broken)
        decreases |unread|
      {
        var p := Receive();
        match p {
          case Lost =>
            broken := true;
            return true;
          case Exception =>
            broken := true;
            return true;
          case EndOfStream =>
            return false;
          case _ =>
        }
      }
    }

    /** ch_binary_detach_inserts, when the connection closes. */
    method DetachInserts()
      requires Linked()
      modifies this`inserts, this`pending, Handles(pending)`conn
      ensures inserts == null && pending == [] && Linked()
      ensures forall h :: h in old(pending) ==> h.conn == null
    {
      var h := inserts;
      ghost var i := 0;
      while h != null
        invariant 0 <= i <= |pending| && h == At(pending, i) && pending == old(pending)
        invariant forall k {:trigger Link(pending, k)} :: 0 <= k < |pending| ==> Link(pending, k)
        invariant forall k :: 0 <= k < i ==> pending[k].conn == null
        decreases |pending| - i
      {
        assert h == pending[i] && Link(pending, i);
        h.conn := null;
        h := h.next;
        i := i + 1;
      }
      inserts, pending := null, [];
    }
  }

  ghost function Handles(hs: seq<InsertHandle>): (r: set<InsertHandle>)
    ensures forall i :: 0 <= i < |hs| ==> hs[i] in r
  {
    set h | h in hs
  }

  ghost function CutHandle(hs: seq<InsertHandle>, k: nat): (r: seq<InsertHandle>)
    requires k < |hs|
    ensures |r| == |hs| - 1
    ensures forall i :: 0 <= i < |r| ==> r[i] == if i < k then hs[i] else hs[i + 1]
    ensures hs[k] !in hs[..k] ==> r == Remove(hs, hs[k])
  {
    if hs[k] !in hs[..k] then RemoveAt(hs, hs[k], k); Cut(hs, k) else Cut(hs, k)
  }

  ghost predicate Distinct(hs: seq<InsertHandle>) {
    forall i, j {:trigger Differ(hs, i, j)} :: 0 <= i < j < |hs| ==> Differ(hs, i, j)
  }

  ghost predicate Differ(hs: seq<InsertHandle>, i: nat, j: nat)
    requires i < |hs| && j < |hs|
  {
    hs[i] != hs[j]
  }

  lemma {:induction false} CutDistinct(hs: seq<InsertHandle>, k: nat)
    requires k < |hs| && Distinct(hs)
    ensures Distinct(CutHandle(hs, k))
  {
    forall i, j | 0 <= i < j < |hs| - 1 ensures Differ(CutHandle(hs, k), i, j) {
      assert Differ(hs, if i < k then i else i + 1, if j < k then j else j + 1);
    }
  }

  ghost predicate Link(hs: seq<InsertHandle>, i: nat)
    requires i < |hs|
    reads hs[i]
  {
    hs[i].next == At(hs, i + 1)
  }

  ghost function At(hs: seq<InsertHandle>, i: nat): InsertHandle? {
    if i < |hs| then hs[i] else null
  }

  // ---------- SELECT ----------

  /** staged is the next block to hand out; taken counts the packets read, after each of which the cancel check answers
      polls. The ghost fields record whether the query was sent, the whole answer and the blocks given to the caller. */
  class Response {
    const conn: Connection
    const polls: nat -> bool
    var error: bool
    var eos: bool
    var staged: seq<nat>
    var taken: nat
    ghost var answer: seq<Packet>
    ghost var handed: seq<nat>
    ghost var sent: bool

    /** The query was canceled before its n-th packet. */
    ghost predicate Canceled(n: nat) {
      exists i :: 0 <= i < n && polls(i)
    }

    /** Until the end is seen the rest of the answer is unread; after it, nothing is, unless the connection is broken.
        Every usable block read was handed out or is staged, in order. The error is set exactly if the query was not
        sent or was canceled, or a packet that was read fails it. */
    ghost predicate Valid()
      reads this, conn
    {
      |staged| <= 1 && taken <= |answer| && handed + staged == Blocks(answer[..taken]) && (sent ==> Complete(answer)) &&
      (error <==> !sent || Canceled(taken) || Spoiled(answer[..taken])) &&
      (eos ==> !sent || Spoiled(answer[..taken]) || taken == |answer|) &&
      (!eos ==> Complete(answer) && taken < |answer| && conn.unread == answer[taken..] && !conn.broken) &&
      (eos && !conn.broken ==> conn.unread == [] && taken == |answer|)
    }

    constructor (conn: Connection, polls: nat -> bool)
      ensures this.conn == conn && this.polls == polls && sent
      ensures !error && !eos && staged == [] && answer == [] && taken == 0 && handed == []
    {
      this.conn, this.polls, sent := conn, polls, true;
      error, eos, staged, answer, taken, handed := false, false, [], [], 0, [];
    }

    /** pump_one: read one packet and fold it in. */
    method PumpOne()
      requires Valid() && !eos && staged == []
      modifies this`error, this`eos, this`staged, this`taken, conn`unread, conn`broken
      ensures taken == old(taken) + 1 && conn.broken == Spoils(old(conn.unread)[0])
      ensures Valid() && conn.State(!eos) == Pumped(old(conn.State(true)))
      ensures |conn.unread| < old(|conn.unread|)
      ensures eos && !conn.broken ==> answer[|answer| - 1].EndOfStream?
    {
      var p := conn.Receive();
      assert answer[..taken + 1][..taken] == answer[..taken];
      assert answer[taken..][1..] == answer[taken + 1..];
      SpoiledNext(answer, taken);
      taken := taken + 1;
      if p == Lost {
        error, eos, conn.broken := true, true, true;
        return;
      }
      if polls(taken - 1) {
        error := true;
      }
      match p {
        case Data(columns, valid, block) =>
          if columns > 0 && staged == [] {
            if valid {
              staged := [block];
            } else {
              error, eos, conn.broken := true, true, true;
            }
          }
        case Exception =>
          error, eos, conn.broken := true, true, true;
        case EndOfStream =>
          eos := true;
        case Other =>
      }
    }

    /** The loop that both the query and the fetch run: up to a block, an error or the end. */
    method PumpUntilBlock() returns (ghost pumps: nat)
      requires Valid()
      modifies this`error, this`eos, this`staged, this`taken, conn`unread, conn`broken
      ensures Valid() && (staged != [] || eos || error)
      ensures old(taken) <= taken && (staged == old(staged) || old(taken) < taken)
      ensures conn.State(!eos) == PumpedTimes(old(conn.State(!eos)), pumps)
    {
      pumps := 0;
      while staged == [] && !eos && !error
        invariant Valid() && conn.State(!eos) == PumpedTimes(old(conn.State(!eos)), pumps)
        invariant old(taken) <= taken && (staged == old(staged) || old(taken) < taken)
        decreases !eos, |conn.unread|
      {
        PumpOne();
        pumps := pumps + 1;
      }
    }

    /** ch_binary_response_fetch_next_block: the next block in order. None without an error means that the answer ended
        cleanly and every block was handed out. */
    method FetchNextBlock() returns (block: seq<nat>, ghost pumps: nat)
      requires Valid()
      modifies this`error, this`eos, this`staged, this`taken, this`handed, conn`unread, conn`broken
      ensures Valid() && staged == [] && handed == old(handed) + block
      ensures conn.State(!eos) == PumpedTimes(old(conn.State(!eos)), pumps)
      ensures block == [] ==> eos || error
      ensures block == [] && !error ==> Clean(answer) && handed == Blocks(answer)
      ensures old(taken) <= taken && (block == old(staged) || old(taken) < taken)
    {
      pumps := PumpUntilBlock();
      block, staged := staged, [];
      handed := handed + block;
      assert answer[..|answer|] == answer;
      if block == [] && !error {
        assert !Spoiled(answer) && !Spoils(answer[|answer| - 1]);
      }
    }

    /** The block source that callers read: blocks until there is none, then the error. The rows are complete exactly if
        the query was sent and not canceled and no packet of the whole answer fails it. */
    method ReadBlocks() returns (ok: bool, blocks: seq<nat>)
      requires Valid() && handed == []
      modifies this`error, this`eos, this`staged, this`taken, this`handed, conn`unread, conn`broken
      ensures Valid() && handed == blocks
      ensures ok == (sent && !Canceled(|answer|) && !Spoiled(answer))
      ensures ok ==> Clean(answer) && blocks == Blocks(answer)
    {
      blocks := [];
      while true
        invariant Valid() && handed == blocks
        decreases |answer| - taken + |staged|
      {
        var block, _ := FetchNextBlock();
        if block == [] {
          ok := !error;
          assert answer[..|answer|] == answer;
          return;
        }
        blocks := blocks + block;
      }
    }

    /** ch_binary_response_free: an unfinished answer is canceled and drained, so that the connection is reusable, or
        else marked broken. raised models an error inside the drain, which is swallowed. */
    method Free(cancelSent: bool, rest: seq<Packet>, raised: bool)
      requires Valid() && (eos || Complete(rest))
      modifies this`eos, conn`unread, conn`broken
      ensures eos && (!conn.broken ==> conn.unread == [])
      ensures conn.broken == (old(conn.broken) || (!old(eos) && (!cancelSent || raised || !Clean(rest))))
      ensures Alike(conn.State(false), Freed(old(conn.State(!eos)), cancelSent, raised, rest))
    {
      if eos {
        return;
      }
      eos := true;
      if !cancelSent {
        conn.broken := true;
        return;
      }
      conn.unread := rest;  // the server may cut its answer short
      if raised {
        conn.broken := true;
        return;
      }
      assert [] + rest == rest;
      var _ := conn.Drain();
    }
  }

  /** ch_binary_simple_query on an idle connection, up to the first block. */
  method SimpleQuery(conn: Connection, sent: bool, answer: seq<Packet>, polls: nat -> bool)
    returns (resp: Response, ghost pumps: nat)
    requires !conn.broken && conn.unread == [] && Complete(answer)
    modifies conn`unread, conn`broken
    ensures fresh(resp) && resp.conn == conn && resp.Valid() && resp.handed == []
    ensures !sent ==> conn.broken && resp.eos && resp.error
    ensures resp.polls == polls && resp.sent == sent && (sent ==> resp.answer == answer)
    ensures conn.State(!resp.eos) == PumpedTimes(Queried(old(conn.State(false)), sent, answer), pumps)
    ensures resp.staged != [] || resp.eos || resp.error
  {
    resp := new Response(conn, polls);
    pumps := 0;
    if !sent {
      conn.broken := true;
      resp.error, resp.eos, resp.sent := true, true, false;
      return;
    }
    conn.unread := answer;
    resp.answer := answer;
    assert answer[0..] == answer && answer[..0] == [];
    pumps := resp.PumpUntilBlock();
  }

  lemma {:induction false} SpoiledNext(ps: seq<Packet>, n: nat)
    requires n < |ps|
    ensures Spoiled(ps[..n + 1]) <==> Spoiled(ps[..n]) || Spoils(ps[n])
  {
    if i :| 0 <= i < n && Spoils(ps[..n][i]) {
      assert ps[..n + 1][i] == ps[..n][i];
    }
    assert ps[..n + 1][n] == ps[n];
  }

  // ---------- INSERT ----------

  class InsertHandle {
    var conn: Connection?
    var finalized: bool
    var next: InsertHandle?

    constructor (conn: Connection)
      ensures this.conn == conn && !finalized && next == null
    {
      this.conn, finalized, next := conn, false, null;
    }

    /** ch_binary_flush_block: fails on a detached handle without touching any connection. */
    method FlushBlock(sent: bool) returns (ok: bool)
      modifies conn
      ensures ok == (conn != null && sent) && (conn != null && !sent ==> conn.broken)
      ensures conn != null ==> conn.State(false) == Marked(old(conn.State(false)), !sent)
      ensures conn != null ==> conn.inserts == old(conn.inserts) && conn.pending == old(conn.pending)
    {
      if conn == null {
        return false;
      }
      if !sent {
        conn.broken := true;
        return false;
      }
      return true;
    }

    /** ch_binary_finalize_insert: the last empty block, then the rest of the answer. */
    method Finalize(sent: bool, rest: seq<Packet>) returns (ok: bool)
      requires conn != null && !finalized && sent ==> Complete(conn.unread + rest)
      modifies this`finalized, conn
      ensures old(conn) == null && !old(finalized) ==> !ok && !finalized
      ensures old(finalized) ==> ok && finalized
      ensures conn != null ==> finalized
      ensures conn != null && !old(finalized) ==> ok == (sent && Clean(old(conn.unread) + rest))
      ensures conn != null && !old(finalized) ==> conn.broken == (old(conn.broken) || !ok)
      ensures conn != null && !old(finalized) ==> conn.State(false) == Finalized(old(conn.State(false)), sent, rest)
      ensures conn != null && old(finalized) ==> conn.unread == old(conn.unread) && conn.broken == old(conn.broken)
      ensures conn != null ==> conn.inserts == old(conn.inserts) && conn.pending == old(conn.pending)
    {
      if finalized {
        return true;
      }
      if conn == null {
        return false;
      }
      finalized := true;
      if !sent {
        conn.broken := true;
        return false;
      }
      conn.unread := conn.unread + rest;
      var failed := conn.Drain();
      return !failed;
    }
  }

  /** ch_binary_begin_insert on an idle connection: waits for the header block. written is false if building the writer
      raises, after which the server is told to stop. Returns null where the original raises: unless the query was sent,
      the header came and the writer was built. */
  method BeginInsert(conn: Connection, sent: bool, answer: seq<Packet>, written: bool, abortSent: bool,
                     rest: seq<Packet>)
    returns (h: InsertHandle?, ghost opening: Opening)
    requires conn.Linked() && !conn.broken && conn.unread == [] && Started(answer)
    requires BehindHeader(answer).Some? ==> Complete(BehindHeader(answer).value + rest)
    modifies conn
    ensures conn.Linked()
    ensures opening == Begun(sent, answer, written, abortSent, rest) && opening.Entered? == (h != null)
    ensures Alike(conn.State(false), Opened(old(conn.State(false)), opening))
    ensures h == null && conn.broken <==> !sent || BehindHeader(answer).None? ||
                                          (!written && !(abortSent && Clean(BehindHeader(answer).value + rest)))
    ensures h == null ==> conn.pending == old(conn.pending) && (!conn.broken ==> conn.unread == [])
    ensures h != null ==>
              fresh(h) && conn.pending == [h] + old(conn.pending) && h.conn == conn && !h.finalized && !conn.broken
    ensures h != null ==> Complete(conn.unread + rest)
  {
    opening := Refused;
    if !sent {
      conn.broken := true;
      return null, opening;
    }
    conn.unread := answer;
    var header := ReceiveInitialBlock(conn, answer);
    if !header {
      return null, opening;
    }
    if !written {
      if !abortSent {
        conn.broken := true;
        return null, Aborted(false);
      }
      conn.unread := conn.unread + rest;
      var failed := conn.Drain();
      return null, Aborted(!failed);
    }
    h := new InsertHandle(conn);
    opening := Entered(conn.unread);
    Push(conn, h);
  }

  method Push(conn: Connection, h: InsertHandle)
    requires conn.Linked() && h !in conn.pending && h.conn == conn
    modifies conn`inserts, conn`pending, h`next
    ensures conn.Linked() && conn.pending == [h] + old(conn.pending)
  {
    h.next := conn.inserts;
    conn.inserts := h;
    ghost var hs := conn.pending;
    conn.pending := [h] + hs;
    forall i, j | 0 <= i < j <= |hs| ensures Differ(conn.pending, i, j) {
      assert i > 0 ==> Differ(hs, i - 1, j - 1);
    }
    forall i | 0 <= i <= |hs|
      ensures Link(conn.pending, i) && conn.pending[i].conn == conn
    {
      if i > 0 {
        assert old(Link(hs, i - 1));
      }
    }
  }

  /** recv_initial_block. */
  method ReceiveInitialBlock(conn: Connection, ghost answer: seq<Packet>) returns (header: bool)
    requires conn.unread == answer && !conn.broken
    modifies conn`unread, conn`broken
    ensures header == !conn.broken == BehindHeader(answer).Some?
    ensures header ==> conn.unread == BehindHeader(answer).value
  {
    ghost var i := 0;
    while true
      invariant 0 <= i <= |answer| && conn.unread == answer[i..] && !conn.broken
      invariant BehindHeader(answer) == BehindHeader(answer[i..])
      decreases |answer| - i
    {
      var p := conn.Receive();
      if p == Lost || p == Exception {
        conn.broken := true;
        return false;
      }
      assert answer[i..][1..] == answer[i + 1..];
      if p.Data? && p.columns > 0 {
        return true;
      }
      i := i + 1;
    }
  }

  /** ch_binary_release_insert: unlink the handle; an INSERT that was not finalized leaves the connection broken. */
  method ReleaseInsert(h: InsertHandle)
    requires h.conn != null ==> h.conn.Linked() && h in h.conn.pending
    modifies h.conn, if h.conn == null then {} else Handles(h.conn.pending)
    ensures h.conn == old(h.conn) && h.finalized == old(h.finalized)
    ensures h.conn != null ==> h.conn.Linked() && h.conn.pending == Remove(old(h.conn.pending), h)
    ensures h.conn != null ==> h.conn.broken == (old(h.conn.broken) || !h.finalized)
    ensures h.conn != null ==> h.conn.State(false) == Marked(old(h.conn.State(false)), !h.finalized)
  {
    var conn := h.conn;
    if conn == null {
      return;
    }
    if !h.finalized {
      conn.broken := true;
    }
    Unlink(conn, h);
  }

  /** The walk over the links to the one that points at h: prev is its owner, null for the head of the list. */
  method Before(conn: Connection, h: InsertHandle) returns (prev: InsertHandle?, ghost k: nat)
    requires conn.Linked() && h in conn.pending
    ensures k < |conn.pending| && conn.pending[k] == h && h !in conn.pending[..k]
    ensures prev == if k == 0 then null else conn.pending[k - 1]
  {
    prev, k := null, 0;
    var open := conn.inserts;
    while open != h
      invariant 0 <= k < |conn.pending| && open == conn.pending[k] && h !in conn.pending[..k]
      invariant prev == if k == 0 then null else conn.pending[k - 1]
      decreases |conn.pending| - k
    {
      assert h in conn.pending[k + 1..] && Link(conn.pending, k);
      prev, open := open, open.next;
      k := k + 1;
    }
  }

  /** Rewrite the link that points at h to what follows it; the other links stay. */
  method Relink(conn: Connection, prev: InsertHandle?, h: InsertHandle, ghost k: nat)
    requires conn.Linked() && k < |conn.pending| && conn.pending[k] == h
    requires prev == if k == 0 then null else conn.pending[k - 1]
    modifies conn`inserts, Handles(conn.pending)`next
    ensures forall i: nat {:trigger Link(conn.pending, i)} :: i < |conn.pending| && i + 1 != k ==>
              Link(conn.pending, i) && conn.pending[i].conn == conn
    ensures k > 0 ==> conn.pending[k - 1].next == At(conn.pending, k + 1) && conn.pending[k - 1].conn == conn
    ensures conn.inserts == if k > 0 then old(conn.inserts) else At(conn.pending, 1)
  {
    ghost var hs := conn.pending;
    assert Link(hs, k);
    if k > 0 {
      assert Link(hs, k - 1);
    }
    if prev == null {
      conn.inserts := h.next;
    } else {
      prev.next := h.next;
    }
    forall i: nat | i < |hs| && i + 1 != k ensures Link(hs, i) && hs[i].conn == conn {
      assert old(Link(hs, i));
      if i + 1 < k {
        assert Differ(hs, i, k - 1);
      } else if k > 0 {
        assert Differ(hs, k - 1, i);
      }
    }
  }

  /** Take h off the list. */
  method Unlink(conn: Connection, h: InsertHandle)
    requires conn.Linked() && h in conn.pending
    modifies conn`inserts, conn`pending, Handles(conn.pending)`next
    ensures conn.Linked() && conn.pending == Remove(old(conn.pending), h)
  {
    var prev, k := Before(conn, h);
    Relink(conn, prev, h, k);
    ghost var hs := conn.pending;
    CutDistinct(hs, k);
    CutLinked(conn, hs, k);
    conn.pending := CutHandle(hs, k);
  }

  lemma {:induction false} CutLinked(conn: Connection, hs: seq<InsertHandle>, k: nat)
    requires k < |hs| && (forall i: nat {:trigger Link(hs, i)} :: i < |hs| && i + 1 != k ==>
               Link(hs, i) && hs[i].conn == conn)
    requires k > 0 ==> hs[k - 1].next == At(hs, k + 1) && hs[k - 1].conn == conn
    ensures forall i: nat {:trigger Link(CutHandle(hs, k), i)} :: i < |hs| - 1 ==>
              Link(CutHandle(hs, k), i) && CutHandle(hs, k)[i].conn == conn
  {
    forall i: nat | i < |hs| - 1 ensures Link(CutHandle(hs, k), i) && CutHandle(hs, k)[i].conn == conn {
      var j: nat := if i < k then i else i + 1;
      assert j + 1 != k ==> Link(hs, j);
    }
  }
}
