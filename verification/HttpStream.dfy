/** The response buffer of the HTTP driver (src/http.c). */
module HttpStream {
  import opened Bytes

  /** What the transfer does next: bytes arrive, or it fails with or without ending the transfer. With no event left the
      transfer is complete. */
  datatype Event = Arrive(bytes: seq<byte>) | Fail(ended: bool)

  /** The bytes that will still arrive before a failure or the end. */
  function Arriving(wire: seq<Event>): seq<byte> {
    if wire == [] || wire[0].Fail? then [] else wire[0].bytes + Arriving(wire[1..])
  }

  /** The transfer fails before its end. */
  predicate Failing(wire: seq<Event>) {
    exists i :: 0 <= i < |wire| && wire[i].Fail?
  }

  lemma {:induction false} FailingNext(wire: seq<Event>)
    requires wire != []
    ensures Failing(wire) <==> wire[0].Fail? || Failing(wire[1..])
  {
    if i :| 0 <= i < |wire| && wire[i].Fail? {
      if i > 0 {
        assert wire[1..][i - 1].Fail?;
      }
    }
    if i :| 0 <= i < |wire[1..]| && wire[1..][i].Fail? {
      assert wire[i + 1].Fail?;
    }
  }

  const TailSize: nat := 4096

  /** The tail step on the window w: its newest bytes that still fit, and those of c. */
  function NextWindow(w: seq<byte>, c: seq<byte>, size: nat): (r: seq<byte>)
    ensures |r| <= size
  {
    Suffix(w, size - |Suffix(c, size)|) + Suffix(c, size)
  }

  /** The newest bytes of a window are a piece of the buffer it is in. */
  lemma {:induction false} SuffixAt(a: seq<byte>, len: nat, room: nat, keep: nat)
    requires len <= |a| && keep == if len < room then len else room
    ensures Suffix(a[..len], room) == a[len - keep..len]
  {
  }

  /** The tail step in place, of a window of len bytes. */
  method SlideWindow(tail: array<byte>, len: nat, c: seq<byte>) returns (newLen: nat)
    requires len <= tail.Length
    modifies tail
    ensures newLen <= tail.Length && tail[..newLen] == NextWindow(old(tail[..len]), c, tail.Length)
  {
    var n := if |c| < tail.Length then |c| else tail.Length;
    var keep := if len < tail.Length - n then len else tail.Length - n;
    SuffixAt(tail[..], len, tail.Length - n, keep);
    SuffixAt(c, |c|, tail.Length, n);
    assert tail[..][..len] == tail[..len] && tail[..][len - keep..len] == tail[len - keep..len] && c[..|c|] == c;
    newLen := Slide(tail, len, keep, c[|c| - n..]);
  }

  /** Its two moves. */
  method Slide(tail: array<byte>, len: nat, keep: nat, bytes: seq<byte>) returns (newLen: nat)
    requires keep <= len <= tail.Length && keep + |bytes| <= tail.Length
    modifies tail
    ensures newLen == keep + |bytes| && tail[..newLen] == old(tail[len - keep..len]) + bytes
  {
    MoveToFront(tail, len - keep, keep);
    MemCpy(tail, keep, bytes);
    newLen := keep + |bytes|;
  }

  class Stream {
    var buf: array<byte>
    var writePos: nat
    var streaming: bool
    var paused: bool
    var done: bool
    var tail: array<byte>
    var tailLen: nat
    var wire: seq<Event>
    ghost var received: seq<byte>
    ghost var streamed: seq<byte>
    ghost var handed: seq<byte>

    /** Every byte received was handed out or is pending, in order, and the tail is the newest that streamed. */
    ghost predicate Valid()
      reads this, buf, tail
    {
      buf != tail && writePos < buf.Length && tail.Length == TailSize && tailLen <= TailSize &&
      handed + buf[..writePos] == received && tail[..tailLen] == Suffix(streamed, TailSize)
    }

    constructor (streaming: bool, wire: seq<Event>)
      ensures Valid() && fresh(buf) && fresh(tail) && received == [] && handed == [] && streamed == []
      ensures this.streaming == streaming && this.wire == wire && !paused && !done && writePos == 0
    {
      buf, tail := new byte[64 * 1024], new byte[TailSize];
      writePos, tailLen, this.streaming, paused, done, this.wire := 0, 0, streaming, false, false, wire;
      received, streamed, handed := [], [], [];
    }

    /** The growth step of write_callback: at least double, and always enough. */
    method Grow(needed: nat)
      requires Valid()
      modifies this`buf
      ensures Valid() && needed <= buf.Length && (buf == old(buf) || fresh(buf))
      ensures buf.Length >= old(buf.Length) && buf[..writePos] == old(buf[..writePos])
    {
      if needed > buf.Length {
        var size := buf.Length * 2;
        if size < needed {
          size := needed;
        }
        var grown := new byte[size];
        MemCpy(grown, 0, buf[..]);
        assert grown[..writePos] == grown[..buf.Length][..writePos] == buf[..writePos];
        buf := grown;
      }
    }

    /** The tail step of write_callback. */
    method SlideTail(contents: seq<byte>)
      requires Valid()
      modifies this`tailLen, this`streamed, tail
      ensures Valid() && streamed == old(streamed) + contents
    {
      SuffixSlides(streamed, contents, TailSize);
      tailLen := SlideWindow(tail, tailLen, contents);
      streamed := streamed + contents;
    }

    /** Its memcpy: contents after what is pending, and a terminator. */
    method Append(contents: seq<byte>)
      requires Valid() && writePos + |contents| < buf.Length
      modifies this`writePos, this`received, buf
      ensures Valid() && received == old(received) + contents && writePos == old(writePos) + |contents| &&
              buf[writePos] == 0
    {
      ghost var pending := buf[..writePos];
      MemCpy(buf, writePos, contents);
      writePos := writePos + |contents|;
      buf[writePos] := 0;
      received := received + contents;
      assert buf[..writePos] == pending + contents;
      assert handed + (pending + contents) == handed + pending + contents;
    }

    /** write_callback. */
    method WriteCallback(contents: seq<byte>)
      requires Valid()
      modifies this`buf, this`writePos, this`tailLen, this`paused, this`received, this`streamed, buf, tail
      ensures Valid() && (buf == old(buf) || fresh(buf))
      ensures received == old(received) + contents && writePos == old(writePos) + |contents| && buf[writePos] == 0
      ensures streamed == if streaming then old(streamed) + contents else old(streamed)
      ensures paused == (streaming || old(paused))
    {
      Grow(writePos + |contents| + 1);
      Append(contents);
      if streaming {
        SlideTail(contents);
        paused := true;
      }
    }

    /** pump: drive the transfer until a chunk pauses it, or to the end. */
    method Pump() returns (ok: bool)
      requires Valid() && (done ==> wire == [])
      modifies this`buf, this`writePos, this`tailLen, this`paused, this`done, this`wire
      modifies this`received, this`streamed, buf, tail
      ensures Valid() && (buf == old(buf) || fresh(buf)) && old(writePos) <= writePos
      ensures received + (if ok then Arriving(wire) else []) == old(received + Arriving(wire))
      ensures ok && !done ==> |wire| < old(|wire|)
      ensures ok && done ==> wire == []
      ensures if ok then Failing(wire) == old(Failing(wire)) else old(Failing(wire))
      ensures old(received) <= received
    {
      paused := false;
      while true
        invariant Valid() && (buf == old(buf) || fresh(buf)) && old(writePos) <= writePos && !paused
        invariant received + Arriving(wire) == old(received + Arriving(wire)) && |wire| <= old(|wire|)
        invariant old(received) <= received && (done ==> wire == []) && Failing(wire) == old(Failing(wire))
        decreases |wire|
      {
        if wire == [] {
          done := true;
          return true;
        }
        FailingNext(wire);
        var event := wire[0];
        wire := wire[1..];
        match event
        case Fail(ended) =>
          done := done || ended;
          return false;
        case Arrive(bytes) =>
          ghost var was, later := received, Arriving(wire);
          WriteCallback(bytes);
          assert was + (bytes + later) == was + bytes + later;
          if paused {
            return true;
          }
      }
    }

    /** ch_http_stream_next_chunk: everything pending, or more if nothing is; an empty chunk is the clean end. */
    method NextChunk() returns (ok: bool, chunk: seq<byte>)
      requires Valid() && (done ==> wire == [])
      modifies this`buf, this`writePos, this`tailLen, this`paused, this`done, this`wire
      modifies this`received, this`streamed, this`handed, buf, tail
      ensures Valid() && (buf == old(buf) || fresh(buf)) && handed == old(handed) + chunk
      ensures ok ==> (done ==> wire == []) && received + Arriving(wire) == old(received + Arriving(wire))
      ensures ok && chunk == [] ==> handed == old(received + Arriving(wire)) && !old(Failing(wire))
      ensures if ok then Failing(wire) == old(Failing(wire)) else chunk == [] && old(Failing(wire))
    {
      while writePos == 0
        invariant Valid() && (buf == old(buf) || fresh(buf)) && handed == old(handed) && (done ==> wire == [])
        invariant received + Arriving(wire) == old(received + Arriving(wire)) && Failing(wire) == old(Failing(wire))
        decreases !done, |wire|
      {
        if done {
          return true, [];
        }
        var pumped := Pump();
        if !pumped {
          return false, [];
        }
      }
      chunk := buf[..writePos];
      handed := handed + chunk;
      writePos := 0;
      ok := true;
    }
  }

  /** Reading to the end yields the whole body, whatever its chunks, exactly if the transfer does not fail. */
  method ReadBody(s: Stream) returns (ok: bool, body: seq<byte>)
    requires s.Valid() && s.handed == [] && s.received == [] && !s.done
    modifies s, s.buf, s.tail
    ensures ok == !old(Failing(s.wire))
    ensures ok ==> body == old(Arriving(s.wire))
  {
    body := [];
    var chunk: seq<byte>;
    ok, chunk := s.NextChunk();
    while ok && chunk != []
      invariant s.Valid() && (s.buf == old(s.buf) || fresh(s.buf)) && s.tail == old(s.tail)
      invariant s.handed == body + chunk && (ok ==> (s.done ==> s.wire == []))
      invariant ok ==> s.received + Arriving(s.wire) == old(Arriving(s.wire))
      invariant ok && chunk == [] ==> s.handed == old(Arriving(s.wire)) && !old(Failing(s.wire))
      invariant if ok then Failing(s.wire) == old(Failing(s.wire)) else old(Failing(s.wire))
      decreases |old(Arriving(s.wire))| - |body|, ok
    {
      body := body + chunk;
      ok, chunk := s.NextChunk();
    }
  }
}
