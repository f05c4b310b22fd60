/** The native protocol as a stream of packets per query. */
module Packets {
  import opened Values

  /** Lost stands for a transport failure. A data block is usable if its columns validate. */
  datatype Packet = Data(columns: nat, valid: bool, block: nat) | Exception | EndOfStream | Other | Lost

  predicate Terminal(p: Packet) {
    p.Exception? || p.EndOfStream? || p.Lost?
  }

  /** A server's answer: nothing ends it before its last packet, which does. */
  predicate Complete(ps: seq<Packet>) {
    ps != [] && Terminal(ps[|ps| - 1]) && forall i :: 0 <= i < |ps| - 1 ==> !Terminal(ps[i])
  }

  /** What may still follow while the server waits for data. */
  predicate Started(ps: seq<Packet>) {
    forall i :: 0 <= i < |ps| - 1 ==> !Terminal(ps[i])
  }

  /** A block that is handed on: some columns, all valid. */
  predicate Usable(p: Packet) {
    p.Data? && p.columns > 0 && p.valid
  }

  /** What one packet read by a SELECT means for its response and its connection. */
  datatype Outcome = More | Done | Broken

  function After(p: Packet): Outcome {
    match p
    case Lost => Broken
    case Exception => Broken
    case EndOfStream => Done
    case Other => More
    case Data(columns, valid, _) => if columns > 0 && !valid then Broken else More
  }

  /** Some packet fails its query: an exception, a lost transport or a block that does not validate. */
  predicate Spoiled(ps: seq<Packet>) {
    exists i :: 0 <= i < |ps| && Spoils(ps[i])
  }

  predicate Spoils(p: Packet) {
    p.Lost? || p.Exception? || (p.Data? && p.columns > 0 && !p.valid)
  }

  /** What is left to read behind the header block that a server sends when it waits for data, if it comes. */
  function BehindHeader(ps: seq<Packet>): Option<seq<Packet>> {
    if ps == [] || ps[0].Lost? || ps[0].Exception? then None
    else if ps[0].Data? && ps[0].columns > 0 then Some(ps[1..])
    else BehindHeader(ps[1..])
  }

  function Blocks(ps: seq<Packet>): seq<nat> {
    if ps == [] then [] else Blocks(ps[..|ps| - 1]) + if Usable(ps[|ps| - 1]) then [ps[|ps| - 1].block] else []
  }

  /** Reading an answer to its end leaves the connection usable only after END_OF_STREAM. */
  predicate EndsClean(ps: seq<Packet>)
    requires Complete(ps)
  {
    ps[|ps| - 1].EndOfStream?
  }

  /** Read to its end, this answer leaves the connection usable. */
  predicate Clean(ps: seq<Packet>) {
    Complete(ps) && EndsClean(ps)
  }

  // ---------- one connection ----------

  /** A connection's protocol state. reading: a response that has not seen its end. */
  datatype Line = Line(unread: seq<Packet>, broken: bool, reading: bool)

  /** What is left unread on a broken connection does not matter. */
  predicate Alike(x: Line, y: Line) {
    x.broken == y.broken && x.reading == y.reading && (!x.broken ==> x.unread == y.unread)
  }

  function Marked(x: Line, failed: bool): Line {
    x.(broken := x.broken || failed)
  }

  function Queried(x: Line, sent: bool, answer: seq<Packet>): Line {
    if sent then x.(unread := answer, reading := true) else Marked(x, true)
  }

  function Pumped(x: Line): Line {
    var p := if x.unread == [] then Lost else x.unread[0];
    Line(if x.unread == [] then [] else x.unread[1..], x.broken || After(p).Broken?, After(p).More?)
  }

  function PumpedTimes(x: Line, n: nat): Line {
    if n == 0 then x else Pumped(PumpedTimes(x, n - 1))
  }

  /** ch_binary_drain of what is unread and of what still comes. */
  function Drained(x: Line, rest: seq<Packet>): Line {
    Marked(x.(unread := []), !Clean(x.unread + rest))
  }

  /** Closing a response: the server may cut its answer short to rest. */
  function Freed(x: Line, cancelSent: bool, raised: bool, rest: seq<Packet>): Line {
    if !x.reading then x
    else if !cancelSent || raised then Marked(x.(reading := false), true)
    else Drained(Line([], x.broken, false), rest)
  }

  /** How an attempt to begin an INSERT ends: not sent, lost or refused by the server; entered; or given up after the
      server was told to stop, cleanly or not. */
  datatype Opening = Refused | Entered(left: seq<Packet>) | Aborted(clean: bool)

  /** The answer decides, and then whether the writer can be built. */
  function Begun(sent: bool, answer: seq<Packet>, written: bool, abortSent: bool, rest: seq<Packet>): Opening {
    var left := BehindHeader(answer);
    if !sent || left.None? then Refused
    else if written then Entered(left.value)
    else Aborted(abortSent && Clean(left.value + rest))
  }

  function Opened(x: Line, opening: Opening): Line {
    match opening
    case Refused => Marked(x, true)
    case Aborted(clean) => Marked(x, !clean)
    case Entered(left) => x.(unread := left)
  }

  function Finalized(x: Line, sent: bool, rest: seq<Packet>): Line {
    if sent then Drained(x, rest) else Marked(x, true)
  }
}
