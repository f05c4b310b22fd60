/** Strings as ClickHouse literals and as binary-protocol parameters (src/pglink.c, src/binary/select.c). */
module Escaping {
  import opened Bytes

  const Quote: byte := 39
  const Backslash: byte := 92

  // ---------- ClickHouse's reader ----------

  /** The byte that a backslash and this letter stand for; any other byte stands for itself. */
  function Meaning(c: byte): byte {
    match c
    case 98 => 8     // b
    case 102 => 12   // f
    case 114 => 13   // r
    case 110 => 10   // n
    case 116 => 9    // t
    case 48 => 0     // 0
    case 97 => 7     // a
    case 118 => 11   // v
    case _ => c
  }

  function Digit(c: byte): byte {
    if 48 <= c <= 57 then c - 48 else if 97 <= c <= 102 then c - 87 else if 65 <= c <= 70 then c - 55 else 0
  }

  /** How many bytes the item at the head of s takes, and what it stands for. \xHH is a byte in hexadecimal. */
  function Span(s: seq<byte>): (n: nat)
    requires s != []
    ensures 1 <= n <= |s|
  {
    if s[0] != Backslash || |s| == 1 then 1 else if s[1] == 120 && |s| >= 4 then 4 else 2
  }

  function Denotes(s: seq<byte>): byte
    requires s != []
  {
    if Span(s) == 1 then s[0]
    else if Span(s) == 4 then ((Digit(s[2]) as int * 16 + Digit(s[3]) as int) % 256) as byte
    else Meaning(s[1])
  }

  function Unescape(s: seq<byte>): seq<byte> {
    if s == [] then [] else [Denotes(s)] + Unescape(s[Span(s)..])
  }

  /** What a quoted string says, and what stands after its closing quote. Where doubled is set, two quotes are one. */
  datatype Read = Read(value: seq<byte>, rest: seq<byte>) | Unclosed

  function Inside(s: seq<byte>, doubled: bool): Read {
    if s == [] then Unclosed
    else if s[0] == Quote && doubled && |s| > 1 && s[1] == Quote then Before(Quote, Inside(s[2..], doubled))
    else if s[0] == Quote then Read([], s[1..])
    else Before(Denotes(s), Inside(s[Span(s)..], doubled))
  }

  function Before(c: byte, r: Read): Read {
    match r
    case Unclosed => Unclosed
    case Read(value, rest) => Read([c] + value, rest)
  }

  function ReadQuoted(s: seq<byte>, doubled: bool): Read {
    if s != [] && s[0] == Quote then Inside(s[1..], doubled) else Unclosed
  }

  // ---------- writers, one byte at a time ----------

  /** ch_escape_string. */
  function EscapeByte(c: byte): (r: seq<byte>)
    ensures 1 <= |r| <= 2
  {
    match c
    case 39 => [Backslash, c]
    case 92 => [c, c]
    case 8 => [Backslash, 98]
    case 12 => [Backslash, 102]
    case 13 => [Backslash, 114]
    case 10 => [Backslash, 110]
    case 9 => [Backslash, 116]
    case 0 => [Backslash, 48]
    case 7 => [Backslash, 97]
    case 11 => [Backslash, 118]
    case _ => [c]
  }

  /** The parameter quoting of ch_binary_simple_query. */
  function ParamByte(c: byte): (r: seq<byte>)
    ensures 1 <= |r| <= 4
  {
    match c
    case 0 => [Backslash, 120, 48, 48]
    case 8 => [Backslash, 120, 48, 56]
    case 9 => [Backslash, 116]
    case 10 => [Backslash, 110]
    case 39 => [Backslash, 120, 50, 55]
    case 92 => [Backslash, Backslash]
    case _ => [c]
  }

  /** ch_quote_literal_internal: quotes and backslashes are doubled. */
  function DoubleByte(c: byte): (r: seq<byte>)
    ensures 1 <= |r| <= 2
  {
    if c == Quote || c == Backslash then [c, c] else [c]
  }

  function Each(f: byte -> seq<byte>, s: seq<byte>): seq<byte> {
    if s == [] then [] else Each(f, s[..|s| - 1]) + f(s[|s| - 1])
  }

  function Escape(s: seq<byte>): seq<byte> {
    Each(EscapeByte, s)
  }

  function QuoteParam(s: seq<byte>): seq<byte> {
    [Quote] + Each(ParamByte, s) + [Quote]
  }

  function QuoteLiteral(s: seq<byte>): seq<byte> {
    [Quote] + Each(DoubleByte, s) + [Quote]
  }

  lemma {:induction false} EachConcat(f: byte -> seq<byte>, a: seq<byte>, b: seq<byte>)
    ensures Each(f, a + b) == Each(f, a) + Each(f, b)
  {
    if b == [] {
      assert a + b == a;
    } else {
      var n := |b| - 1;
      assert (a + b)[..|a + b| - 1] == a + b[..n];
      EachConcat(f, a, b[..n]);
    }
  }

  lemma {:induction false} EachCons(f: byte -> seq<byte>, c: byte, s: seq<byte>)
    ensures Each(f, [c] + s) == f(c) + Each(f, s)
  {
    EachConcat(f, [c], s);
    assert [c][..0] == [] && Each(f, []) == [];
    assert [] + f(c) == f(c);
  }

  // ---------- readers undo writers ----------

  lemma {:induction false} UnescapeByte(c: byte, s: seq<byte>)
    ensures Unescape(EscapeByte(c) + s) == [c] + Unescape(s)
  {
    var t := EscapeByte(c) + s;
    assert t[|EscapeByte(c)|..] == s;
    assert t[0] == EscapeByte(c)[0] && (|EscapeByte(c)| == 2 ==> t[1] == EscapeByte(c)[1]);
  }

  lemma {:induction false} UnescapeEscape(s: seq<byte>)
    ensures Unescape(Escape(s)) == s
  {
    if s != [] {
      assert s == [s[0]] + s[1..];
      EachCons(EscapeByte, s[0], s[1..]);
      UnescapeByte(s[0], Escape(s[1..]));
      UnescapeEscape(s[1..]);
    }
  }

  lemma {:induction false} ParamItem(c: byte, t: seq<byte>)
    requires |ParamByte(c)| <= |t| && t[..|ParamByte(c)|] == ParamByte(c)
    ensures t[0] != Quote && Span(t) == |ParamByte(c)| && Denotes(t) == c
  {
    var e := ParamByte(c);
    assert forall i :: 0 <= i < |e| ==> t[i] == e[i];
  }

  lemma {:induction false} InsideParamByte(c: byte, s: seq<byte>)
    ensures Inside(ParamByte(c) + s, false) == Before(c, Inside(s, false))
  {
    var t := ParamByte(c) + s;
    ParamItem(c, t);
    assert t[Span(t)..] == s;
  }

  lemma {:induction false} InsideParam(s: seq<byte>, rest: seq<byte>)
    ensures Inside(Each(ParamByte, s) + [Quote] + rest, false) == Read(s, rest)
  {
    if s == [] {
      assert ([] + [Quote] + rest)[1..] == rest;
    } else {
      var tail := Each(ParamByte, s[1..]) + [Quote] + rest;
      assert s == [s[0]] + s[1..];
      EachCons(ParamByte, s[0], s[1..]);
      assert Each(ParamByte, s) + [Quote] + rest == ParamByte(s[0]) + tail;
      InsideParamByte(s[0], tail);
      InsideParam(s[1..], rest);
    }
  }

  /** A parameter is read back whole, and its closing quote is where it was written. */
  lemma {:induction false} UnquoteParam(s: seq<byte>, rest: seq<byte>)
    ensures ReadQuoted(QuoteParam(s) + rest, false) == Read(s, rest)
  {
    InsideParam(s, rest);
    assert (QuoteParam(s) + rest)[1..] == Each(ParamByte, s) + [Quote] + rest;
  }

  lemma {:induction false} InsideDoubleByte(c: byte, s: seq<byte>)
    ensures Inside(DoubleByte(c) + s, true) == Before(c, Inside(s, true))
  {
    var e := DoubleByte(c);
    var t := e + s;
    assert t[|e|..] == s;
    assert forall i :: 0 <= i < |e| ==> t[i] == e[i];
  }

  lemma {:induction false} InsideDouble(s: seq<byte>, rest: seq<byte>)
    requires rest == [] || rest[0] != Quote
    ensures Inside(Each(DoubleByte, s) + [Quote] + rest, true) == Read(s, rest)
  {
    if s == [] {
      assert ([] + [Quote] + rest)[1..] == rest;
    } else {
      var tail := Each(DoubleByte, s[1..]) + [Quote] + rest;
      assert s == [s[0]] + s[1..];
      EachCons(DoubleByte, s[0], s[1..]);
      assert Each(DoubleByte, s) + [Quote] + rest == DoubleByte(s[0]) + tail;
      InsideDoubleByte(s[0], tail);
      InsideDouble(s[1..], rest);
    }
  }

  /** A literal in a statement denotes its bytes and ends where it was meant to, exactly if no quote follows it. */
  lemma {:induction false} UnquoteLiteral(s: seq<byte>, rest: seq<byte>)
    ensures ReadQuoted(QuoteLiteral(s) + rest, true) == Read(s, rest) <==> rest == [] || rest[0] != Quote
  {
    assert (QuoteLiteral(s) + rest)[1..] == Each(DoubleByte, s) + [Quote] + rest;
    if rest == [] || rest[0] != Quote {
      InsideDouble(s, rest);
    } else {
      GluedLiteral(s, rest[1..]);
      assert rest == [Quote] + rest[1..];
      assert Each(DoubleByte, s) + [Quote] + rest == Each(DoubleByte, s) + [Quote, Quote] + rest[1..];
    }
  }

  /** A quote right after the literal is read as part of it. */
  lemma {:induction false} GluedLiteral(s: seq<byte>, rest: seq<byte>)
    ensures var r := Inside(Each(DoubleByte, s) + [Quote, Quote] + rest, true); r.Read? ==> |r.value| > |s|
  {
    if s == [] {
      assert ([] + [Quote, Quote] + rest)[2..] == rest;
    } else {
      var tail := Each(DoubleByte, s[1..]) + [Quote, Quote] + rest;
      assert s == [s[0]] + s[1..];
      EachCons(DoubleByte, s[0], s[1..]);
      assert Each(DoubleByte, s) + [Quote, Quote] + rest == DoubleByte(s[0]) + tail;
      InsideDoubleByte(s[0], tail);
      GluedLiteral(s[1..], rest);
    }
  }

  // ---------- sizes and terminators ----------

  lemma {:induction false} EachSize(f: byte -> seq<byte>, s: seq<byte>, most: nat)
    requires forall c :: |f(c)| <= most
    ensures |Each(f, s)| <= most * |s|
  {
    if s != [] {
      EachSize(f, s[..|s| - 1], most);
      assert most * |s| == most * (|s| - 1) + most;
    }
  }

  lemma {:induction false} EachAvoids(f: byte -> seq<byte>, s: seq<byte>, b: byte)
    requires forall c :: b !in f(c)
    ensures b !in Each(f, s)
  {
    if s != [] {
      EachAvoids(f, s[..|s| - 1], b);
    }
  }

  /** Both outputs fit what is allocated for them, terminator included. */
  lemma {:induction false} Fits(s: seq<byte>)
    ensures |Escape(s)| + 1 <= 2 * |s| + 1 && |QuoteParam(s)| + 1 <= 4 * |s| + 3 && |QuoteLiteral(s)| <= 2 * |s| + 2
  {
    EachSize(EscapeByte, s, 2);
    EachSize(ParamByte, s, 4);
    EachSize(DoubleByte, s, 2);
  }

  lemma {:induction false} NoNulSurvives(s: seq<byte>)
    ensures 0 !in Escape(s) && 0 !in QuoteParam(s)
  {
    EachAvoids(EscapeByte, s, 0);
    EachAvoids(ParamByte, s, 0);
  }

  /** Escaped text holds no control character with a letter of its own, so it stays in its line and its column. */
  lemma {:induction false} NoControlSurvives(s: seq<byte>, c: byte)
    requires c == 0 || 7 <= c <= 13
    ensures c !in Escape(s)
  {
    EachAvoids(EscapeByte, s, c);
  }

  /** Between its quotes a parameter holds no quote at all, nor what would end a field of a dump. */
  lemma {:induction false} ParamStaysWhole(s: seq<byte>, c: byte)
    requires c == Quote || c == 0 || 8 <= c <= 10
    ensures QuoteParam(s) == [Quote] + QuoteParam(s)[1..|QuoteParam(s)| - 1] + [Quote]
    ensures c !in QuoteParam(s)[1..|QuoteParam(s)| - 1]
  {
    EachAvoids(ParamByte, s, c);
    assert QuoteParam(s)[1..|QuoteParam(s)| - 1] == Each(ParamByte, s);
  }

  // ---------- the writers' loops ----------

  /** A C string in a buffer. */
  ghost predicate Holds(buf: array<byte>, s: seq<byte>)
    reads buf
  {
    |s| < buf.Length && buf[..|s|] == s && buf[|s|] == 0 && 0 !in s
  }

  /** The loops' body: write what c becomes at the target cursor. */
  method Emit(buf: array<byte>, at: nat, bytes: seq<byte>) returns (to: nat)
    requires at + |bytes| <= buf.Length
    modifies buf
    ensures to == at + |bytes| && buf[..to] == old(buf[..at]) + bytes
  {
    MemCpy(buf, at, bytes);
    to := at + |bytes|;
  }

  /** ch_escape_string: 2n + 1 bytes are enough. */
  method EscapeString(from: seq<byte>) returns (result: array<byte>)
    ensures fresh(result) && result.Length == 2 * |from| + 1 && Holds(result, Escape(from))
  {
    result := new byte[|from| * 2 + 1];
    var target: nat, source: nat := 0, 0;
    while source < |from|
      invariant 0 <= source <= |from| && target <= 2 * source && result[..target] == Escape(from[..source])
    {
      assert from[..source + 1][..source] == from[..source];
      target := Emit(result, target, EscapeByte(from[source]));
      source := source + 1;
    }
    assert from[..source] == from;
    result[target] := 0;
    NoNulSurvives(from);
  }

  /** The quoting loop of ch_binary_simple_query, over the C string raw: 4m + 3 bytes are enough. */
  method QuoteParameter(raw: array<byte>, ghost value: seq<byte>) returns (dst: array<byte>)
    requires Holds(raw, value)
    ensures fresh(dst) && dst.Length == 4 * |value| + 3 && Holds(dst, QuoteParam(value))
  {
    var rlen := 0;
    while raw[rlen] != 0
      invariant 0 <= rlen <= |value|
      decreases |value| - rlen
    {
      assert raw[rlen] == value[rlen] || rlen == |value|;
      rlen := rlen + 1;
    }
    dst := new byte[rlen * 4 + 3];
    dst[0] := Quote;
    var o, j: nat := 1, 0;
    while j < rlen
      invariant 0 <= j <= rlen && 1 <= o <= 1 + 4 * j && dst[..o] == [Quote] + Each(ParamByte, value[..j])
      invariant raw[..rlen] == value
    {
      assert value[..j + 1][..j] == value[..j] && raw[j] == raw[..rlen][j];
      o := Emit(dst, o, ParamByte(raw[j]));
      j := j + 1;
    }
    assert value[..j] == value;
    dst[o] := Quote;
    o := o + 1;
    dst[o] := 0;
    assert dst[..o] == QuoteParam(value);
    NoNulSurvives(value);
  }

  /** ch_quote_literal_internal writes into room that its caller makes. */
  method QuoteLiteralInto(dst: array<byte>, at: nat, src: seq<byte>) returns (end: nat)
    requires at + 2 * |src| + 2 <= dst.Length
    modifies dst
    ensures end <= at + 2 * |src| + 2 && dst[..end] == old(dst[..at]) + QuoteLiteral(src)
  {
    end := Emit(dst, at, [Quote]);
    ghost var start := dst[..end];
    var i := 0;
    while i < |src|
      invariant 0 <= i <= |src| && end <= at + 1 + 2 * i && dst[..end] == start + Each(DoubleByte, src[..i])
    {
      assert src[..i + 1][..i] == src[..i];
      end := Emit(dst, end, DoubleByte(src[i]));
      i := i + 1;
    }
    assert src[..i] == src;
    end := Emit(dst, end, [Quote]);
  }

  /** A string escaped and then quoted as a parameter arrives as it was, NUL bytes included. */
  method TwoLayers(s: seq<byte>) returns (dst: array<byte>)
    ensures exists q :: Holds(dst, q) && ReadQuoted(q, false).Read? && ReadQuoted(q, false).rest == [] &&
                        Unescape(ReadQuoted(q, false).value) == s
  {
    var raw := EscapeString(s);
    dst := QuoteParameter(raw, Escape(s));
    UnquoteParam(Escape(s), []);
    UnescapeEscape(s);
    assert QuoteParam(Escape(s)) + [] == QuoteParam(Escape(s));
  }
}
