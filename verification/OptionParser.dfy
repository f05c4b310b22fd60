/** chfdw_parse_options as it runs: one copy of the string, rewritten in place behind the read cursor (src/option.c). */
module OptionParser {
  import opened Values
  import opened OptionGrammar

  const Nul: char := 0 as char

  predicate NoNul(s: string) {
    forall i :: 0 <= i < |s| ==> s[i] != Nul
  }

  /** The buffer from the read cursor on is still an untouched C string. */
  ghost predicate Unread(buf: array<char>, cp: nat)
    reads buf
  {
    cp < buf.Length && buf[buf.Length - 1] == Nul && NoNul(buf[cp..buf.Length - 1])
  }

  ghost function Rest(buf: array<char>, cp: nat): string
    requires cp < buf.Length
    reads buf
  {
    buf[cp..buf.Length - 1]
  }

  /** The string s is stored at i, with its terminator. */
  ghost predicate Stored(buf: array<char>, i: nat, s: string)
    reads buf
  {
    i + |s| < buf.Length && buf[i..i + |s|] == s && buf[i + |s|] == Nul && NoNul(s)
  }

  /** pstrdup: the only string stored at i. */
  method Duplicate(buf: array<char>, i: nat, ghost s: string) returns (r: string)
    requires Stored(buf, i, s)
    ensures r == s
  {
    var j := i;
    while buf[j] != Nul
      invariant i <= j <= i + |s|
      decreases i + |s| - j
    {
      assert buf[j] == s[j - i] || j == i + |s|;
      j := j + 1;
    }
    r := buf[i..j];
  }

  method SkipBlanks(buf: array<char>, start: nat) returns (cp: nat)
    requires Unread(buf, start)
    ensures start <= cp && Unread(buf, cp) && Rest(buf, cp) == Trim(Rest(buf, start))
  {
    cp := start;
    while Blank(buf[cp])
      invariant start <= cp && Unread(buf, cp) && Trim(Rest(buf, cp)) == Trim(Rest(buf, start))
      decreases buf.Length - cp
    {
      assert Rest(buf, cp)[1..] == Rest(buf, cp + 1) && Rest(buf, cp)[0] == buf[cp];
      cp := cp + 1;
    }
    assert cp < buf.Length - 1 ==> Rest(buf, cp)[0] == buf[cp];
  }

  /** The inner loop over the name: it ends at a blank or at the end of the string. */
  method WordEnd(buf: array<char>, pname: nat) returns (cp: nat)
    requires Unread(buf, pname)
    ensures cp == pname + Word(Rest(buf, pname)) && cp < buf.Length && (buf[cp] != Nul ==> Blank(buf[cp]))
  {
    ghost var s := Rest(buf, pname);
    cp := pname;
    while buf[cp] != Nul
      invariant pname <= cp < buf.Length && Word(s) == cp - pname + Word(s[cp - pname..])
      decreases buf.Length - cp
    {
      assert s[cp - pname] == buf[cp] && s[cp - pname..][1..] == s[cp + 1 - pname..];
      if Blank(buf[cp]) {
        return;
      }
      cp := cp + 1;
    }
    assert cp == buf.Length - 1 && s[cp - pname..] == [];
  }

  method TakeName(buf: array<char>, pname: nat) returns (cp: nat)
    requires Unread(buf, pname)
    modifies buf
    ensures Unread(buf, cp) && Rest(buf, cp) == Trim(old(Rest(buf, pname))[Word(old(Rest(buf, pname)))..])
    ensures Stored(buf, pname, old(Rest(buf, pname))[..Word(old(Rest(buf, pname)))])
    ensures pname + Word(old(Rest(buf, pname))) <= cp
    ensures cp < buf.Length - 1 ==> pname + Word(old(Rest(buf, pname))) < cp
  {
    ghost var s := Rest(buf, pname);
    cp := WordEnd(buf, pname);
    ghost var n := cp - pname;
    assert buf[pname..cp] == s[..n];
    if buf[cp] != Nul {
      cp := EndName(buf, cp);
      assert s[n] == old(buf[pname + n]) && s[n..][1..] == s[n + 1..] && s[n + 1..] == old(Rest(buf, pname + n + 1));
      assert buf[pname..pname + n] == old(buf[..pname + n])[pname..];
    } else {
      assert cp == buf.Length - 1 && s[n..] == [];
    }
  }

  /** The blank after a name becomes its terminator, and the blanks after it are skipped. */
  method EndName(buf: array<char>, end: nat) returns (cp: nat)
    requires Unread(buf, end) && buf[end] != Nul
    modifies buf
    ensures Unread(buf, cp) && end < cp && buf[end] == Nul && buf[..end] == old(buf[..end])
    ensures Rest(buf, cp) == Trim(old(Rest(buf, end + 1)))
  {
    ghost var s := Rest(buf, end + 1);
    buf[end] := Nul;
    assert Rest(buf, end + 1) == s && NoNul(s) by {
      assert s == old(Rest(buf, end))[1..];
    }
    cp := SkipBlanks(buf, end + 1);
  }

  /** The rest of a value, once done has been read of it. */
  function Continue(done: string, p: Piece): Piece {
    p.(value := done + p.value)
  }

  lemma {:induction false} ContinueTwice(done: string, chunk: string, p: Piece)
    ensures Continue(done, Continue(chunk, p)) == Continue(done + chunk, p)
  {
    assert done + (chunk + p.value) == done + chunk + p.value;
  }

  /** One character of a value, escaped or not: what it adds and what it leaves. A lone backslash at the end adds
      nothing. */
  function Chunk(s: string): string
    requires s != []
  {
    if s[0] == '\\' then s[1..if |s| == 1 then 1 else 2] else [s[0]]
  }

  function Skip(s: string): string
    requires s != []
  {
    s[if s[0] == '\\' && |s| > 1 then 2 else 1..]
  }

  lemma {:induction false} BareChunk(s: string)
    requires s != [] && !Blank(s[0]) && s[0] != ','
    ensures Bare(s) == Continue(Chunk(s), Bare(Skip(s)))
  {
    assert [] + Bare([]).value == [];
  }

  lemma {:induction false} InsideChunk(s: string)
    requires s != [] && s[0] != '\''
    ensures Inside(s) == Continue(Chunk(s), Inside(Skip(s)))
  {
    assert [] + Inside([]).value == [];
  }

  /** What both value loops keep: the value read so far is stored behind the read cursor and the input ahead of it is
      untouched. */
  ghost predicate Reading(buf: array<char>, before: seq<char>, pval: nat, cp2: nat, cp: nat)
    reads buf
  {
    |before| == buf.Length && pval <= cp2 <= cp && Unread(buf, cp) && buf[..pval] == before[..pval] && buf[cp..] ==
      before[cp..] &&
    NoNul(buf[pval..cp2])
  }

  /** *cp2++ = *cp++ */
  method Copy(buf: array<char>, ghost before: seq<char>, ghost pval: nat, cp2: nat, cp: nat)
    requires Reading(buf, before, pval, cp2, cp) && cp < buf.Length - 1
    modifies buf
    ensures Reading(buf, before, pval, cp2 + 1, cp + 1)
    ensures buf[pval..cp2 + 1] == old(buf[pval..cp2]) + [old(buf[cp])]
    ensures Rest(buf, cp + 1) == old(Rest(buf, cp))[1..]
  {
    buf[cp2] := buf[cp];
    assert buf[pval..cp2] == old(buf[pval..cp2]);
    assert buf[cp + 1..buf.Length - 1] == old(Rest(buf, cp))[1..];
    assert buf[..pval] == old(buf[..pval]);
  }

  /** *cp2 = 0, once the value is complete: the terminator lands behind the read cursor, or on the old one. */
  method Terminate(buf: array<char>, ghost before: seq<char>, ghost pval: nat, cp2: nat, ghost cp: nat)
    requires Reading(buf, before, pval, cp2, cp) && (cp2 < cp || cp == buf.Length - 1)
    modifies buf
    ensures Reading(buf, before, pval, cp2, cp) && Stored(buf, pval, old(buf[pval..cp2]))
    ensures Rest(buf, cp) == old(Rest(buf, cp))
  {
    buf[cp2] := Nul;
    assert buf[pval..cp2] == old(buf[pval..cp2]);
    assert buf[cp..] == old(buf[cp..]);
    assert Rest(buf, cp) == old(Rest(buf, cp));
    assert buf[..pval] == old(buf[..pval]);
  }

  /** Both value loops' last branches. */
  method TakeChar(buf: array<char>, ghost before: seq<char>, ghost pval: nat, cp2: nat, cp: nat) returns (to: nat,
                  from: nat)
    requires Reading(buf, before, pval, cp2, cp) && cp < buf.Length - 1
    modifies buf
    ensures Reading(buf, before, pval, to, from) && cp < from && (cp2 < cp ==> to < from)
    ensures buf[pval..to] == old(buf[pval..cp2]) + Chunk(old(Rest(buf, cp)))
    ensures Rest(buf, from) == Skip(old(Rest(buf, cp)))
  {
    ghost var rest := Rest(buf, cp);
    assert rest[0] == buf[cp];
    to, from := cp2, cp;
    if buf[cp] == '\\' {
      from := from + 1;
      assert Rest(buf, from) == rest[1..];
      if buf[from] != Nul {
        assert rest[1] == buf[from] && Chunk(rest) == [rest[1]];
        Copy(buf, before, pval, to, from);
        to, from := to + 1, from + 1;
        assert rest[1..][1..] == rest[2..];
      } else {
        assert |rest| == 1 && Chunk(rest) == [];
        assert buf[pval..to] + [] == buf[pval..to];
      }
    } else {
      Copy(buf, before, pval, to, from);
      to, from := to + 1, from + 1;
    }
  }

  /** The branch that ends an unquoted value at a blank. */
  method EndAtBlank(buf: array<char>, ghost before: seq<char>, ghost pval: nat, cp2: nat, at: nat) returns (cp: nat,
                    ok: bool)
    requires Reading(buf, before, pval, cp2, at) && Blank(buf[at])
    modifies buf
    ensures Unread(buf, cp) && at < cp && buf[..pval] == before[..pval]
    ensures var p := Bare(old(Rest(buf, at)));
            p.value == [] && ok == p.ok && Rest(buf, cp) == p.rest && (ok ==> Stored(buf, pval, old(buf[pval..cp2])))
  {
    assert Rest(buf, at)[0] == buf[at];
    cp := SkipBlanks(buf, at);
    assert cp != at;
    assert cp < buf.Length - 1 ==> Rest(buf, cp)[0] == buf[cp];
    ok := buf[cp] == ',' || buf[cp] == Nul;
    if ok {
      Terminate(buf, before, pval, cp2, cp);
    }
  }

  /** The branch that ends it at a comma, which it consumes. */
  method EndAtComma(buf: array<char>, ghost before: seq<char>, ghost pval: nat, cp2: nat, at: nat) returns (cp: nat)
    requires Reading(buf, before, pval, cp2, at) && buf[at] == ','
    modifies buf
    ensures Unread(buf, cp) && at < cp && buf[..pval] == before[..pval]
    ensures Bare(old(Rest(buf, at))) == Piece([], Rest(buf, cp), true) && Stored(buf, pval, old(buf[pval..cp2]))
  {
    ghost var rest := Rest(buf, at);
    assert rest[0] == buf[at];
    buf[at] := Nul;
    cp := at + 1;
    assert Rest(buf, cp) == rest[1..] && buf[pval..cp2] == old(buf[pval..cp2]) && buf[..pval] == old(buf[..pval]);
    assert buf[cp..] == before[cp..];
    Terminate(buf, before, pval, cp2, cp);
  }

  method TakeBare(buf: array<char>, pval: nat) returns (cp: nat, ok: bool)
    requires Unread(buf, pval)
    modifies buf
    ensures Unread(buf, cp) && buf[..pval] == old(buf[..pval])
    ensures var p := Bare(old(Rest(buf, pval)));
            ok == p.ok && Rest(buf, cp) == p.rest && (ok ==> Stored(buf, pval, p.value)) &&
              (p.value != [] ==> pval < cp)
  {
    ghost var before, s := buf[..], Rest(buf, pval);
    cp := pval;
    var cp2: nat := pval;
    while buf[cp] != Nul
      invariant Reading(buf, before, pval, cp2, cp)
      invariant Bare(s) == Continue(buf[pval..cp2], Bare(Rest(buf, cp)))
      decreases buf.Length - cp
    {
      ghost var rest, done := Rest(buf, cp), buf[pval..cp2];
      assert rest[0] == buf[cp] && done + [] == done;
      if Blank(buf[cp]) {
        cp, ok := EndAtBlank(buf, before, pval, cp2, cp);
        return;
      }
      if buf[cp] == ',' {
        cp := EndAtComma(buf, before, pval, cp2, cp);
        return cp, true;
      }
      BareChunk(rest);
      ContinueTwice(done, Chunk(rest), Bare(Skip(rest)));
      cp2, cp := TakeChar(buf, before, pval, cp2, cp);
    }
    Terminate(buf, before, pval, cp2, cp);
    assert buf[pval..cp2] + [] == buf[pval..cp2];
    ok := true;
  }

  method TakeQuoted(buf: array<char>, pval: nat) returns (cp: nat, ok: bool)
    requires Unread(buf, pval) && buf[pval] == '\''
    modifies buf
    ensures Unread(buf, cp) && pval < cp && buf[..pval] == old(buf[..pval])
    ensures var p := Inside(old(Rest(buf, pval))[1..]);
            ok == p.ok && (ok ==> Rest(buf, cp) == p.rest && Stored(buf, pval, p.value))
  {
    ghost var before, s := buf[..], Rest(buf, pval)[1..];
    cp := pval + 1;
    var cp2: nat := pval;
    assert Rest(buf, cp) == s;
    while true
      invariant Reading(buf, before, pval, cp2, cp) && cp2 < cp
      invariant Inside(s) == Continue(buf[pval..cp2], Inside(Rest(buf, cp)))
      decreases buf.Length - cp
    {
      ghost var rest, done := Rest(buf, cp), buf[pval..cp2];
      if buf[cp] == Nul {
        return cp, false;
      }
      assert rest[0] == buf[cp] && done + [] == done;
      if buf[cp] == '\'' {
        assert rest[1..] == Rest(buf, cp + 1);
        cp := cp + 1;
        Terminate(buf, before, pval, cp2, cp);
        return cp, true;
      }
      InsideChunk(rest);
      ContinueTwice(done, Chunk(rest), Inside(Skip(rest)));
      cp2, cp := TakeChar(buf, before, pval, cp2, cp);
    }
  }

  // ---------- the whole string ----------

  function Onto(done: seq<Setting>, r: Parsed): Parsed {
    match r
    case Ok(settings) => Ok(done + settings)
    case Err(_) => r
  }

  lemma {:induction false} OntoPrepend(done: seq<Setting>, name: string, value: string, r: Parsed)
    ensures Onto(done, Prepend(name, value, r)) == Onto(done + [Setting(name, Some(value))], r)
  {
    if r.Ok? {
      assert done + ([Setting(name, Some(value))] + r.settings) == done + [Setting(name, Some(value))] + r.settings;
    }
  }

  /** The name is safe from what is written at pval and after. */
  ghost predicate Named(buf: array<char>, pname: nat, name: string, pval: nat)
    reads buf
  {
    Stored(buf, pname, name) && (pname + |name| < pval || pname + |name| == pval == buf.Length - 1)
  }

  lemma {:induction false} NameSurvives(buf: array<char>, before: seq<char>, pname: nat, name: string, pval: nat)
    requires |before| == buf.Length && pval < buf.Length && buf[buf.Length - 1] == Nul && buf[..pval] == before[..pval]
    requires pname + |name| < pval || pname + |name| == pval == buf.Length - 1
    requires before[pname..pname + |name|] == name && before[pname + |name|] == Nul && NoNul(name)
    ensures Stored(buf, pname, name)
  {
    assert forall i :: pname <= i < pname + |name| ==> buf[i] == before[..pval][i];
    assert pname + |name| < pval ==> buf[..pval][pname + |name|] == before[pname + |name|];
  }

  method BareSetting(buf: array<char>, pname: nat, ghost name: string, pval: nat) returns (cp: nat, t: Token)
    requires Unread(buf, pval) && Named(buf, pname, name, pval)
    modifies buf
    ensures t == BareToken(name, Bare(old(Rest(buf, pval))))
    ensures t.Next? ==> Unread(buf, cp) && pval < cp && t.rest == Rest(buf, cp)
  {
    ghost var before, p := buf[..], Bare(Rest(buf, pval));
    var ok;
    cp, ok := TakeBare(buf, pval);
    NameSurvives(buf, before, pname, name, pval);
    var pstr := Duplicate(buf, pname, name);
    if !ok {
      return cp, Fail(MissingComma(pstr));
    }
    var value := Duplicate(buf, pval, p.value);
    if value == [] {
      return cp, Fail(MissingValue(pstr));
    }
    return cp, Next(pstr, value, buf[cp..buf.Length - 1]);
  }

  method QuotedSetting(buf: array<char>, pname: nat, ghost name: string, pval: nat) returns (cp: nat, t: Token)
    requires Unread(buf, pval) && Named(buf, pname, name, pval) && buf[pval] == '\''
    modifies buf
    ensures t == QuotedToken(name, Inside(old(Rest(buf, pval))[1..]))
    ensures t.Next? ==> Unread(buf, cp) && pval < cp && t.rest == Rest(buf, cp)
  {
    ghost var before, p := buf[..], Inside(Rest(buf, pval)[1..]);
    var ok;
    cp, ok := TakeQuoted(buf, pval);
    if !ok {
      return cp, Fail(Unterminated);
    }
    NameSurvives(buf, before, pname, name, pval);
    var pstr := Duplicate(buf, pname, name);
    var value := Duplicate(buf, pval, p.value);
    cp := SkipBlanks(buf, cp);
    assert cp < buf.Length - 1 ==> Rest(buf, cp)[0] == buf[cp];
    if buf[cp] == ',' {
      assert Rest(buf, cp)[1..] == Rest(buf, cp + 1);
      cp := cp + 1;
    } else if buf[cp] != Nul {
      return cp, Fail(MissingComma(pstr));
    }
    return cp, Next(pstr, value, buf[cp..buf.Length - 1]);
  }

  /** One round of the loop: a setting read in place, or the error it raises. */
  method TakeSetting(buf: array<char>, pname: nat) returns (cp: nat, t: Token)
    requires Unread(buf, pname) && Rest(buf, pname) != [] && !Blank(buf[pname])
    modifies buf
    ensures t == FirstToken(old(Rest(buf, pname)))
    ensures t.Next? ==> Unread(buf, cp) && pname < cp && t.rest == Rest(buf, cp)
  {
    ghost var s := Rest(buf, pname);
    assert s[0] == buf[pname];
    ghost var name := s[..Word(s)];
    var pval := TakeName(buf, pname);
    assert pval < buf.Length - 1 ==> Rest(buf, pval)[0] == buf[pval];
    if buf[pval] != '\'' {
      cp, t := BareSetting(buf, pname, name, pval);
    } else {
      cp, t := QuotedSetting(buf, pname, name, pval);
    }
  }

  /** The copy that is rewritten. */
  method Modifiable(options: string) returns (buf: array<char>)
    requires NoNul(options)
    ensures fresh(buf) && Unread(buf, 0) && Rest(buf, 0) == options
  {
    var n := |options|;
    buf := new char[n + 1](i => if 0 <= i < n then options[i] else Nul);
    assert buf[0..n] == options;
  }

  /** The write cursor never passes the read cursor, so what is parsed is what was passed in. */
  method ParseOptions(options: string) returns (r: Parsed)
    requires NoNul(options)
    ensures r == Parse(options)
  {
    var buf := Modifiable(options);
    var cp, done := 0, [];
    while buf[cp] != Nul
      invariant Unread(buf, cp)
      invariant Parse(options) == Onto(done, Parse(Rest(buf, cp)))
      decreases buf.Length - cp
    {
      ghost var s := Rest(buf, cp);
      assert s[0] == buf[cp] && s[1..] == Rest(buf, cp + 1);
      if Blank(buf[cp]) {
        ParseBlank(s);
        cp := cp + 1;
        continue;
      }
      ParseFirst(done, s);
      var t;
      cp, t := TakeSetting(buf, cp);
      match t
      case Fail(e) => return Err(e);
      case Next(name, value, rest) =>
        done := done + [Setting(name, Some(value))];
    }
    ParseEnd(done);
    assert Rest(buf, cp) == [];
    return Ok(done);
  }

  lemma {:induction false} ParseBlank(s: string)
    requires s != [] && Blank(s[0])
    ensures Parse(s) == Parse(s[1..])
  {
    assert Trim(s) == Trim(s[1..]);
  }

  /** One setting, and the rest with it done. */
  lemma {:induction false} ParseFirst(done: seq<Setting>, s: string)
    requires s != [] && !Blank(s[0])
    ensures Onto(done, Parse(s)) == match FirstToken(s)
                                    case Fail(e) => Err(e)
                                    case Next(name, value, rest) =>
                                      Onto(done + [Setting(name, Some(value))], Parse(rest))
  {
    assert Trim(s) == s;
    if FirstToken(s).Next? {
      OntoPrepend(done, FirstToken(s).name, FirstToken(s).value, Parse(FirstToken(s).rest));
    }
  }

  lemma {:induction false} ParseEnd(done: seq<Setting>)
    ensures Onto(done, Parse([])) == Ok(done)
  {
    assert done + [] == done;
  }
}
