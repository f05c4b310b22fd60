/** The format of settings strings, `name value, name 'value', ...`, as chfdw_parse_options reads it (src/option.c). */
module OptionGrammar {
  import opened Values

  /** One setting; value is None where tables disagree. */
  datatype Setting = Setting(name: string, value: Option<string>)

  datatype Error = MissingComma(name: string) | MissingValue(name: string) | Unterminated

  datatype Parsed = Ok(settings: seq<Setting>) | Err(error: Error)

  /** isspace in the C locale. */
  predicate Blank(c: char) {
    c == ' ' || '\t' <= c <= '\r'
  }

  /** Space, tab, newline, vertical tab, form feed and carriage return. */
  lemma {:induction false} BlankExactly(c: char)
    ensures Blank(c) <==> c in [' ', '\t', '\n', 11 as char, 12 as char, '\r']
  {
    assert '\t' as int == 9 && '\n' as int == 10 && '\r' as int == 13;
  }

  predicate AllBlank(s: string) {
    forall i :: 0 <= i < |s| ==> Blank(s[i])
  }

  predicate NoBlank(s: string) {
    forall i :: 0 <= i < |s| ==> !Blank(s[i])
  }

  function Trim(s: string): (r: string)
    ensures |r| <= |s| && (r == [] || !Blank(r[0]))
  {
    if s == [] || !Blank(s[0]) then s else Trim(s[1..])
  }

  /** The length of the word at the head of s. */
  function Word(s: string): (n: nat)
    ensures n <= |s|
  {
    if s == [] || Blank(s[0]) then 0 else 1 + Word(s[1..])
  }

  /** A value read so far, what follows it, and whether what follows may. */
  datatype Piece = Piece(value: string, rest: string, ok: bool)

  function Cons(c: char, p: Piece): Piece {
    p.(value := [c] + p.value)
  }

  /** An unquoted value ends at a blank or a comma. The comma is consumed only if it follows directly. */
  function Bare(s: string): (p: Piece)
    ensures |p.value| + |p.rest| <= |s|
  {
    if s == [] then Piece([], [], true)
    else if Blank(s[0]) then Piece([], Trim(s), Trim(s) == [] || Trim(s)[0] == ',')
    else if s[0] == ',' then Piece([], s[1..], true)
    else if s[0] == '\\' then
      if |s| == 1 then Piece([], [], true) else Cons(s[1], Bare(s[2..]))
    else Cons(s[0], Bare(s[1..]))
  }

  /** The inside of a quoted value up to its closing quote; not ok if there is none. */
  function Inside(s: string): (p: Piece)
    ensures |p.value| + |p.rest| <= |s|
    ensures p.ok ==> |p.value| + |p.rest| < |s|
  {
    if s == [] then Piece([], [], false)
    else if s[0] == '\\' then
      if |s| == 1 then Piece([], [], false) else Cons(s[1], Inside(s[2..]))
    else if s[0] == '\'' then Piece([], s[1..], true)
    else Cons(s[0], Inside(s[1..]))
  }

  function Prepend(name: string, value: string, r: Parsed): Parsed {
    match r
    case Ok(settings) => Ok([Setting(name, Some(value))] + settings)
    case Err(_) => r
  }

  /** One setting and what remains after its separator. */
  datatype Token = Next(name: string, value: string, rest: string) | Fail(error: Error)

  function QuotedToken(name: string, p: Piece): (t: Token)
    ensures t.Next? ==> p.ok && |t.rest| <= |p.rest|
  {
    var rest := Trim(p.rest);
    if !p.ok then Fail(Unterminated)
    else if rest == [] then Next(name, p.value, [])
    else if rest[0] == ',' then Next(name, p.value, rest[1..])
    else Fail(MissingComma(name))
  }

  function BareToken(name: string, p: Piece): Token {
    if !p.ok then Fail(MissingComma(name))
    else if p.value == [] then Fail(MissingValue(name))
    else Next(name, p.value, p.rest)
  }

  /** The value v of a setting, with all that follows. */
  function ValueToken(name: string, v: string): (t: Token)
    ensures t.Next? ==> |t.rest| <= |v|
  {
    if v != [] && v[0] == '\'' then QuotedToken(name, Inside(v[1..])) else BareToken(name, Bare(v))
  }

  function FirstToken(s: string): (t: Token)
    requires s != [] && !Blank(s[0])
    ensures t.Next? ==> |t.rest| < |s|
  {
    ValueToken(s[..Word(s)], Trim(s[Word(s)..]))
  }

  function Parse(s: string): Parsed
    decreases |s|
  {
    var t := Trim(s);
    if t == [] then Ok([])
    else
      match FirstToken(t)
      case Fail(e) => Err(e)
      case Next(name, value, rest) => Prepend(name, value, Parse(rest))
  }

  // ---------- printing ----------

  /** One printed setting. before and after are the blanks around the comma that follows it. */
  datatype Item = Item(name: string, value: string, quoted: bool, before: string, after: string)

  predicate Printable(x: Item) {
    x.name != [] && NoBlank(x.name) && AllBlank(x.before) && AllBlank(x.after) &&
    (!x.quoted ==> x.value != [])
  }

  /** Only quotes and backslashes need a backslash inside quotes; outside them, blanks and commas do too. */
  predicate Special(quoted: bool, c: char) {
    c == '\\' || c == '\'' || (!quoted && (c == ',' || Blank(c)))
  }

  function Escape(quoted: bool, v: string): string {
    if v == [] then []
    else if Special(quoted, v[0]) then ['\\', v[0]] + Escape(quoted, v[1..])
    else [v[0]] + Escape(quoted, v[1..])
  }

  function PrintValue(x: Item): string {
    if x.quoted then ['\''] + Escape(true, x.value) + ['\''] else Escape(false, x.value)
  }

  function PrintItem(x: Item): string {
    x.name + [' '] + PrintValue(x)
  }

  function Print(xs: seq<Item>): string {
    if xs == [] then []
    else if |xs| == 1 then PrintItem(xs[0])
    else PrintItem(xs[0]) + (xs[0].before + [','] + (xs[0].after + Print(xs[1..])))
  }

  function Settings(xs: seq<Item>): seq<Setting> {
    if xs == [] then [] else [Setting(xs[0].name, Some(xs[0].value))] + Settings(xs[1..])
  }

  // ---------- round trip ----------

  lemma {:induction false} TrimBlanks(b: string, s: string)
    requires AllBlank(b)
    ensures Trim(b + s) == Trim(s)
  {
    if b != [] {
      assert (b + s)[1..] == b[1..] + s;
      TrimBlanks(b[1..], s);
    } else {
      assert b + s == s;
    }
  }

  lemma {:induction false} ParseBlanks(b: string, s: string)
    requires AllBlank(b)
    ensures Parse(b + s) == Parse(s)
  {
    TrimBlanks(b, s);
  }

  lemma {:induction false} WordOf(name: string, s: string)
    requires NoBlank(name) && s != [] && Blank(s[0])
    ensures Word(name + s) == |name|
  {
    if name == [] {
      assert name + s == s;
    } else {
      assert (name + s)[1..] == name[1..] + s;
      WordOf(name[1..], s);
    }
  }

  lemma {:induction false} InsideEscaped(v: string, s: string)
    ensures Inside(Escape(true, v) + (['\''] + s)) == Piece(v, s, true)
  {
    if v == [] {
      assert Escape(true, v) + (['\''] + s) == ['\''] + s && (['\''] + s)[1..] == s;
    } else {
      var rest := Escape(true, v[1..]) + (['\''] + s);
      InsideEscaped(v[1..], s);
      EscapedHead(true, v, ['\''] + s);
      InsideTakes(Escape(true, v) + (['\''] + s), v[0], rest);
      assert v == [v[0]] + v[1..];
    }
  }

  /** Escaping an unquoted value hides it from Bare, which goes on with what follows. */
  lemma {:induction false} BareEscaped(v: string, s: string)
    ensures Bare(Escape(false, v) + s) == Ahead(v, Bare(s))
  {
    if v == [] {
      assert Escape(false, v) + s == s;
      AheadNothing(Bare(s));
    } else {
      var rest := Escape(false, v[1..]) + s;
      BareEscaped(v[1..], s);
      EscapedHead(false, v, s);
      BareTakes(Escape(false, v) + s, v[0], rest);
      AheadOne(v, Bare(s));
    }
  }

  function Ahead(v: string, p: Piece): Piece {
    p.(value := v + p.value)
  }

  lemma {:induction false} AheadNothing(p: Piece)
    ensures Ahead([], p) == p
  {
    assert [] + p.value == p.value;
  }

  lemma {:induction false} AheadOne(v: string, p: Piece)
    requires v != []
    ensures Ahead(v, p) == Cons(v[0], Ahead(v[1..], p))
  {
    assert v + p.value == [v[0]] + (v[1..] + p.value);
  }

  /** Bare reads one character, escaped or plain. */
  lemma {:induction false} BareTakes(t: string, c: char, rest: string)
    requires if Special(false, c) then |t| > 1 && t[0] == '\\' && t[1] == c && t[2..] == rest
             else |t| > 0 && t[0] == c && t[1..] == rest
    ensures Bare(t) == Cons(c, Bare(rest))
  {
  }

  /** Inside does too. */
  lemma {:induction false} InsideTakes(t: string, c: char, rest: string)
    requires if Special(true, c) then |t| > 1 && t[0] == '\\' && t[1] == c && t[2..] == rest
             else |t| > 0 && t[0] == c && t[1..] == rest
    ensures Inside(t) == Cons(c, Inside(rest))
  {
  }

  /** An escaped value starts with its first character, escaped if that is special. */
  lemma {:induction false} EscapedHead(quoted: bool, v: string, s: string)
    requires v != []
    ensures var t := Escape(quoted, v) + s;
            if Special(quoted, v[0]) then
              |t| > 1 && t[0] == '\\' && t[1] == v[0] && t[2..] == Escape(quoted, v[1..]) + s
            else |t| > 0 && t[0] == v[0] && t[1..] == Escape(quoted, v[1..]) + s
  {
  }

  /** Where the value of a printed setting starts. */
  lemma {:induction false} TokenAt(x: Item, s: string)
    requires Printable(x)
    ensures var t := PrintItem(x) + s;
            t != [] && Trim(t) == t && FirstToken(t) == ValueToken(x.name, PrintValue(x) + s)
  {
    var t, v := PrintItem(x) + s, PrintValue(x) + s;
    assert t == x.name + ([' '] + v);
    assert t[0] == x.name[0];
    WordOf(x.name, [' '] + v);
    assert t[|x.name|..] == [' '] + v && t[..|x.name|] == x.name;
    assert Trim([' '] + v) == Trim(v) == v by {
      assert ([' '] + v)[1..] == v;
      assert v[0] == PrintValue(x)[0];
    }
  }

  lemma {:induction false} QuotedItem(x: Item, s: string)
    requires Printable(x) && x.quoted
    ensures ValueToken(x.name, PrintValue(x) + s) == QuotedToken(x.name, Piece(x.value, s, true))
  {
    assert (PrintValue(x) + s)[1..] == Escape(true, x.value) + (['\''] + s);
    InsideEscaped(x.value, s);
  }

  lemma {:induction false} BareItem(x: Item, s: string)
    requires Printable(x) && !x.quoted && Bare(s).value == []
    ensures ValueToken(x.name, PrintValue(x) + s) == BareToken(x.name, Bare(s).(value := x.value))
  {
    assert PrintValue(x)[0] != '\'';
    BareEscaped(x.value, s);
    assert x.value + [] == x.value;
  }

  /** What a printed setting and the text after it parse to. */
  lemma {:induction false} ParseItem(x: Item, s: string)
    requires Printable(x)
    ensures Parse(PrintItem(x) + s) == match ValueToken(x.name, PrintValue(x) + s)
                                       case Fail(e) => Err(e)
                                       case Next(name, value, rest) => Prepend(name, value, Parse(rest))
  {
    TokenAt(x, s);
  }

  lemma {:induction false} QuotedThenComma(x: Item, s: string)
    requires Printable(x) && x.quoted
    ensures ValueToken(x.name, PrintValue(x) + (x.before + [','] + s)) == Next(x.name, x.value, s)
  {
    var t := x.before + [','] + s;
    QuotedItem(x, t);
    assert t == x.before + ([','] + s);
    TrimBlanks(x.before, [','] + s);
    assert Trim(t) == [','] + s && ([','] + s)[1..] == s;
  }

  lemma {:induction false} BareThenComma(x: Item, s: string)
    requires Printable(x) && !x.quoted
    ensures ValueToken(x.name, PrintValue(x) + (x.before + [','] + s)) ==
            Next(x.name, x.value, if x.before == [] then s else [','] + s)
  {
    var t := x.before + [','] + s;
    BareAtComma(x.before, s);
    BareItem(x, t);
  }

  /** The text after an unquoted value. */
  lemma {:induction false} BareAtComma(before: string, s: string)
    requires AllBlank(before)
    ensures Bare(before + [','] + s) == Piece([], if before == [] then s else [','] + s, true)
  {
    var t := before + [','] + s;
    assert t == before + ([','] + s);
    if before == [] {
      assert t == [','] + s && t[1..] == s;
    } else {
      TrimBlanks(before, [','] + s);
      assert t[0] == before[0];
    }
  }

  /** A comma that directly follows an item, or follows a quoted one after blanks, is consumed. Otherwise it becomes the
      head of the next name. */
  lemma {:induction false} ItemThenComma(x: Item, s: string)
    requires Printable(x)
    ensures Parse(PrintItem(x) + (x.before + [','] + s)) ==
            Prepend(x.name, x.value, Parse(if x.quoted || x.before == [] then s else [','] + s))
  {
    ParseItem(x, x.before + [','] + s);
    if x.quoted {
      QuotedThenComma(x, s);
    } else {
      BareThenComma(x, s);
    }
  }

  /** What else follows a value, where it is closed: only a comma may. */
  lemma {:induction false} ItemThenOther(x: Item, c: char, s: string)
    requires Printable(x) && c != ',' && !Blank(c) && (x.quoted || x.before != [])
    ensures Parse(PrintItem(x) + (x.before + [c] + s)) == Err(MissingComma(x.name))
  {
    var t := x.before + [c] + s;
    assert t == x.before + ([c] + s);
    TrimBlanks(x.before, [c] + s);
    ParseItem(x, t);
    if x.quoted {
      QuotedItem(x, t);
    } else {
      assert t[0] == x.before[0];
      BareItem(x, t);
    }
  }

  /** So the text after a setting may be read on exactly if it starts with a comma. */
  lemma {:induction false} SeparatorExactly(x: Item, c: char, s: string)
    requires Printable(x) && !Blank(c) && (x.quoted || x.before != []) && Parse(s).Ok? && Parse([','] + s).Ok?
    ensures Parse(PrintItem(x) + (x.before + [c] + s)).Ok? <==> c == ','
  {
    if c == ',' {
      ItemThenComma(x, s);
    } else {
      ItemThenOther(x, c, s);
    }
  }

  lemma {:induction false} InsideOpen(v: string)
    ensures !Inside(Escape(true, v)).ok
  {
    if v != [] {
      InsideOpen(v[1..]);
      EscapedHead(true, v, []);
      assert Escape(true, v) + [] == Escape(true, v) && Escape(true, v[1..]) + [] == Escape(true, v[1..]);
      InsideTakes(Escape(true, v), v[0], Escape(true, v[1..]));
    }
  }

  /** A quoted value must be closed. */
  lemma {:induction false} OpenQuote(name: string, v: string)
    requires name != [] && NoBlank(name)
    ensures Parse(name + [' '] + (['\''] + Escape(true, v))) == Err(Unterminated)
  {
    var q := ['\''] + Escape(true, v);
    NameThen(name, q);
    assert q[1..] == Escape(true, v);
    InsideOpen(v);
  }

  /** A setting must have a value: one that is not quoted may not be empty. */
  lemma {:induction false} NoValue(name: string, s: string)
    requires name != [] && NoBlank(name) && (s == [] || s[0] == ',')
    ensures Parse(name + [' '] + s) == Err(MissingValue(name))
  {
    NameThen(name, s);
  }

  lemma {:induction false} NameThen(name: string, v: string)
    requires name != [] && NoBlank(name) && Trim(v) == v
    ensures Parse(name + [' '] + v) == match ValueToken(name, v)
                                       case Fail(e) => Err(e)
                                       case Next(n, value, rest) => Prepend(n, value, Parse(rest))
  {
    var t := name + [' '] + v;
    assert t == name + ([' '] + v) && t[0] == name[0];
    WordOf(name, [' '] + v);
    assert t[|name|..] == [' '] + v && t[..|name|] == name;
    assert ([' '] + v)[1..] == v;
  }

  lemma {:induction false} LastItem(x: Item)
    requires Printable(x)
    ensures Parse(PrintItem(x)) == Ok([Setting(x.name, Some(x.value))])
  {
    assert PrintItem(x) + [] == PrintItem(x);
    ParseItem(x, []);
    if x.quoted {
      QuotedItem(x, []);
    } else {
      BareItem(x, []);
    }
  }

  /** Parsing undoes printing, quoted or not, as long as no blank stands between an unquoted value and its comma. */
  lemma {:induction false} ParsePrint(xs: seq<Item>)
    requires forall i :: 0 <= i < |xs| ==> Printable(xs[i]) && (xs[i].quoted || xs[i].before == [])
    ensures Parse(Print(xs)) == Ok(Settings(xs))
  {
    if |xs| == 1 {
      LastItem(xs[0]);
    } else if |xs| > 1 {
      ParsePrint(xs[1..]);
      ParseBlanks(xs[0].after, Print(xs[1..]));
      ItemThenComma(xs[0], xs[0].after + Print(xs[1..]));
    }
  }

  /** The name that a list starts with. */
  lemma {:induction false} FirstName(s: string)
    requires Parse(s).Ok? && Trim(s) != []
    ensures Parse(s).settings != [] && Parse(s).settings[0].name == Trim(s)[..Word(Trim(s))]
  {
  }

  lemma {:induction false} WordOfComma(s: string)
    ensures Word([','] + s) == 1 + Word(s)
  {
    assert ([','] + s)[1..] == s;
  }

  /** A list that starts with a comma never parses like the same list without it. */
  lemma {:induction false} LeadingCommaShows(s: string)
    requires Parse(s).Ok? && Parse([','] + s).Ok?
    ensures Parse([','] + s) != Parse(s)
  {
    var t := [','] + s;
    assert Trim(t) == t;
    FirstName(t);
    WordOfComma(s);
    if Trim(s) != [] {
      FirstName(s);
      if Blank(s[0]) {
        LonelyComma(s);
      }
    }
  }

  /** A comma alone as a name needs a value that does not start with a comma. */
  lemma {:induction false} LonelyComma(s: string)
    requires s != [] && Blank(s[0]) && Trim(s) != [] && Parse([','] + s).Ok?
    ensures Trim(s)[0] != ','
  {
    var t := [','] + s;
    assert Trim(t) == t && t[1..] == s;
    WordOfComma(s);
    assert FirstToken(t).Next?;
    assert t[Word(t)..] == s;
  }

  /** The separator of an unquoted item works exactly when no blank precedes its comma: with a blank, the list that
      follows is read with a comma glued to its first name, and that is always a different list or an error. */
  lemma {:induction false} BareSeparatorExactly(x: Item, s: string)
    requires Printable(x) && !x.quoted && Parse(s).Ok?
    ensures Parse(PrintItem(x) + (x.before + [','] + s)) == Prepend(x.name, x.value, Parse(s)) <==> x.before == []
  {
    ItemThenComma(x, s);
    if x.before != [] && Parse([','] + s).Ok? {
      LeadingCommaShows(s);
      PrependInjective(x.name, x.value, Parse([','] + s), Parse(s));
    }
  }

  lemma {:induction false} PrependInjective(name: string, value: string, a: Parsed, b: Parsed)
    requires a.Ok? && b.Ok? && a != b
    ensures Prepend(name, value, a) != Prepend(name, value, b)
  {
    var h := [Setting(name, Some(value))];
    assert (h + a.settings)[1..] == a.settings && (h + b.settings)[1..] == b.settings;
  }

  /** For instance. */
  lemma {:induction false} SwallowedComma(s: string, a: Item, b: Item)
    requires s == "a 1 ,b 2" && a == Item("a", "1", false, " ", "") && b == Item(",b", "2", false, "", "")
    ensures Parse(s) == Ok([Setting(a.name, Some(a.value)), Setting(b.name, Some(b.value))])
  {
    SwallowedParts(s, a, b);
    CommaJoinsName(a, b, s[5..]);
  }

  /** The comma after a blank and what follows it read as a setting. */
  lemma {:induction false} CommaJoinsName(a: Item, b: Item, t: string)
    requires Printable(a) && Printable(b) && !a.quoted && a.before != [] && [','] + t == PrintItem(b)
    ensures Parse(PrintItem(a) + (a.before + [','] + t)) ==
            Ok([Setting(a.name, Some(a.value)), Setting(b.name, Some(b.value))])
  {
    ItemThenComma(a, t);
    LastItem(b);
    PrependTo(a.name, a.value, Parse([','] + t), Setting(b.name, Some(b.value)));
  }

  lemma {:induction false} PrependTo(name: string, value: string, r: Parsed, x: Setting)
    requires r == Ok([x])
    ensures Prepend(name, value, r) == Ok([Setting(name, Some(value)), x])
  {
  }

  lemma {:induction false} SwallowedParts(s: string, a: Item, b: Item)
    requires s == "a 1 ,b 2" && a == Item("a", "1", false, " ", "") && b == Item(",b", "2", false, "", "")
    ensures Printable(a) && Printable(b) && s == PrintItem(a) + (a.before + [','] + s[5..]) && [','] + s[5..] ==
            PrintItem(b)
  {
    PlainDigit(a);
    PlainDigit(b);
  }

  lemma {:induction false} PlainDigit(x: Item)
    requires !x.quoted && |x.value| == 1 && '0' <= x.value[0] <= '9'
    ensures PrintItem(x) == x.name + [' ', x.value[0]]
  {
    assert Escape(false, x.value[1..]) == [];
  }
}
