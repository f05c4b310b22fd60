/** How the two drivers send a query's settings and make their own win (src/http.c, src/binary/binary.c). */
module DriverSettings {
  import opened Values
  import opened OptionGrammar
  import opened SettingLayers

  // ---------- HTTP ----------

  /** snprintf into a 512-byte buffer. */
  function Snprintf(s: string): string {
    if |s| < 512 then s else s[..511]
  }

  function Text(x: Setting): string
    requires x.value.Some?
  {
    x.name + ['='] + x.value.value
  }

  predicate AllSome(list: seq<Setting>) {
    forall i :: 0 <= i < |list| ==> list[i].value.Some?
  }

  /** The settings that no override replaces. */
  function Surviving(settings: seq<Setting>, overrides: seq<Setting>): (r: seq<Setting>)
    ensures forall x :: x in r <==> x in settings && Get(overrides, x.name).None?
  {
    if settings == [] then []
    else
      var n := |settings| - 1;
      var rest := Surviving(settings[..n], overrides);
      assert forall x :: x in settings <==> x in settings[..n] || x == settings[n];
      if Get(overrides, settings[n].name).Some? then rest else rest + [settings[n]]
  }

  function Params(list: seq<Setting>): seq<string>
    requires AllSome(list)
  {
    if list == [] then [] else Params(list[..|list| - 1]) + [Snprintf(Text(list[|list| - 1]))]
  }

  /** is_overridden. */
  method IsOverridden(overrides: seq<Setting>, name: string) returns (r: bool)
    ensures r == Get(overrides, name).Some?
  {
    var i := 0;
    while i < |overrides|
      invariant 0 <= i <= |overrides| && forall k :: 0 <= k < i ==> overrides[k].name != name
    {
      if overrides[i].name == name {
        return true;
      }
      i := i + 1;
    }
    return false;
  }

  /** The settings loops of setup_curl. */
  method QueryParams(settings: seq<Setting>, overrides: seq<Setting>) returns (params: seq<string>)
    requires AllSome(settings) && AllSome(overrides)
    ensures AllSome(Surviving(settings, overrides) + overrides)
    ensures params == Params(Surviving(settings, overrides) + overrides)
  {
    params := [];
    var i := 0;
    while i < |settings|
      invariant 0 <= i <= |settings| && AllSome(Surviving(settings[..i], overrides))
      invariant params == Params(Surviving(settings[..i], overrides))
    {
      assert settings[..i + 1][..i] == settings[..i];
      var skip := IsOverridden(overrides, settings[i].name);
      if !skip {
        params := params + [Snprintf(Text(settings[i]))];
      }
      i := i + 1;
    }
    assert settings[..i] == settings;
    params := AppendParams(Surviving(settings, overrides), params, overrides);
  }

  method AppendParams(ghost kept: seq<Setting>, params: seq<string>, overrides: seq<Setting>) returns (r: seq<string>)
    requires AllSome(kept) && params == Params(kept) && AllSome(overrides)
    ensures AllSome(kept + overrides) && r == Params(kept + overrides)
  {
    r := params;
    var i := 0;
    assert kept + overrides[..0] == kept;
    while i < |overrides|
      invariant 0 <= i <= |overrides| && AllSome(kept + overrides[..i]) && r == Params(kept + overrides[..i])
    {
      ParamsSnoc(kept + overrides[..i], overrides[i]);
      assert kept + overrides[..i + 1] == kept + overrides[..i] + [overrides[i]];
      r := r + [Snprintf(Text(overrides[i]))];
      i := i + 1;
    }
    assert overrides[..i] == overrides;
  }

  lemma {:induction false} ParamsSnoc(list: seq<Setting>, x: Setting)
    requires AllSome(list) && x.value.Some?
    ensures AllSome(list + [x]) && Params(list + [x]) == Params(list) + [Snprintf(Text(x))]
  {
    assert (list + [x])[..|list|] == list;
  }

  /** A server reads a parameter up to its first '=' as a name and the rest as a value. */
  function ReadParam(p: string): Setting {
    if p == [] then Setting([], None)
    else if p[0] == '=' then Setting([], Some(p[1..]))
    else var r := ReadParam(p[1..]); r.(name := [p[0]] + r.name)
  }

  lemma {:induction false} ReadText(name: string, value: string)
    requires '=' !in name
    ensures ReadParam(name + ['='] + value) == Setting(name, Some(value))
  {
    var p := name + ['='] + value;
    if name == [] {
      assert p[1..] == value;
    } else {
      assert p[1..] == name[1..] + ['='] + value;
      ReadText(name[1..], value);
      assert [name[0]] + name[1..] == name;
    }
  }

  lemma {:induction false} ReadNameOnly(p: string)
    requires '=' !in p
    ensures ReadParam(p) == Setting(p, None)
  {
    if p != [] {
      ReadNameOnly(p[1..]);
      assert [p[0]] + p[1..] == p;
    }
  }

  /** Reading can be undone: a name is what stands before the first '='. */
  lemma {:induction false} ReadBack(p: string)
    ensures '=' !in ReadParam(p).name
    ensures ReadParam(p).value.Some? ==> p == ReadParam(p).name + ['='] + ReadParam(p).value.value
  {
    if p != [] && p[0] != '=' {
      ReadBack(p[1..]);
      assert p == [p[0]] + p[1..];
    }
  }

  /** A setting reaches the server whole exactly when it fits the buffer and its name holds no '='. A longer one is cut,
      and a name with '=' is split, without an error. */
  lemma {:induction false} FitsExactly(x: Setting)
    requires x.value.Some?
    ensures ReadParam(Snprintf(Text(x))) == x <==> '=' !in x.name && |x.name| + 1 + |x.value.value| < 512
  {
    ReadBack(Snprintf(Text(x)));
    if '=' !in x.name {
      ReadText(x.name, x.value.value);
    }
  }

  /** What arrives of one that is too long: as much of its value as the buffer leaves room for. */
  lemma {:induction false} CutShort(x: Setting)
    requires x.value.Some? && '=' !in x.name && |x.name| < 511 && |x.name| + 1 + |x.value.value| >= 512
    ensures ReadParam(Snprintf(Text(x))) == Setting(x.name, Some(x.value.value[..510 - |x.name|]))
  {
    var v := x.value.value[..510 - |x.name|];
    assert Snprintf(Text(x)) == x.name + ['='] + v;
    ReadText(x.name, v);
  }

  /** No parameter at all is read as a setting that does not fit or has '=' in its name. */
  lemma {:induction false} NeverRead(x: Setting, y: Setting)
    requires x.value.Some? && y.value.Some? && ReadParam(Snprintf(Text(y))) == x
    ensures '=' !in x.name && |x.name| + 1 + |x.value.value| < 512
  {
    ReadBack(Snprintf(Text(y)));
  }

  /** Where a name with '=' is split. */
  lemma {:induction false} SplitName(name: string, more: string, value: string)
    requires '=' !in name
    ensures ReadParam(Text(Setting(name + ['='] + more, Some(value)))) == Setting(name, Some(more + ['='] + value))
  {
    assert Text(Setting(name + ['='] + more, Some(value))) == name + ['='] + (more + ['='] + value);
    ReadText(name, more + ['='] + value);
  }

  function Received(params: seq<string>): seq<Setting> {
    if params == [] then [] else Received(params[..|params| - 1]) + [ReadParam(params[|params| - 1])]
  }

  lemma {:induction false} ReceivedParams(list: seq<Setting>)
    requires AllSome(list) && forall i :: 0 <= i < |list| ==> '=' !in list[i].name && |Text(list[i])| < 512
    ensures Received(Params(list)) == list
  {
    if list != [] {
      var n := |list| - 1;
      ReceivedParams(list[..n]);
      assert Params(list)[..|Params(list)| - 1] == Params(list[..n]);
      FitsExactly(list[n]);
      assert list == list[..n] + [list[n]];
    }
  }

  lemma {:induction false} SurvivingGet(settings: seq<Setting>, overrides: seq<Setting>, name: string)
    ensures Last(Surviving(settings, overrides), name) ==
            if Get(overrides, name).Some? then None else Last(settings, name)
  {
    if settings != [] {
      var n := |settings| - 1;
      SurvivingGet(settings[..n], overrides, name);
      var r := Surviving(settings, overrides);
      if Get(overrides, settings[n].name).None? {
        assert r[..|r| - 1] == Surviving(settings[..n], overrides);
      }
    }
  }

  lemma {:induction false} SurvivingUnique(settings: seq<Setting>, overrides: seq<Setting>)
    requires Unique(settings)
    ensures Unique(Surviving(settings, overrides))
  {
    if settings != [] {
      SurvivingUnique(settings[..|settings| - 1], overrides);
    }
  }

  lemma {:induction false} LastConcat(a: seq<Setting>, b: seq<Setting>, name: string)
    ensures Last(a + b, name) == Or(Last(b, name), Last(a, name))
  {
    if b == [] {
      assert a + b == a;
    } else {
      assert (a + b)[..|a + b| - 1] == a + b[..|b| - 1];
      LastConcat(a, b[..|b| - 1], name);
    }
  }

  lemma {:induction false} LastIsGet(list: seq<Setting>, name: string)
    requires Unique(list)
    ensures Last(list, name) == Get(list, name)
  {
    if list != [] {
      GetLast(list, name);
      LastIsGet(list[..|list| - 1], name);
    }
  }

  /** A setting that survives being sent over HTTP. */
  predicate Sendable(x: Setting) {
    x.value.Some? && '=' !in x.name && |x.name| + 1 + |x.value.value| < 512
  }

  /** What the server gets is each name once, with the driver's own value if it has one and otherwise the user's. */
  ghost predicate OwnWins(settings: seq<Setting>, overrides: seq<Setting>, got: seq<Setting>) {
    Unique(got) && forall name :: Get(got, name) == Or(Get(overrides, name), Get(settings, name))
  }

  lemma {:induction false} SendableWins(settings: seq<Setting>, overrides: seq<Setting>, name: string)
    requires Unique(settings) && Unique(overrides)
    requires forall x :: x in Surviving(settings, overrides) + overrides ==> Sendable(x)
    ensures AllSome(Surviving(settings, overrides) + overrides)
    ensures var got := Received(Params(Surviving(settings, overrides) + overrides));
            Unique(got) && Get(got, name) == Or(Get(overrides, name), Get(settings, name))
  {
    var kept := Surviving(settings, overrides);
    SurvivingUnique(settings, overrides);
    var all := kept + overrides;
    assert AllSome(all) && Unique(all) by {
      forall i | 0 <= i < |all| ensures all[i].value.Some? {
        assert all[i] in all;
      }
      forall i | 0 <= i < |kept| ensures Get(overrides, kept[i].name).None? {
        assert kept[i] in kept;
      }
    }
    forall i | 0 <= i < |all| ensures '=' !in all[i].name && |Text(all[i])| < 512 {
      assert all[i] in all;
    }
    ReceivedParams(all);
    LastIsGet(all, name);
    LastConcat(kept, overrides, name);
    SurvivingGet(settings, overrides, name);
    LastIsGet(settings, name);
    LastIsGet(overrides, name);
  }

  /** Everything received is some parameter as the server reads it. */
  lemma {:induction false} ReceivedFrom(list: seq<Setting>, x: Setting)
    requires AllSome(list) && x in Received(Params(list))
    ensures exists y :: y in list && ReadParam(Snprintf(Text(y))) == x
  {
    if list != [] {
      var n := |list| - 1;
      assert Params(list)[..|Params(list)| - 1] == Params(list[..n]);
      if x in Received(Params(list[..n])) {
        ReceivedFrom(list[..n], x);
        var y :| y in list[..n] && ReadParam(Snprintf(Text(y))) == x;
        assert y in list;
      } else {
        assert list[n] in list;
      }
    }
  }

  /** The driver's own settings win, and each name arrives once, exactly when every user setting that is sent fits the
      buffer and has no '=' in its name. */
  lemma {:induction false} HttpOwnWins(settings: seq<Setting>, overrides: seq<Setting>)
    requires AllSome(settings) && Unique(settings) && Unique(overrides)
    requires forall x :: x in overrides ==> Sendable(x)
    ensures AllSome(Surviving(settings, overrides) + overrides)
    ensures OwnWins(settings, overrides, Received(Params(Surviving(settings, overrides) + overrides))) <==>
            forall x :: x in Surviving(settings, overrides) ==> Sendable(x)
  {
    var kept := Surviving(settings, overrides);
    var all := kept + overrides;
    forall i | 0 <= i < |all| ensures all[i].value.Some? {
      assert all[i] in kept || all[i] in overrides;
    }
    var got := Received(Params(all));
    if forall x :: x in kept ==> Sendable(x) {
      forall name ensures Unique(got) && Get(got, name) == Or(Get(overrides, name), Get(settings, name)) {
        SendableWins(settings, overrides, name);
      }
      SendableWins(settings, overrides, "");
    } else {
      var x :| x in kept && !Sendable(x);
      UniqueGet(settings, x);
      if Get(got, x.name) == Some(x) {
        assert x in got;
        ReceivedFrom(all, x);
        var y :| y in all && ReadParam(Snprintf(Text(y))) == x;
        NeverRead(x, y);
      }
    }
  }

  lemma {:induction false} UniqueGet(list: seq<Setting>, x: Setting)
    requires Unique(list) && x in list
    ensures Get(list, x.name) == Some(x)
  {
    var i :| 0 <= i < |list| && list[i] == x;
    FindIs(list, x.name, i);
  }

  /** A user setting `t=x` is not taken for the driver's own `t`, and the server gets `t` twice. */
  lemma {:induction false} EqualsSlips(x: Setting, own: Setting, more: string)
    requires Sendable(own) && x.value.Some? && x.name == own.name + ['='] + more && |Text(x)| < 512
    ensures Surviving([x], [own]) == [x]
    ensures ReadParam(Snprintf(Text(x))) == Setting(own.name, Some(more + ['='] + x.value.value))
    ensures ReadParam(Snprintf(Text(own))) == own
  {
    SplitName(own.name, more, x.value.value);
    FitsExactly(own);
    assert |x.name| > |own.name|;
    NotAmong(own, x.name);
    assert [x][..0] == [] && Surviving([], [own]) == [];
  }

  lemma {:induction false} NotAmong(x: Setting, name: string)
    requires x.name != name
    ensures Get([x], name) == None
  {
    FindIs([x], name, 1);
  }

  // ---------- binary ----------

  /** The driver's own settings, by server version. */
  function Own(v: Version, timezone: string): seq<Setting> {
    (if VersionGe(v, 24, 10) then [Setting("output_format_native_write_json_as_string", Some("1"))] else []) +
    (if VersionGe(v, 23, 6) then [Setting("session_timezone", Some(timezone))] else [])
  }

  /** The server's JSON as text from 24.10 on, and the session's time zone from 23.6 on. */
  lemma {:induction false} OwnExactly(v: Version, timezone: string, name: string)
    ensures Unique(Own(v, timezone))
    ensures Last(Own(v, timezone), name) ==
            if name == "session_timezone" && VersionGe(v, 23, 6) then Some(Setting(name, Some(timezone)))
            else if name == "output_format_native_write_json_as_string" && VersionGe(v, 24, 10)
            then Some(Setting(name, Some("1")))
            else None
  {
    var json, tz := "output_format_native_write_json_as_string", "session_timezone";
    assert |json| != |tz|;
    var own := Own(v, timezone);
    if own != [] {
      assert Last(own[..|own| - 1], name) == if |own| > 1 && own[0].name == name then Some(own[0]) else None;
    }
  }

  /** ch_binary_query_settings: an array counted first and filled by index, the driver's own settings last. */
  method BinaryQuerySettings(settings: seq<Setting>, v: Version, timezone: string) returns (sent: array<Setting>)
    ensures fresh(sent) && sent[..] == settings + Own(v, timezone)
  {
    var json, tz := VersionGe(v, 24, 10), VersionGe(v, 23, 6);
    var n := |settings| + (if json then 1 else 0) + (if tz then 1 else 0);
    sent := new Setting[n](_ => Setting("", None));
    var i := 0;
    while i < |settings|
      invariant 0 <= i <= |settings| && sent[..i] == settings[..i]
    {
      sent[i] := settings[i];
      i := i + 1;
    }
    if json {
      sent[i] := Setting("output_format_native_write_json_as_string", Some("1"));
      i := i + 1;
    }
    if tz {
      sent[i] := Setting("session_timezone", Some(timezone));
    }
    assert sent[..|settings|] == settings;
    assert sent[..] == sent[..|settings|] + sent[|settings|..];
  }

  /** The server keeps the last value it is sent for a name, so the driver's own wins. */
  lemma {:induction false} BinaryOwnWins(settings: seq<Setting>, v: Version, timezone: string, name: string)
    requires Unique(settings)
    ensures Last(settings + Own(v, timezone), name) == Or(Last(Own(v, timezone), name), Get(settings, name))
  {
    LastConcat(settings, Own(v, timezone), name);
    LastIsGet(settings, name);
  }
}
