/** Which settings a query is sent with: layers that override one another, and tables that may disagree
    (src/settings.c). */
module SettingLayers {
  import opened Values
  import opened OptionGrammar

  // ---------- lists as maps ----------

  /** The position of the first setting of this name, or the length of the list. */
  function Find(list: seq<Setting>, name: string): (i: nat)
    ensures i <= |list| && (i < |list| ==> list[i].name == name)
    ensures forall k :: 0 <= k < i ==> list[k].name != name
  {
    if list == [] || list[0].name == name then 0 else 1 + Find(list[1..], name)
  }

  function Get(list: seq<Setting>, name: string): Option<Setting> {
    if Find(list, name) < |list| then Some(list[Find(list, name)]) else None
  }

  /** The last setting of this name. */
  function Last(list: seq<Setting>, name: string): Option<Setting> {
    if list == [] then None
    else if list[|list| - 1].name == name then Some(list[|list| - 1])
    else Last(list[..|list| - 1], name)
  }

  predicate Unique(list: seq<Setting>) {
    forall i, j :: 0 <= i < j < |list| ==> list[i].name != list[j].name
  }

  /** The inner loops over the list. */
  method Search(list: seq<Setting>, name: string) returns (i: nat)
    ensures i == Find(list, name)
  {
    i := 0;
    while i < |list| && list[i].name != name
      invariant 0 <= i <= |list| && forall k :: 0 <= k < i ==> list[k].name != name
    {
      i := i + 1;
    }
  }

  // ---------- overlay ----------

  function Put(list: seq<Setting>, x: Setting): seq<Setting> {
    if Find(list, x.name) < |list| then list[Find(list, x.name) := x] else list + [x]
  }

  function OverlaySpec(base: seq<Setting>, settings: seq<Setting>): seq<Setting> {
    if settings == [] then base else Put(OverlaySpec(base, settings[..|settings| - 1]), settings[|settings| - 1])
  }

  method Overlay(base: seq<Setting>, settings: seq<Setting>) returns (r: seq<Setting>)
    ensures r == OverlaySpec(base, settings)
  {
    r := base;
    var i := 0;
    while i < |settings|
      invariant 0 <= i <= |settings| && r == OverlaySpec(base, settings[..i])
    {
      var at := Search(r, settings[i].name);
      assert settings[..i + 1][..i] == settings[..i];
      if at < |r| {
        r := r[at := settings[i]];
      } else {
        r := r + [settings[i]];
      }
      i := i + 1;
    }
    assert settings[..i] == settings;
  }

  /** Find is the only position with its property. */
  lemma {:induction false} FindIs(list: seq<Setting>, name: string, i: nat)
    requires i <= |list| && (i < |list| ==> list[i].name == name)
    requires forall k :: 0 <= k < i ==> list[k].name != name
    ensures Find(list, name) == i
  {
  }

  lemma {:induction false} PutGet(list: seq<Setting>, x: Setting, name: string)
    ensures Get(Put(list, x), name) == if name == x.name then Some(x) else Get(list, name)
    ensures Unique(list) ==> Unique(Put(list, x))
  {
    var i, r := Find(list, x.name), Put(list, x);
    if name == x.name {
      FindIs(r, name, i);
    } else {
      var k := Find(list, name);
      FindIs(r, name, if k == |list| then |r| else k);
    }
  }

  /** The overlaid layer wins with its last value for each name; the base shows through elsewhere. */
  lemma {:induction false} OverlayGet(base: seq<Setting>, settings: seq<Setting>, name: string)
    ensures Get(OverlaySpec(base, settings), name) ==
            if Last(settings, name).Some? then Last(settings, name) else Get(base, name)
    ensures Unique(base) ==> Unique(OverlaySpec(base, settings))
  {
    if settings != [] {
      var n := |settings| - 1;
      OverlayGet(base, settings[..n], name);
      PutGet(OverlaySpec(base, settings[..n]), settings[n], name);
    }
  }

  /** chfdw_table_settings: a table's list keeps the last value of each name. */
  lemma {:induction false} TableSettings(settings: seq<Setting>)
    requires forall i :: 0 <= i < |settings| ==> settings[i].value.Some?
    ensures TableList(OverlaySpec([], settings))
    ensures forall name :: Get(OverlaySpec([], settings), name) == Last(settings, name)
  {
    forall name ensures Get(OverlaySpec([], settings), name) == Last(settings, name) {
      OverlayGet([], settings, name);
    }
    OverlayGet([], settings, "");
    OverlayValues(settings);
  }

  lemma {:induction false} OverlayValues(settings: seq<Setting>)
    requires forall i :: 0 <= i < |settings| ==> settings[i].value.Some?
    ensures forall x :: x in OverlaySpec([], settings) ==> x.value.Some?
  {
    if settings != [] {
      OverlayValues(settings[..|settings| - 1]);
    }
  }

  // ---------- merging tables ----------

  /** What a set of tables says about one name. */
  datatype Stance = Absent | Agreed(value: string) | Conflict

  /** A setting without a value marks a conflict. */
  function StanceOf(x: Option<Setting>): Stance {
    match x
    case None => Absent
    case Some(Setting(_, None)) => Conflict
    case Some(Setting(_, Some(v))) => Agreed(v)
  }

  function Stands(list: seq<Setting>, name: string): Stance {
    StanceOf(Get(list, name))
  }

  function Join(a: Stance, b: Stance): Stance {
    if a == Absent then b else if b == Absent || a == b then a else Conflict
  }

  function MergeOne(list: seq<Setting>, x: Setting): seq<Setting> {
    var i := Find(list, x.name);
    if i == |list| then list + [x]
    else if list[i].value != x.value then list[i := Setting(x.name, None)]
    else list
  }

  function MergeSpec(a: seq<Setting>, b: seq<Setting>): seq<Setting> {
    if b == [] then a else MergeOne(MergeSpec(a, b[..|b| - 1]), b[|b| - 1])
  }

  /** chfdw_merge_settings. */
  method MergeSettings(a: seq<Setting>, b: seq<Setting>) returns (merged: seq<Setting>)
    ensures merged == MergeSpec(a, b)
  {
    merged := a;
    var i := 0;
    while i < |b|
      invariant 0 <= i <= |b| && merged == MergeSpec(a, b[..i])
    {
      var at := Search(merged, b[i].name);
      assert b[..i + 1][..i] == b[..i];
      if at == |merged| {
        merged := merged + [b[i]];
      } else if merged[at].value != b[i].value {
        merged := merged[at := Setting(b[i].name, None)];
      }
      i := i + 1;
    }
    assert b[..i] == b;
  }

  lemma {:induction false} MergeOneStands(list: seq<Setting>, x: Setting, name: string)
    ensures Stands(MergeOne(list, x), name) ==
            if name == x.name then Join(Stands(list, name), StanceOf(Some(x))) else Stands(list, name)
    ensures Unique(list) ==> Unique(MergeOne(list, x))
  {
    var i, r := Find(list, x.name), MergeOne(list, x);
    if name == x.name {
      FindIs(r, name, i);
    } else {
      var k := Find(list, name);
      FindIs(r, name, if k == |list| then |r| else k);
    }
  }

  lemma {:induction false} GetLast(list: seq<Setting>, name: string)
    requires list != [] && Unique(list)
    ensures Unique(list[..|list| - 1])
    ensures var n := |list| - 1; Get(list, name) == if name == list[n].name then Some(list[n]) else Get(list[..n], name)
    ensures name == list[|list| - 1].name ==> Get(list[..|list| - 1], name) == None
  {
    var n := |list| - 1;
    if name == list[n].name {
      FindIs(list, name, n);
      FindIs(list[..n], name, n);
    } else {
      var k := Find(list[..n], name);
      assert forall j :: 0 <= j < k ==> list[j] == list[..n][j];
      FindIs(list, name, if k == n then n + 1 else k);
    }
  }

  /** Name by name, merging is the join of a lattice in which a conflict absorbs. */
  lemma {:induction false} MergeStands(a: seq<Setting>, b: seq<Setting>, name: string)
    requires Unique(a) && Unique(b)
    ensures Unique(MergeSpec(a, b)) && Stands(MergeSpec(a, b), name) == Join(Stands(a, name), Stands(b, name))
  {
    if b == [] {
      assert Stands(b, name) == Absent;
    } else {
      var n := |b| - 1;
      GetLast(b, name);
      MergeStands(a, b[..n], name);
      MergeOneStands(MergeSpec(a, b[..n]), b[n], name);
    }
  }

  /** The settings of all tables of a query, folded as they are met. */
  function MergeAll(tables: seq<seq<Setting>>): seq<Setting> {
    if tables == [] then [] else MergeSpec(MergeAll(tables[..|tables| - 1]), tables[|tables| - 1])
  }

  /** A table's own list: unique names, each with a value. */
  predicate TableList(list: seq<Setting>) {
    Unique(list) && forall i :: 0 <= i < |list| ==> list[i].value.Some?
  }

  ghost predicate Sets(tables: seq<seq<Setting>>, name: string, v: string) {
    exists i :: 0 <= i < |tables| && Stands(tables[i], name) == Agreed(v)
  }

  /** The merged stance says which values the tables set: none, exactly one, or several. This does not depend on the
      order of the tables or on how often each occurs. */
  lemma {:induction false} MergeAllStands(tables: seq<seq<Setting>>, name: string)
    requires forall i :: 0 <= i < |tables| ==> TableList(tables[i])
    ensures Unique(MergeAll(tables))
    ensures Stands(MergeAll(tables), name) == Absent <==> forall v :: !Sets(tables, name, v)
    ensures forall v :: Stands(MergeAll(tables), name) == Agreed(v) <==>
                        Sets(tables, name, v) && forall u :: Sets(tables, name, u) ==> u == v
    ensures Stands(MergeAll(tables), name) == Conflict <==> exists u, v ::
              u != v && Sets(tables, name, u) && Sets(tables, name, v)
  {
    if tables != [] {
      var n := |tables| - 1;
      var rest, last := tables[..n], tables[n];
      MergeAllStands(rest, name);
      MergeStands(MergeAll(rest), last, name);
      forall v ensures Sets(tables, name, v) <==> Sets(rest, name, v) || Stands(last, name) == Agreed(v) {
        SetsLast(tables, name, v);
      }
      assert Stands(last, name) != Conflict;
      var whole, part := Stands(MergeAll(tables), name), Stands(MergeAll(rest), name);
      if part.Agreed? {
        assert Sets(tables, name, part.value);
      }
      if Stands(last, name).Agreed? {
        assert Sets(tables, name, Stands(last, name).value);
      }
      if part.Conflict? {
        var u, v :| u != v && Sets(rest, name, u) && Sets(rest, name, v);
        assert Sets(tables, name, u) && Sets(tables, name, v);
      }
    }
  }

  lemma {:induction false} SetsLast(tables: seq<seq<Setting>>, name: string, v: string)
    requires tables != []
    ensures var n := |tables| - 1;
            Sets(tables, name, v) <==> Sets(tables[..n], name, v) || Stands(tables[n], name) == Agreed(v)
  {
    var n := |tables| - 1;
    if Sets(tables[..n], name, v) {
      var i :| 0 <= i < n && Stands(tables[..n][i], name) == Agreed(v);
      assert Stands(tables[i], name) == Agreed(v);
    }
    if Sets(tables, name, v) && Stands(tables[n], name) != Agreed(v) {
      var i :| 0 <= i < |tables| && Stands(tables[i], name) == Agreed(v);
      assert tables[..n][i] == tables[i];
    }
  }

  /** So two queries over the same tables, in any order, agree on every name. */
  lemma {:induction false} OrderIndependent(tables: seq<seq<Setting>>, others: seq<seq<Setting>>, name: string)
    requires forall i :: 0 <= i < |tables| ==> TableList(tables[i])
    requires forall t :: t in tables <==> t in others
    ensures Stands(MergeAll(tables), name) == Stands(MergeAll(others), name)
  {
    forall i | 0 <= i < |others| ensures TableList(others[i]) {
      assert others[i] in tables;
    }
    MergeAllStands(tables, name);
    MergeAllStands(others, name);
    forall v ensures Sets(tables, name, v) <==> Sets(others, name, v) {
      SameSets(tables, others, name, v);
      SameSets(others, tables, name, v);
    }
    if Stands(MergeAll(tables), name) == Conflict {
      var u, v :| u != v && Sets(tables, name, u) && Sets(tables, name, v);
      assert Sets(others, name, u) && Sets(others, name, v);
    }
  }

  lemma {:induction false} SameSets(tables: seq<seq<Setting>>, others: seq<seq<Setting>>, name: string, v: string)
    requires forall t :: t in tables ==> t in others
    ensures Sets(tables, name, v) ==> Sets(others, name, v)
  {
    if Sets(tables, name, v) {
      var i :| 0 <= i < |tables| && Stands(tables[i], name) == Agreed(v);
      assert tables[i] in others;
      var j :| 0 <= j < |others| && others[j] == tables[i];
    }
  }

  // ---------- the query's settings ----------

  datatype Version = Version(major: int, minor: int)

  datatype Known = Known(name: string, major: int, minor: int)

  function Defaults(): seq<Setting> {
    [Setting("join_use_nulls", Some("1")), Setting("group_by_use_nulls", Some("1")),
     Setting("final", Some("1")), Setting("transform_null_in", Some("0"))]
  }

  predicate VersionGe(v: Version, major: int, minor: int) {
    v.major > major || (v.major == major && v.minor >= minor)
  }

  /** Versions are ordered by major number, then by minor number. */
  lemma {:induction false} VersionOrder(v: Version, major: int, minor: int, bound: nat)
    requires 0 <= v.minor < bound && 0 <= minor < bound
    ensures VersionGe(v, major, minor) <==> v.major * bound + v.minor >= major * bound + minor
  {
    if v.major > major {
      assert v.major * bound >= (major + 1) * bound;
    } else if v.major < major {
      assert major * bound >= (v.major + 1) * bound;
    }
  }

  /** The row that names the setting, or the length of the table. */
  function Row(known: seq<Known>, name: string): (i: nat)
    ensures i <= |known| && (i < |known| ==> known[i].name == name)
    ensures forall k :: 0 <= k < i ==> known[k].name != name
  {
    if known == [] || known[0].name == name then 0 else 1 + Row(known[1..], name)
  }

  /** A server whose version is unknown (major 0) gets everything. */
  predicate Supported(known: seq<Known>, name: string, v: Version) {
    var i := Row(known, name);
    i == |known| || v.major == 0 || VersionGe(v, known[i].major, known[i].minor)
  }

  /** That is, no row that names it asks for a later version. */
  lemma {:induction false} SupportedExactly(known: seq<Known>, name: string, v: Version)
    requires forall i, j :: 0 <= i < j < |known| ==> known[i].name != known[j].name
    ensures Supported(known, name, v) <==>
            v.major == 0 || forall k :: k in known && k.name == name ==> VersionGe(v, k.major, k.minor)
  {
    var i := Row(known, name);
    if i < |known| {
      assert known[i] in known;
    }
  }

  function Keep(known: seq<Known>, list: seq<Setting>, v: Version): seq<Setting> {
    if list == [] then []
    else
      var n := |list| - 1;
      var rest := Keep(known, list[..n], v);
      if Supported(known, list[n].name, v) then rest + [list[n]] else rest
  }

  /** drop_unsupported. */
  method DropUnsupported(known: seq<Known>, settings: seq<Setting>, v: Version) returns (kept: seq<Setting>)
    ensures kept == Keep(known, settings, v)
  {
    kept := [];
    var k := 0;
    while k < |settings|
      invariant 0 <= k <= |settings| && kept == Keep(known, settings[..k], v)
    {
      var i := 0;
      while i < |known| && known[i].name != settings[k].name
        invariant 0 <= i <= |known| && forall j :: 0 <= j < i ==> known[j].name != settings[k].name
      {
        i := i + 1;
      }
      assert settings[..k + 1][..k] == settings[..k];
      if i == |known| || v.major == 0 || VersionGe(v, known[i].major, known[i].minor) {
        kept := kept + [settings[k]];
      }
      k := k + 1;
    }
    assert settings[..k] == settings;
  }

  lemma {:induction false} KeepGet(known: seq<Known>, list: seq<Setting>, v: Version, name: string)
    requires Unique(list)
    ensures Unique(Keep(known, list, v))
    ensures forall x :: x in Keep(known, list, v) ==> x in list
    ensures Get(Keep(known, list, v), name) == if Supported(known, name, v) then Get(list, name) else None
  {
    if list != [] {
      var n := |list| - 1;
      var rest := Keep(known, list[..n], v);
      KeepGet(known, list[..n], v, name);
      GetLast(list, name);
      assert forall x :: x in rest ==> x.name != list[n].name;
      if Supported(known, list[n].name, v) {
        assert Put(rest, list[n]) == rest + [list[n]];
        PutGet(rest, list[n], name);
      }
    }
  }

  /** The agreed values among merged table settings. */
  function Valued(tables: seq<Setting>): seq<Setting> {
    if tables == [] then []
    else
      var n := |tables| - 1;
      if tables[n].value.Some? then Valued(tables[..n]) + [tables[n]] else Valued(tables[..n])
  }

  lemma {:induction false} ValuedLast(tables: seq<Setting>, name: string)
    requires Unique(tables)
    ensures Last(Valued(tables), name) == if Stands(tables, name).Agreed? then Get(tables, name) else None
  {
    if tables != [] {
      var n := |tables| - 1;
      ValuedLast(tables[..n], name);
      GetLast(tables, name);
      if tables[n].value.Some? {
        assert Valued(tables)[..|Valued(tables)| - 1] == Valued(tables[..n]);
      }
    }
  }

  function Or(a: Option<Setting>, b: Option<Setting>): Option<Setting> {
    if a.Some? then a else b
  }

  /** Session over agreed table over server over default. */
  function Resolved(server: seq<Setting>, tables: seq<Setting>, session: seq<Setting>, name: string): Option<Setting> {
    Or(Last(session, name),
       Or(if Stands(tables, name).Agreed? then Get(tables, name) else None,
          Or(Last(server, name), Get(Defaults(), name))))
  }

  /** chfdw_query_settings. known lists the settings that came with a version. An absent server option is an empty list;
      both leave the defaults as they are. */
  method QuerySettings(known: seq<Known>, server: seq<Setting>, tables: seq<Setting>, session: seq<Setting>,
                       v: Version) returns (settings: seq<Setting>)
    requires Unique(tables)
    ensures Unique(settings)
    ensures forall name :: Get(settings, name) ==
                           if Supported(known, name, v) then Resolved(server, tables, session, name) else None
  {
    settings := Overlay(Defaults(), server);
    ghost var base := settings;
    var i := 0;
    while i < |tables|
      invariant 0 <= i <= |tables| && settings == OverlaySpec(base, Valued(tables[..i]))
    {
      assert tables[..i + 1][..i] == tables[..i];
      if tables[i].value.Some? {
        settings := Overlay(settings, [tables[i]]);
        OverlayOne(base, Valued(tables[..i]), tables[i]);
      }
      i := i + 1;
    }
    assert tables[..i] == tables;
    settings := Overlay(settings, session);
    ghost var all := settings;
    settings := DropUnsupported(known, settings, v);
    forall name
      ensures Unique(settings) && Get(settings, name) ==
              if Supported(known, name, v) then Resolved(server, tables, session, name) else None
    {
      LayersGet(server, tables, session, name);
      KeepGet(known, all, v, name);
    }
  }

  lemma {:induction false} OverlayOne(base: seq<Setting>, settings: seq<Setting>, x: Setting)
    ensures OverlaySpec(base, settings + [x]) == OverlaySpec(OverlaySpec(base, settings), [x])
  {
    assert (settings + [x])[..|settings|] == settings;
    var b := OverlaySpec(base, settings);
    assert [x][..0] == [] && OverlaySpec(b, []) == b;
  }

  lemma {:induction false} LayersGet(server: seq<Setting>, tables: seq<Setting>, session: seq<Setting>, name: string)
    requires Unique(tables)
    ensures var all := OverlaySpec(OverlaySpec(OverlaySpec(Defaults(), server), Valued(tables)), session);
            Unique(all) && Get(all, name) == Resolved(server, tables, session, name)
  {
    var base := OverlaySpec(Defaults(), server);
    var mid := OverlaySpec(base, Valued(tables));
    DefaultNames();
    OverlayGet(Defaults(), server, name);
    OverlayGet(base, Valued(tables), name);
    OverlayGet(mid, session, name);
    ValuedLast(tables, name);
  }

  /** What PostgreSQL's semantics need, where nothing overrides it. */
  lemma {:induction false} DefaultsStand(name: string)
    ensures Resolved([], [], [], name) ==
            if name in ["join_use_nulls", "group_by_use_nulls", "final"] then Some(Setting(name, Some("1")))
            else if name == "transform_null_in" then Some(Setting(name, Some("0")))
            else None
  {
    var d := Defaults();
    DefaultNames();
    assert Stands([], name) == Absent;
    var i := if name == d[0].name then 0 else if name == d[1].name then 1 else if name == d[2].name then 2
    else if name == d[3].name then 3 else 4;
    FindIs(d, name, i);
  }

  lemma {:induction false} DefaultNames()
    ensures Unique(Defaults())
  {
    var d := Defaults();
    assert |d[0].name| == 14 && |d[1].name| == 18 && |d[2].name| == 5 && |d[3].name| == 17;
  }
}
