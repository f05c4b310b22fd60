/** Subquery bodies: if every expression of a body agrees row by row, so do the rows returned. */
module Bodies {
  import opened Values
  import opened Postgres
  import opened ClickHouse

  lemma {:induction false} SelectElements<T>(s: seq<T>, flags: seq<bool>)
    requires |s| == |flags|
    ensures forall x :: x in Select(s, flags) <==> exists i :: 0 <= i < |s| && s[i] == x && flags[i]
  {
    if s != [] {
      SelectElements(s[1..], flags[1..]);
      forall x
        ensures x in Select(s, flags) <==> exists i :: 0 <= i < |s| && s[i] == x && flags[i]
      {
        if i :| 0 <= i < |s| && s[i] == x && flags[i] {
          if i > 0 {
            assert s[1..][i - 1] == x && flags[1..][i - 1];
          }
        }
        if x in Select(s[1..], flags[1..]) {
          var i :| 0 <= i < |s[1..]| && s[1..][i] == x && flags[1..][i];
          assert s[i + 1] == x && flags[i + 1];
        }
      }
    }
  }

  ghost predicate FromRows(g: seq<Row>, from: seq<FromItem>, w: World) {
    forall r :: r in g ==> r in Cross(from, w.db)
  }

  /** The quals keep the same rows. */
  ghost predicate QualsAgree(q: Query, cq: CQuery, w: World, params: map<nat, Val>, cenv: CEnv) {
    forall r :: r in Cross(q.from, w.db) ==>
      (Holds(q.quals, w, Env(r, [], params)) <==> CHolds(cq.where, w, Inside(cenv, cq.planId, r)))
  }

  ghost predicate KeysAgree(q: Query, cq: CQuery, w: World, params: map<nat, Val>, cenv: CEnv) {
    forall r :: r in Cross(q.from, w.db) ==>
      EvalAll(q.groupBy, w, Env(r, [], params)) == CEvalAll(cq.groupBy, w, Inside(cenv, cq.planId, r))
  }

  ghost predicate HavingAgrees(q: Query, cq: CQuery, w: World, params: map<nat, Val>, cenv: CEnv) {
    forall g :: FromRows(g, q.from, w) ==>
      (Holds(q.having, w, GroupEnv(g, params)) <==> CHolds(cq.having, w, InsideGroup(cenv, cq.planId, g)))
  }

  ghost predicate TargetAgrees(q: Query, cq: CQuery, w: World, params: map<nat, Val>, cenv: CEnv) {
    (forall r :: r in Cross(q.from, w.db) ==>
      Eval(q.target, w, Env(r, [], params)) == CEval(cq.target, w, Inside(cenv, cq.planId, r))) &&
    (forall g :: FromRows(g, q.from, w) ==>
      Eval(q.target, w, GroupEnv(g, params)) == CEval(cq.target, w, InsideGroup(cenv, cq.planId, g)))
  }

  lemma {:induction false} RowsAgree(q: Query, cq: CQuery, w: World, params: map<nat, Val>, cenv: CEnv)
    requires q.from == cq.from && QualsAgree(q, cq, w, params, cenv)
    ensures BodyRows(q, w, params) == CRows(cq, w, cenv)
    ensures FromRows(BodyRows(q, w, params), q.from, w)
  {
    var rows := Cross(q.from, w.db);
    assert seq(|rows|, i requires 0 <= i < |rows| => Holds(q.quals, w, Env(rows[i], [], params))) ==
           seq(|rows|, i requires 0 <= i < |rows| => CHolds(cq.where, w, Inside(cenv, cq.planId, rows[i])));
  }

  lemma {:induction false} GroupsAgree(q: Query, cq: CQuery, w: World, params: map<nat, Val>, cenv: CEnv)
    requires q.from == cq.from && |q.groupBy| == |cq.groupBy|
    requires QualsAgree(q, cq, w, params, cenv) && KeysAgree(q, cq, w, params, cenv)
    requires HavingAgrees(q, cq, w, params, cenv)
    ensures KeptGroups(q, w, params) == CKeptGroups(cq, w, cenv)
    ensures forall g :: g in KeptGroups(q, w, params) ==> FromRows(g, q.from, w)
  {
    RowsAgree(q, cq, w, params, cenv);
    var rows := BodyRows(q, w, params);
    forall i | 0 <= i < |rows| ensures GroupKeys(q, rows, w, params)[i] == CKeys(cq, rows, w, cenv)[i] {
      assert rows[i] in rows;
    }
    assert GroupKeys(q, rows, w, params) == CKeys(cq, rows, w, cenv);
    var groups := Groups(q, rows, GroupKeys(q, rows, w, params));
    assert groups == CGroups(cq, rows, CKeys(cq, rows, w, cenv));
    forall i | 0 <= i < |groups| ensures FromRows(groups[i], q.from, w) {
    }
    assert seq(|groups|, i requires 0 <= i < |groups| => Holds(q.having, w, GroupEnv(groups[i], params))) ==
           seq(|groups|, i requires 0 <= i < |groups| => CHolds(cq.having, w, InsideGroup(cenv, cq.planId, groups[i])));
  }

  /** The same values, in the same order. */
  lemma {:induction false} OutputsAgree(q: Query, cq: CQuery, w: World, params: map<nat, Val>, cenv: CEnv)
    requires q.from == cq.from && |q.groupBy| == |cq.groupBy| && IsGrouped(q) == CGrouped(cq)
    requires QualsAgree(q, cq, w, params, cenv) && KeysAgree(q, cq, w, params, cenv)
    requires HavingAgrees(q, cq, w, params, cenv)
    ensures |Output(q, w, params)| == |COutput(cq, w, cenv)|
    ensures TargetAgrees(q, cq, w, params, cenv) ==> Output(q, w, params) == COutput(cq, w, cenv)
  {
    if IsGrouped(q) {
      GroupsAgree(q, cq, w, params, cenv);
      var groups := KeptGroups(q, w, params);
      if TargetAgrees(q, cq, w, params, cenv) {
        forall i | 0 <= i < |groups| ensures Output(q, w, params)[i] == COutput(cq, w, cenv)[i] {
          assert groups[i] in groups;
        }
      }
    } else {
      RowsAgree(q, cq, w, params, cenv);
      var rows := BodyRows(q, w, params);
      if TargetAgrees(q, cq, w, params, cenv) {
        forall i | 0 <= i < |rows| ensures Output(q, w, params)[i] == COutput(cq, w, cenv)[i] {
          assert rows[i] in rows;
        }
      }
    }
  }

  /** Adding "output IS NULL" to the quals of a per-row body asks whether it returns a NULL. */
  lemma {:induction false} NullProbeAsks(q: Query, cq: CQuery, w: World, params: map<nat, Val>, cenv: CEnv)
    requires q.from == cq.from && !IsGrouped(q) && !CGrouped(cq)
    requires forall r :: r in Cross(q.from, w.db) ==>
               (CHolds(cq.where, w, Inside(cenv, cq.planId, r)) <==>
                Holds(q.quals, w, Env(r, [], params)) && Eval(q.target, w, Env(r, [], params)) == Null)
    ensures COutput(cq, w, cenv) != [] <==> Null in Output(q, w, params)
  {
    var kept, ckept := BodyRows(q, w, params), CRows(cq, w, cenv);
    BodyRowsElements(q, w, params);
    CRowsElements(cq, w, cenv);
    if ckept != [] {
      assert ckept[0] in ckept && ckept[0] in kept;
      var k :| 0 <= k < |kept| && kept[k] == ckept[0];
      assert Output(q, w, params)[k] == Null;
    }
    if Null in Output(q, w, params) {
      var k :| 0 <= k < |kept| && Output(q, w, params)[k] == Null;
      assert kept[k] in kept && kept[k] in ckept;
    }
  }

  lemma {:induction false} BodyRowsElements(q: Query, w: World, params: map<nat, Val>)
    ensures forall r :: r in BodyRows(q, w, params) <==>
              r in Cross(q.from, w.db) && Holds(q.quals, w, Env(r, [], params))
  {
    var rows := Cross(q.from, w.db);
    SelectElements(rows, seq(|rows|, i requires 0 <= i < |rows| => Holds(q.quals, w, Env(rows[i], [], params))));
  }

  lemma {:induction false} CRowsElements(cq: CQuery, w: World, cenv: CEnv)
    ensures forall r :: r in CRows(cq, w, cenv) <==>
                        r in Cross(cq.from, w.db) && CHolds(cq.where, w, Inside(cenv, cq.planId, r))
  {
    var rows := Cross(cq.from, w.db);
    SelectElements(rows, seq(|rows|, i requires 0 <= i < |rows| => CHolds(cq.where, w,
      Inside(cenv, cq.planId, rows[i]))));
  }
}
