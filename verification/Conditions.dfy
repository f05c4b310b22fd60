/** What the compiler theorem says about whole WHERE clauses, and the shapes for which the walker's word is not
    enough. */
module Conditions {
  import opened Values
  import opened Postgres
  import opened ClickHouse
  import opened Walker
  import opened Deparser
  import opened InFamily
  import opened Pushdown
  import opened Bodies
  import opened Correctness

  /** appendConditions over a scan of relids: columns are qualified when there are several relations
      or when any clause inlines a subquery. */
  function ConditionCtx(clauses: seq<Expr>, relids: set<nat>, cols: Cols, cfg: Config): DCtx {
    var inlined := exists i :: 0 <= i < |clauses| && HasSubPlan(clauses[i]);
    DCtx(true, |relids| > 1 || inlined, relids, cols, Top, cfg)
  }

  /** Each clause was accepted for the relation it belongs to, whose relids may be fewer than those of
      the join it is finally sent with. */
  ghost predicate ClausesAccepted(clauses: seq<Expr>, owners: seq<set<nat>>, relids: set<nat>, cols: Cols,
                                  cfg: Config, w: World) {
    |clauses| == |owners| &&
    forall i :: 0 <= i < |clauses| ==>
      owners[i] <= relids && Walk(clauses[i], Truth, false, owners[i], cols, cfg) &&
        Sound(clauses[i], Truth, Scan(cols.nulled, relids - owners[i]), w.emptyScalar)
  }

  /** The pushed-down WHERE clause keeps exactly the rows that PostgreSQL would keep. */
  lemma {:induction false} WhereKeepsRows(clauses: seq<Expr>, owners: seq<set<nat>>, relids: set<nat>, cols: Cols,
                                          cfg: Config, w: World, row: Row, params: map<nat, Val>)
    requires ClausesAccepted(clauses, owners, relids, cols, cfg, w) && WorldOk(w, cfg) && RowOk(row, cols)
    ensures Holds(clauses, w, Env(row, [], params)) <==>
            CHolds(DeparseAll(clauses, ConditionCtx(clauses, relids, cols, cfg)), w,
                   CEnv(relids, row, None, row, [], params))
  {
    var d, env, cenv := ConditionCtx(clauses, relids, cols, cfg), Env(row, [], params),
      CEnv(relids, row, None, row, [], params);
    forall i | 0 <= i < |clauses|
      ensures IsTrue(Eval(clauses[i], w, env)) <==> IsTrue(CEval(DeparseAll(clauses, d)[i], w, cenv))
    {
      Correct(clauses[i], Truth, d, owners[i], w, env, cenv);
    }
  }

  /** No NULL reaches the comparison. */
  predicate NeitherNullable(sp: Expr, relids: set<nat>, cols: Cols, cfg: Config)
    requires sp.SubPlan?
  {
    NeverNull(sp.lhs, relids, cols, cfg) && NeverNull(sp.body.target, FromRelids(sp.body), BodyCols(sp.body, cfg), cfg)
  }

  /** What is asked of an IN test beyond what a truth context asks: nothing that can be NULL where its value is
      observable, and under NOT in a truth context only that it has one output per row. */
  lemma {:induction false} NotInAcceptedExactly(e: Expr, ctx: Ctx, inSub: bool, relids: set<nat>, cols: Cols,
                                                cfg: Config)
    requires e.Not? && IsAny(e.arg)
    ensures Walk(e.arg, Exact, inSub, relids, cols, cfg) <==>
            Walk(e.arg, Truth, inSub, relids, cols, cfg) && NeitherNullable(e.arg, relids, cols, cfg)
    ensures Walk(e, ctx, inSub, relids, cols, cfg) <==>
            Walk(e.arg, Truth, inSub, relids, cols, cfg) &&
            (NeitherNullable(e.arg, relids, cols, cfg) || (ctx == Truth && !IsGrouped(e.arg.body)))
  {
  }

  /** The same SubPlan read as an IN test, to compare bodies only. */
  function AsAny(e: Expr): Expr
    requires e.SubPlan?
  {
    e.(link := Any, testOp := Equality, lhs := Const(Null))
  }

  lemma {:induction false} AcceptedAsAny(e: Expr, ctx: Ctx, d: DCtx, relids: set<nat>, w: World)
    requires e.SubPlan? && d.sub.Top? && d.qualify && !d.truth && relids <= d.relids
    requires Walk(e, ctx, false, relids, d.cols, d.cfg) && Sound(AsAny(e), Truth, PlaceOf(d, relids), w.emptyScalar)
    ensures Accepted(AsAny(e), Truth, d, relids, w)
  {
  }

  /** EXISTS over an aggregate without GROUP BY or HAVING. */
  predicate BareExists(e: Expr) {
    e.SubPlan? && e.link == Exists && e.body.hasAggs && e.body.groupBy == [] && e.body.having == []
  }

  /** It is TRUE on PostgreSQL whatever the rows, while the emitted SELECT 1 has no row when no row passes the quals. */
  lemma {:induction false} BareExistsAnswers(e: Expr, ctx: Ctx, d: DCtx, relids: set<nat>, w: World, env: Env,
                                             cenv: CEnv)
    requires Ready(d, w, env, cenv) && BareExists(e) && d.sub.Top? && d.qualify && relids <= d.relids
    requires Walk(e, ctx, false, relids, d.cols, d.cfg) && Sound(AsAny(e), Truth, PlaceOf(d, relids), w.emptyScalar)
    ensures Eval(e, w, env) == Bool(true)
    ensures CEval(Deparse(e, d), w, cenv) == Bool(BodyRows(e.body, w, BodyParams(e, w, env)) != [])
  {
    var exact := WithTruth(d, false);
    ReadyWithTruth(d, false, w, env, cenv);
    AcceptedAsAny(e, ctx, exact, relids, w);
    QueryRowsAgree(AsAny(e), Truth, exact, relids, w, env, cenv);
    ScalarRow(e, w, BodyParams(e, w, env));
    UnfoldSubPlan(e, w, env);
    UnfoldDeparsedSubPlan(e, d, w, cenv);
    SameBody(e, exact);
    var cq := DeparseQuery(e, exact, false);
    assert QualsAgree(e.body, cq, w, BodyParams(e, w, env), cenv);
    RowsAgree(e.body, cq, w, BodyParams(e, w, env), cenv);
  }

  /** An outer row that keeps the constraints, with any nullable relations null-extended. */
  lemma {:induction false} ReadyRow(d: DCtx, w: World, absent: set<nat>) returns (env: Env, cenv: CEnv)
    requires d.sub.Top? && (d.qualify || |d.relids| <= 1) && WorldOk(w, d.cfg) && absent <= d.cols.nulled
    ensures Ready(d, w, env, cenv) && env.row.Row? && env.row.absent == absent
  {
    var row := Row(map c | c in d.cols.notNull :: Num(0), map[], absent);
    env, cenv := Env(row, [], map[]), CEnv(d.relids, row, None, row, [], map[]);
  }

  lemma {:induction false} NoTables(q: Query, w: World, params: map<nat, Val>)
    requires w.db == map[] && q.from != []
    ensures BodyRows(q, w, params) == []
  {
    var n := |q.from| - 1;
    NothingToExtend(Cross(q.from[..n], w.db), q.from[n].rt);
    assert Cross(q.from, w.db) == [];
  }

  lemma {:induction false} NothingToExtend(rows: seq<Row>, rt: nat)
    requires forall x :: x in rows ==> x.Row?
    ensures ExtendRows(rows, rt, []) == []
  {
    if rows != [] {
      NothingToExtend(rows[1..], rt);
      assert JoinTuples(rows[0], rt, []) == [];
    }
  }

  /** The same two systems over other data. */
  ghost predicate OtherData(v: World, w: World) {
    v == w.(db := v.db)
  }

  /** An accepted EXISTS agrees on all data exactly when it is not over a bare aggregate. */
  lemma {:induction false} ExistsExactly(e: Expr, ctx: Ctx, d: DCtx, relids: set<nat>, w: World)
    requires e.SubPlan? && e.link == Exists && d.sub.Top? && d.qualify && relids <= d.relids
    requires Walk(e, ctx, false, relids, d.cols, d.cfg) && Sound(AsAny(e), Truth, PlaceOf(d, relids), w.emptyScalar)
    requires WorldOk(w, d.cfg)
    ensures (forall v, env, cenv :: OtherData(v, w) && Ready(d, v, env, cenv) ==>
               Eval(e, v, env) == CEval(Deparse(e, d), v, cenv)) <==>
            !BareExists(e)
  {
    if BareExists(e) {
      var v := w.(db := map[]);
      var env, cenv := ReadyRow(d, v, {});
      BareExistsAnswers(e, ctx, d, relids, v, env, cenv);
      NoTables(e.body, v, BodyParams(e, v, env));
      assert OtherData(v, w);
    } else {
      forall v, env, cenv | OtherData(v, w) && Ready(d, v, env, cenv)
        ensures Eval(e, v, env) == CEval(Deparse(e, d), v, cenv)
      {
        var exact := WithTruth(d, false);
        ReadyWithTruth(d, false, v, env, cenv);
        assert Accepted(e, ctx, exact, relids, v);
        CorrectRows(e, ctx, exact, relids, v, env, cenv);
        UnfoldDeparsedSubPlan(e, d, v, cenv);
        UnfoldDeparsedSubPlan(e, exact, v, cenv);
      }
    }
  }

  lemma {:induction false} SameBody(e: Expr, d: DCtx)
    requires e.SubPlan?
    ensures var cq, cq2 := DeparseQuery(e, d, false), DeparseQuery(AsAny(e), d, false);
            cq.planId == cq2.planId && cq.from == cq2.from && cq.where == cq2.where && cq.groupBy == cq2.groupBy &&
            cq.having == cq2.having
    ensures e.link != Exists ==> DeparseQuery(e, d, false) == DeparseQuery(AsAny(e), d, false)
  {
    assert BodyCtx(e, d) == BodyCtx(AsAny(e), d);
  }

  /** A scalar aggregate agrees exactly when HAVING holds of all its rows together, or ClickHouse says NULL for none. */
  lemma {:induction false} ScalarExactly(e: Expr, ctx: Ctx, d: DCtx, relids: set<nat>, w: World, env: Env, cenv: CEnv)
    requires Ready(d, w, env, cenv) && e.SubPlan? && d.sub.Top? && d.qualify && relids <= d.relids
    requires Walk(e, ctx, false, relids, d.cols, d.cfg) && Sound(AsAny(e), Truth, PlaceOf(d, relids), w.emptyScalar)
    requires e.link == Scalar
    ensures var params := BodyParams(e, w, env);
            Eval(e, w, env) == CEval(Deparse(e, d), w, cenv) <==>
            w.emptyScalar == Null || Holds(e.body.having, w, GroupEnv(BodyRows(e.body, w, params), params))
  {
    var exact := WithTruth(d, false);
    ReadyWithTruth(d, false, w, env, cenv);
    AcceptedAsAny(e, ctx, exact, relids, w);
    QueryAgrees(AsAny(e), Truth, exact, relids, w, env, cenv);
    SameBody(e, exact);
    ScalarRow(e, w, BodyParams(e, w, env));
    UnfoldSubPlan(e, w, env);
    UnfoldDeparsedSubPlan(e, d, w, cenv);
  }

  // ---------- two queries ----------

  /** count(*) > 5 */
  function MoreThanFive(): Expr {
    Call(Operator, 8, [Aggref(0, Const(Num(1)), None), Const(Num(5))])
  }

  /** [EXISTS] (SELECT count(*) FROM t WHERE t.x = o.x [HAVING count(*) > 5]), correlated, so that the planner keeps it
      as a SubPlan. */
  function CountOf(link: SubKind, having: seq<Expr>): Expr {
    SubPlan(link, 1, Equality, Const(Null), [Correlation(1, Var(Col(1, 1)))],
            Query(true, [FromItem(2, 7)], [Call(Operator, 9, [Var(Col(2, 1)), Param(1, false)])], [], true,
                  having, Aggref(0, Const(Num(1)), None)))
  }

  /** A scan of o alone, on a server that can run correlated subqueries. */
  function ScanCtx(): DCtx {
    DCtx(false, true, {1}, Cols({}, {}), Top, Config({8, 9}, {0}, {}, map[], true))
  }

  /** A SubPlan that is not an IN test is judged by its parts. */
  lemma {:induction false} PartsAccepted(e: Expr, relids: set<nat>, cols: Cols, cfg: Config, at: Place, empty: Val)
    requires e.SubPlan? && e.link != Any && e.body.deparsable && e.body.from != [] && cfg.serverOk
    requires e.link == Scalar ==> e.body.hasAggs && e.body.groupBy == []
    requires WalkBody(e.body, cfg) && NoInnerSubPlan(e.body)
    requires forall i :: 0 <= i < |e.correlated| ==> Walk(e.correlated[i].arg, Exact, false, relids, cols, cfg)
    requires forall i :: 0 <= i < |e.correlated| ==> Sound(e.correlated[i].arg, Exact, at, empty)
    requires DistinctIds(e.correlated) && DistinctFrom(e.body.from) && SoundBody(e.body, empty)
    ensures Walk(e, Exact, false, relids, cols, cfg) && Sound(AsAny(e), Truth, at, empty)
  {
  }

  predicate NoInnerSubPlan(q: Query) {
    !HasSubPlan(q.target) && (forall i :: 0 <= i < |q.quals| ==> !HasSubPlan(q.quals[i])) &&
    (forall i :: 0 <= i < |q.having| ==> !HasSubPlan(q.having[i]))
  }

  /** The walker accepts both queries, even where the exact value is observable. */
  lemma {:induction false} CountAccepted(e: Expr, d: DCtx, empty: Val)
    requires (e == CountOf(Exists, []) || e == CountOf(Scalar, [MoreThanFive()])) && d == ScanCtx()
    ensures Walk(e, Exact, false, d.relids, d.cols, d.cfg) && Sound(AsAny(e), Truth, PlaceOf(d, d.relids), empty)
  {
    CountBodyAccepted(e.body, d.cfg);
    CountBodySound(e.body, empty);
    PartsAccepted(e, d.relids, d.cols, d.cfg, PlaceOf(d, d.relids), empty);
  }

  lemma {:induction false} CountBodyAccepted(q: Query, cfg: Config)
    requires cfg == ScanCtx().cfg
    requires q == CountOf(Exists, []).body || q == CountOf(Scalar, [MoreThanFive()]).body
    ensures WalkBody(q, cfg) && NoInnerSubPlan(q)
  {
    var relids, cols := FromRelids(q), BodyCols(q, cfg);
    TargetAccepted(q.target, relids, cols, cfg);
    QualAccepted(q.quals[0], relids, cols, cfg);
    HavingAccepted(relids, cols, cfg, Body(relids), Null);
  }

  lemma {:induction false} TargetAccepted(e: Expr, relids: set<nat>, cols: Cols, cfg: Config)
    requires cfg == ScanCtx().cfg && e == Aggref(0, Const(Num(1)), None)
    ensures Walk(e, Exact, true, relids, cols, cfg) && !HasSubPlan(e)
  {
  }

  lemma {:induction false} QualAccepted(e: Expr, relids: set<nat>, cols: Cols, cfg: Config)
    requires cfg == ScanCtx().cfg && e == Call(Operator, 9, [Var(Col(2, 1)), Param(1, false)])
    ensures Walk(e, Truth, true, relids, cols, cfg) && !HasSubPlan(e)
  {
  }

  lemma {:induction false} CountBodySound(q: Query, empty: Val)
    requires q == CountOf(Exists, []).body || q == CountOf(Scalar, [MoreThanFive()]).body
    ensures SoundBody(q, empty)
  {
    var at := Body(FromRelids(q));
    assert FromItem(2, 7) in q.from;
    TargetSound(q.target, at, empty);
    QualSound(q.quals[0], at, empty);
    HavingAccepted({}, Cols({}, {}), ScanCtx().cfg, at, empty);
  }

  lemma {:induction false} TargetSound(e: Expr, at: Place, empty: Val)
    requires e == Aggref(0, Const(Num(1)), None)
    ensures Sound(e, Exact, at, empty)
  {
  }

  lemma {:induction false} QualSound(e: Expr, at: Place, empty: Val)
    requires e == Call(Operator, 9, [Var(Col(2, 1)), Param(1, false)]) && Local(Col(2, 1), at)
    ensures Sound(e, Truth, at, empty)
  {
    assert SoundAll(e.args, Exact, at, empty);
  }

  lemma {:induction false} HavingAccepted(relids: set<nat>, cols: Cols, cfg: Config, at: Place, empty: Val)
    requires cfg == ScanCtx().cfg
    ensures Walk(MoreThanFive(), Truth, true, relids, cols, cfg) && !HasSubPlan(MoreThanFive())
    ensures Sound(MoreThanFive(), Truth, at, empty)
  {
    var e := MoreThanFive();
    assert Walk(e.args[0].arg, Exact, true, relids, cols, cfg);
    assert Walk(e.args[0], Exact, true, relids, cols, cfg) && Walk(e.args[1], Exact, true, relids, cols, cfg);
    assert Sound(e.args[0].arg, Exact, at, empty) && Sound(e.args[0], Exact, at, empty);
    assert SoundAll(e.args, Exact, at, empty);
  }

  /** The EXISTS query over an empty t. */
  lemma {:induction false} CountExistsDiverges(e: Expr, d: DCtx, w: World, env: Env, cenv: CEnv)
    requires e == CountOf(Exists, []) && d == ScanCtx() && Ready(d, w, env, cenv) && w.db == map[]
    ensures Eval(e, w, env) == Bool(true) && CEval(Deparse(e, d), w, cenv) == Bool(false)
  {
    CountAccepted(e, d, w.emptyScalar);
    BareExistsAnswers(e, Exact, d, d.relids, w, env, cenv);
    NoTables(e.body, w, BodyParams(e, w, env));
  }

  /** The scalar query over an empty t is NULL on PostgreSQL and what ClickHouse says for no row there. */
  lemma {:induction false} ScalarHavingDiverges(e: Expr, d: DCtx, w: World, env: Env, cenv: CEnv)
    requires e == CountOf(Scalar, [MoreThanFive()]) && d == ScanCtx() && Ready(d, w, env, cenv)
    requires w.db == map[] && w.emptyScalar != Null && w.call(8, [w.aggregate(0, []), Num(5)]) == Bool(false)
    ensures Eval(e, w, env) == Null && CEval(Deparse(e, d), w, cenv) != Null
  {
    CountAccepted(e, d, w.emptyScalar);
    ScalarOfNothing(e, d, w, env, cenv);
  }

  lemma {:induction false} ScalarOfNothing(e: Expr, d: DCtx, w: World, env: Env, cenv: CEnv)
    requires Ready(d, w, env, cenv) && e.SubPlan? && d.sub.Top? && d.qualify && e.link == Scalar && w.db == map[]
    requires Walk(e, Exact, false, d.relids, d.cols, d.cfg)
    requires Sound(AsAny(e), Truth, PlaceOf(d, d.relids), w.emptyScalar) && e.body.having == [MoreThanFive()]
    requires w.emptyScalar != Null && w.call(8, [w.aggregate(0, []), Num(5)]) == Bool(false)
    ensures Eval(e, w, env) == Null && CEval(Deparse(e, d), w, cenv) != Null
  {
    var params := BodyParams(e, w, env);
    ScalarExactly(e, Exact, d, d.relids, w, env, cenv);
    NoTables(e.body, w, params);
    NoneIsNotMoreThanFive(w, params);
    ScalarRow(e, w, params);
    UnfoldSubPlan(e, w, env);
  }

  lemma {:induction false} NoneIsNotMoreThanFive(w: World, params: map<nat, Val>)
    requires w.call(8, [w.aggregate(0, []), Num(5)]) == Bool(false)
    ensures !Holds([MoreThanFive()], w, GroupEnv([], params))
  {
    var e, env := MoreThanFive(), GroupEnv([], params);
    assert Eval(e.args[0], w, env) == w.aggregate(0, []);
    assert EvalAll(e.args, w, env) == [w.aggregate(0, []), Num(5)];
    assert [e][0] == e && !IsTrue(Eval(e, w, env));
  }

  // ---------- arrays above an outer join ----------

  /** What becomes of an array operator on a row in which its array column was null-extended. */
  lemma {:induction false} ExtendedArrayAnswers(e: Expr, ctx: Ctx, d: DCtx, relids: set<nat>, w: World, env: Env,
                                                cenv: CEnv)
    requires Ready(d, w, env, cenv) && d.sub.Top? && e.ArrayOp? && e.arr.ArrCol? && Extended(env.row, e.arr.col)
    requires Walk(e, ctx, false, relids, d.cols, d.cfg) && Local(e.arr.col, PlaceOf(d, relids))
    ensures Eval(e, w, env) == Null && CEval(Deparse(e, d), w, cenv) == Bool(!e.useOr)
  {
    var exact := WithTruth(d, false);
    var p, a := Deparse(e.probe, exact), DeparseArr(e.arr, exact);
    ReadyWithTruth(d, false, w, env, cenv);
    CorrectVar(e.arr.col, exact, w, env, cenv);
    assert CEvalArr(a, w, cenv) == [];
    GuardedArrayOpExact(e.useOr, e.op, p, a, w, cenv);
    assert Deparse(e, d) == GuardedArrayOp(e.useOr, e.op, p, a);
  }

  /** An accepted operator over an array column agrees on all rows exactly when the column's relation cannot be
      null-extended, or when the operator is ANY and NULL and FALSE are the same. */
  lemma {:induction false} ArrayColumnExactly(e: Expr, ctx: Ctx, d: DCtx, relids: set<nat>, w: World)
    requires e.ArrayOp? && e.arr.ArrCol? && WorldOk(w, d.cfg) && d.sub.Top? && relids <= d.relids
    requires Walk(e, ctx, false, relids, d.cols, d.cfg) && Sound(e.probe, Exact, PlaceOf(d, relids), w.emptyScalar)
    requires Local(e.arr.col, PlaceOf(d, relids)) && (d.truth ==> ctx == Truth)
    requires d.qualify || (|d.relids| <= 1 && !HasSubPlan(e))
    ensures (forall env, cenv :: Ready(d, w, env, cenv) ==>
            Agree(ctx, Eval(e, w, env), CEval(Deparse(e, d), w, cenv))) <==>
            ArrayHeld(e, ctx, d.cols.nulled)
  {
    if ArrayHeld(e, ctx, d.cols.nulled) {
      forall env, cenv | Ready(d, w, env, cenv) ensures Agree(ctx, Eval(e, w, env), CEval(Deparse(e, d), w, cenv)) {
        Correct(e, ctx, d, relids, w, env, cenv);
      }
    } else {
      var env, cenv := ReadyRow(d, w, {e.arr.col.rel});
      ExtendedArrayAnswers(e, ctx, d, relids, w, env, cenv);
    }
  }
}
