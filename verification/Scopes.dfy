/** Alias discipline: an outer expression inlined into a subquery still reads the outer row. */
module Scopes {
  import opened Values
  import opened Postgres
  import opened ClickHouse
  import opened Walker
  import opened Deparser

  /** Nothing outside a nested subquery reads the subquery scope: every column is r{N}-qualified. */
  predicate OuterOnly(c: CExpr)
    decreases c
  {
    match c
    case CCol(alias, _) => alias == RelAlias
    case CBound(_) | CLit(_) | CParam(_) | CExists(_) | CScalar(_) => true
    case CCall(_, args) => forall i :: 0 <= i < |args| ==> OuterOnly(args[i])
    case CAnd(args) => forall i :: 0 <= i < |args| ==> OuterOnly(args[i])
    case COr(args) => forall i :: 0 <= i < |args| ==> OuterOnly(args[i])
    case CNot(arg) => OuterOnly(arg)
    case CIsNull(_, arg) => OuterOnly(arg)
    case CEqOne(arg) => OuterOnly(arg)
    case CCase(whens, els) =>
      (forall i :: 0 <= i < |whens| ==> OuterOnly(whens[i].cond) && OuterOnly(whens[i].result)) &&
      (els.Some? ==> OuterOnly(els.value))
    case CIn(_, probe, _) => OuterOnly(probe)
    case CArray(_, arr, x) => OuterOnlyArr(arr) && OuterOnly(x)
    case CArith(_, l, r) => OuterOnly(l) && OuterOnly(r)
    case CAgg(_, _, _) => false
    case CInQuery(_, probe, _) => OuterOnly(probe)
  }

  predicate OuterOnlyArr(a: CArr)
    decreases a
  {
    match a
    case CArrLit(_) => true
    case CArrList(exprs) => forall i :: 0 <= i < |exprs| ==> OuterOnly(exprs[i])
    case CArrCol(alias, _) => alias == RelAlias
    case CArrBound(_) => true
  }

  /** A subquery sets up its own scope, so it does not see the enclosing one either. */
  lemma {:induction false} QueryStable(q: CQuery, w: World, env: CEnv, inner: Option<Inner>, g: seq<Row>)
    ensures COutput(q, w, env.(inner := inner, group := g)) == COutput(q, w, env)
  {
    var env2 := env.(inner := inner, group := g);
    forall r ensures Inside(env, q.planId, r) == Inside(env2, q.planId, r) {
    }
    forall s ensures InsideGroup(env, q.planId, s) == InsideGroup(env2, q.planId, s) {
    }
    var rows := Cross(q.from, w.db);
    assert seq(|rows|, i requires 0 <= i < |rows| => CHolds(q.where, w, Inside(env, q.planId, rows[i]))) ==
           seq(|rows|, i requires 0 <= i < |rows| => CHolds(q.where, w, Inside(env2, q.planId, rows[i])));
    var kept := CRows(q, w, env);
    assert kept == CRows(q, w, env2);
    if CGrouped(q) {
      assert CKeys(q, kept, w, env) == CKeys(q, kept, w, env2) by {
        forall i | 0 <= i < |kept| ensures CKeys(q, kept, w, env)[i] == CKeys(q, kept, w, env2)[i] {
          assert Inside(env, q.planId, kept[i]) == Inside(env2, q.planId, kept[i]);
        }
      }
      var groups := CGroups(q, kept, CKeys(q, kept, w, env));
      assert seq(|groups|, i requires 0 <= i < |groups| => CHolds(q.having, w,
             InsideGroup(env, q.planId, groups[i]))) ==
             seq(|groups|, i requires 0 <= i < |groups| => CHolds(q.having, w, InsideGroup(env2, q.planId, groups[i])));
      assert CKeptGroups(q, w, env) == CKeptGroups(q, w, env2);
    }
    assert COutput(q, w, env) == COutput(q, w, env2);
  }

  lemma {:induction false} OuterStableAll(es: seq<CExpr>, w: World, env: CEnv, inner: Option<Inner>, g: seq<Row>)
    requires forall i :: 0 <= i < |es| ==> OuterOnly(es[i])
    ensures CEvalAll(es, w, env.(inner := inner, group := g)) == CEvalAll(es, w, env)
    decreases es, 0
  {
    forall i | 0 <= i < |es| ensures CEval(es[i], w, env.(inner := inner, group := g)) == CEval(es[i], w, env) {
      OuterStable(es[i], w, env, inner, g);
    }
  }

  /** The value of such an expression does not depend on the enclosing subquery's row. */
  lemma {:induction false} OuterStable(c: CExpr, w: World, env: CEnv, inner: Option<Inner>, g: seq<Row>)
    requires OuterOnly(c)
    ensures CEval(c, w, env.(inner := inner, group := g)) == CEval(c, w, env)
    decreases c, 1
  {
    match c
    case CCall(_, args) => OuterStableAll(args, w, env, inner, g);
    case CAnd(args) => OuterStableAll(args, w, env, inner, g);
    case COr(args) => OuterStableAll(args, w, env, inner, g);
    case CNot(arg) => OuterStable(arg, w, env, inner, g);
    case CIsNull(_, arg) => OuterStable(arg, w, env, inner, g);
    case CEqOne(arg) => OuterStable(arg, w, env, inner, g);
    case CCase(_, _) =>
      OuterStableCase(c, 0, w, env, inner, g);
      assert CEval(c, w, env) == CEvalCase(c, 0, w, env);
    case CIn(_, probe, _) => OuterStable(probe, w, env, inner, g);
    case CArray(_, arr, x) =>
      OuterStable(x, w, env, inner, g);
      OuterStableArr(arr, w, env, inner, g);
    case CArith(_, l, r) =>
      OuterStable(l, w, env, inner, g);
      OuterStable(r, w, env, inner, g);
    case CExists(q) => QueryStable(q, w, env, inner, g);
    case CScalar(q) => QueryStable(q, w, env, inner, g);
    case CInQuery(_, probe, q) =>
      OuterStable(probe, w, env, inner, g);
      QueryStable(q, w, env, inner, g);
    case _ =>
  }

  lemma {:induction false} OuterStableArr(a: CArr, w: World, env: CEnv, inner: Option<Inner>, g: seq<Row>)
    requires OuterOnlyArr(a)
    ensures CEvalArr(a, w, env.(inner := inner, group := g)) == CEvalArr(a, w, env)
    decreases a, 1
  {
    if a.CArrList? {
      OuterStableAll(a.exprs, w, env, inner, g);
    }
  }

  lemma {:induction false} OuterStableCase(c: CExpr, k: nat, w: World, env: CEnv, inner: Option<Inner>, g: seq<Row>)
    requires c.CCase? && k <= |c.whens| && OuterOnly(c)
    ensures CEvalCase(c, k, w, env.(inner := inner, group := g)) == CEvalCase(c, k, w, env)
    decreases c, 0, |c.whens| - k
  {
    if k == |c.whens| {
      if c.els.Some? {
        OuterStable(c.els.value, w, env, inner, g);
      }
    } else {
      OuterStable(c.whens[k].cond, w, env, inner, g);
      OuterStable(c.whens[k].result, w, env, inner, g);
      OuterStableCase(c, k + 1, w, env, inner, g);
    }
  }

  lemma {:induction false} DeparsedAllOuterOnly(es: seq<Expr>, ctx: Ctx, d: DCtx, relids: set<nat>, cols: Cols)
    requires d.sub.Top? && d.qualify
    requires forall i :: 0 <= i < |es| ==> Walk(es[i], ctx, false, relids, cols, d.cfg)
    ensures forall i :: 0 <= i < |es| ==> OuterOnly(DeparseAll(es, d)[i])
    decreases es, 0
  {
    forall i | 0 <= i < |es| ensures OuterOnly(DeparseAll(es, d)[i]) {
      DeparsedOuterOnly(es[i], ctx, d, relids, cols);
    }
  }

  /** With r{N} qualification on, everything deparsed in the outer scope is outer-only. */
  lemma {:induction false} DeparsedOuterOnly(e: Expr, ctx: Ctx, d: DCtx, relids: set<nat>, cols: Cols)
    requires d.sub.Top? && d.qualify
    requires Walk(e, ctx, false, relids, cols, d.cfg)
    ensures OuterOnly(Deparse(e, d))
    decreases e, 1
  {
    match e
    case Call(_, _, _) => DeparsedArgsOuterOnly(e, ctx, d, relids, cols);
    case And(_) => DeparsedArgsOuterOnly(e, ctx, d, relids, cols);
    case Or(_) => DeparsedArgsOuterOnly(e, ctx, d, relids, cols);
    case Not(_) => DeparsedNotOuterOnly(e, ctx, d, relids, cols);
    case NullTest(_, arg) => DeparsedOuterOnly(arg, Exact, WithTruth(d, false), relids, cols);
    case Relabel(arg) => DeparsedOuterOnly(arg, AndOrCtx(ctx), d, relids, cols);
    case Case(_, _) => DeparsedCaseOuterOnly(e, ctx, d, relids, cols);
    case ArrayOp(_, _, _, _) => DeparsedArrayOpOuterOnly(e, ctx, d, relids, cols);
    case SubPlan(_, _, _, _, _, _) => DeparsedSubPlanOuterOnly(e, ctx, d, relids, cols);
    case _ =>
  }

  lemma {:induction false} DeparsedArgsOuterOnly(e: Expr, ctx: Ctx, d: DCtx, relids: set<nat>, cols: Cols)
    requires d.sub.Top? && d.qualify && (e.Call? || e.And? || e.Or?)
    requires Walk(e, ctx, false, relids, cols, d.cfg)
    ensures OuterOnly(Deparse(e, d))
    decreases e, 0
  {
    if e.Call? {
      DeparsedAllOuterOnly(e.args, Exact, WithTruth(d, false), relids, cols);
    } else {
      DeparsedAllOuterOnly(e.args, AndOrCtx(ctx), d, relids, cols);
    }
  }

  lemma {:induction false} DeparsedNotOuterOnly(e: Expr, ctx: Ctx, d: DCtx, relids: set<nat>, cols: Cols)
    requires d.sub.Top? && d.qualify && e.Not?
    requires Walk(e, ctx, false, relids, cols, d.cfg)
    ensures OuterOnly(Deparse(e, d))
    decreases e, 0
  {
    var exact := WithTruth(d, false);
    if IsNotIn(e.arg, d) {
      DeparsedOuterOnly(e.arg.lhs, Exact, exact, relids, cols);
      NotInOuterOnly(e.arg, exact);
    } else {
      DeparsedOuterOnly(e.arg, NotCtx(ctx), exact, relids, cols);
    }
  }

  lemma {:induction false} DeparsedSubPlanOuterOnly(e: Expr, ctx: Ctx, d: DCtx, relids: set<nat>, cols: Cols)
    requires d.sub.Top? && d.qualify && e.SubPlan?
    requires Walk(e, ctx, false, relids, cols, d.cfg)
    ensures OuterOnly(Deparse(e, d))
    decreases e, 0
  {
    if e.link == Any {
      DeparsedOuterOnly(e.lhs, Exact, WithTruth(d, false), relids, cols);
    }
  }

  lemma {:induction false} DeparsedCaseOuterOnly(e: Expr, ctx: Ctx, d: DCtx, relids: set<nat>, cols: Cols)
    requires d.sub.Top? && d.qualify && e.Case?
    requires Walk(e, ctx, false, relids, cols, d.cfg)
    ensures OuterOnly(Deparse(e, d))
    decreases e, 0
  {
    forall i | 0 <= i < |e.whens|
      ensures OuterOnly(DeparseCond(e.whens[i].cond, d)) && OuterOnly(Deparse(e.whens[i].result, d))
    {
      DeparsedOuterOnly(e.whens[i].cond, Truth, WithTruth(d, true), relids, cols);
      DeparsedOuterOnly(e.whens[i].result, CaseResultCtx(ctx), d, relids, cols);
    }
    if e.els.Some? {
      DeparsedOuterOnly(e.els.value, CaseResultCtx(ctx), d, relids, cols);
    }
  }

  lemma {:induction false} DeparsedArrayOpOuterOnly(e: Expr, ctx: Ctx, d: DCtx, relids: set<nat>, cols: Cols)
    requires d.sub.Top? && d.qualify && e.ArrayOp?
    requires Walk(e, ctx, false, relids, cols, d.cfg)
    ensures OuterOnly(Deparse(e, d))
    decreases e, 0
  {
    var exact := WithTruth(d, false);
    DeparsedOuterOnly(e.probe, Exact, exact, relids, cols);
    if e.arr.ArrList? {
      DeparsedAllOuterOnly(e.arr.exprs, Exact, exact, relids, cols);
    }
    assert OuterOnlyArr(DeparseArr(e.arr, exact));
    ChosenOuterOnly(e.useOr, e.op, e.arr, ArrNulls(e.arr, d.relids, d.cols, d.cfg),
                    NeverNull(e.probe, d.relids, d.cols, d.cfg), d.truth, Deparse(e.probe, exact),
                      DeparseArr(e.arr, exact));
  }

  lemma {:induction false} ChosenOuterOnly(useOr: bool, op: EqualOp, arr: ArrExpr, nulls: ArrayNulls,
                                           probeNeverNull: bool, truth: bool, p: CExpr, a: CArr)
    requires OuterOnly(p) && OuterOnlyArr(a)
    ensures OuterOnly(ChooseArrayOp(useOr, op, arr, nulls, probeNeverNull, truth, p, a))
  {
    CheapOuterOnly(useOr, op, p, a);
    GuardedOuterOnly(useOr, op, p, a);
  }

  lemma {:induction false} NotInOuterOnly(sp: Expr, d: DCtx)
    requires sp.SubPlan? && OuterOnly(Deparse(sp.lhs, d))
    ensures OuterOnly(DeparseNotIn(sp, d))
  {
    var probe, body, nulls := Deparse(sp.lhs, d), DeparseQuery(sp, d, false), DeparseQuery(sp, d, true);
    NotInFormOuterOnly(probe, body, nulls, !NeverNull(sp.lhs, d.relids, d.cols, d.cfg), !OutputNeverNull(sp, d.cfg));
  }

  lemma {:induction false} NotInFormOuterOnly(probe: CExpr, body: CQuery, nulls: CQuery, p: bool, o: bool)
    requires OuterOnly(probe)
    ensures OuterOnly(GuardedNotIn(probe, body, nulls, p, o))
  {
    var notIn := CInQuery(true, probe, body);
    assert OuterOnly(CExists(nulls)) && OuterOnly(CExists(body));
    assert OuterOnly(notIn) && OuterOnly(CNot(CExists(nulls))) && OuterOnly(CNot(CExists(body)));
    var guarded := if o then CAnd([notIn, CNot(CExists(nulls))]) else notIn;
    assert OuterOnly(guarded) && OuterOnly(CIsNull(true, probe));
  }

  lemma {:induction false} CheapOuterOnly(useOr: bool, op: EqualOp, p: CExpr, a: CArr)
    requires OuterOnly(p) && OuterOnlyArr(a)
    ensures OuterOnly(CheapArrayOp(useOr, op, p, a))
  {
    MatchCountOuterOnly(useOr, op, p, a);
    assert OuterOnly(CLit(Num(0)));
  }

  lemma {:induction false} GuardedOuterOnly(useOr: bool, op: EqualOp, p: CExpr, a: CArr)
    requires OuterOnly(p) && OuterOnlyArr(a)
    ensures OuterOnly(GuardedArrayOp(useOr, op, p, a))
  {
    MatchCountOuterOnly(useOr, op, p, a);
    GuardOuterOnly(p, a);
    CaseOuterOnly(GuardedArrayOp(useOr, op, p, a));
  }

  /** A CASE of three literal results. */
  lemma {:induction false} CaseOuterOnly(c: CExpr)
    requires c.CCase? && |c.whens| == 3 && c.els.Some? && c.els.value.CLit?
    requires OuterOnly(c.whens[0].cond) && OuterOnly(c.whens[1].cond) && OuterOnly(c.whens[2].cond)
    requires c.whens[0].result.CLit? && c.whens[1].result.CLit? && c.whens[2].result.CLit?
    ensures OuterOnly(c)
  {
  }

  lemma {:induction false} GuardOuterOnly(p: CExpr, a: CArr)
    requires OuterOnly(p) && OuterOnlyArr(a)
    ensures OuterOnly(CAnd([CIsNull(true, p), CArray(NotEmpty, a, CLit(Null))]))
    ensures OuterOnly(Positive(CArray(CountEqual, a, CLit(Null))))
  {
    assert OuterOnly(CLit(Null)) && OuterOnly(CLit(Num(0))) && OuterOnly(CIsNull(true, p));
    assert OuterOnly(CArray(NotEmpty, a, CLit(Null))) && OuterOnly(CArray(CountEqual, a, CLit(Null)));
  }

  lemma {:induction false} MatchCountOuterOnly(useOr: bool, op: EqualOp, p: CExpr, a: CArr)
    requires OuterOnly(p) && OuterOnlyArr(a)
    ensures OuterOnly(Positive(MatchCount(useOr, op, p, a)))
    ensures OuterOnly(CArray(CountEqual, a, p)) && OuterOnly(LengthOf(a))
  {
    assert OuterOnly(CLit(Null)) && OuterOnly(CLit(Num(0)));
    var equal, nulls, size := CArray(CountEqual, a, p), CArray(CountEqual, a, CLit(Null)), LengthOf(a);
    assert OuterOnly(equal) && OuterOnly(nulls) && OuterOnly(size);
    assert OuterOnly(CArith(Minus, size, equal));
    assert OuterOnly(MatchCount(useOr, op, p, a));
  }
}
