/** The deparser as it runs: one truth_ctx flag, set and restored by hand around every call.
    The ghost argument ctx is the context in which the walker visited the same node. */
module DeparseState {
  import opened Values
  import opened Postgres
  import opened ClickHouse
  import opened Walker
  import opened Deparser
  import opened Pushdown

  /** The walker visited e in ctx, and the flag is up only in a truth context. */
  ghost predicate Visited(e: Expr, ctx: Ctx, truth: bool, d: DCtx, relids: set<nat>) {
    Walk(e, ctx, d.sub.In?, relids, d.cols, d.cfg) && (truth ==> ctx == Truth) && (d.sub.Top? ==> relids <= d.relids)
  }

  ghost predicate VisitedAll(es: seq<Expr>, ctx: Ctx, truth: bool, d: DCtx, relids: set<nat>) {
    forall i :: 0 <= i < |es| ==> Visited(es[i], ctx, truth, d, relids)
  }

  /** The node types whose operands keep a truth context. */
  predicate KeepsTruth(e: Expr) {
    e.And? || e.Or? || e.Not? || e.Case? || e.Relabel? || e.ArrayOp?
  }

  /** Where the deparser picks the guarded NOT IN, the walker had visited the SubPlan in the negated
      state: in an exact one it would have demanded the plain form, for no more relations than the
      deparser proves with. */
  lemma {:induction false} GuardedOnlyWhereNegated(sp: Expr, ctx: Ctx, d: DCtx, relids: set<nat>)
    requires Visited(sp, NotCtx(ctx), false, d, relids) && IsNotIn(sp, d)
    ensures NotCtx(ctx) == Negated
  {
    if NeverNull(sp.lhs, relids, d.cols, d.cfg) {
      NeverNullMonotone(sp.lhs, relids, d.relids, d.cols, d.cfg);
    }
  }

  class Context {
    var truthCtx: bool

    constructor ()
      ensures !truthCtx
    {
      truthCtx := false;
    }

    /** deparseExpr: lowers the flag for most node types, and puts it back for the siblings. */
    method DeparseExpr(e: Expr, d: DCtx, ghost ctx: Ctx, ghost relids: set<nat>) returns (c: CExpr)
      requires Visited(e, ctx, truthCtx, d, relids)
      modifies this
      ensures truthCtx == old(truthCtx)
      ensures c == Deparse(e, WithTruth(d, old(truthCtx)))
      decreases e, 9
    {
      var saved := truthCtx;
      if !KeepsTruth(e) {
        truthCtx := false;
      }
      match e {
        case Var(col) => c := DeparseVar(col, d);
        case Const(v) => c := CLit(v);
        case Param(id, _) => c := DeparseParam(id, d);
        case Call(_, _, _) => c := DeparseCall(e, d, ctx, relids);
        case And(_) => c := DeparseBool(e, d, ctx, relids);
        case Or(_) => c := DeparseBool(e, d, ctx, relids);
        case Not(_) => c := DeparseNot(e, d, ctx, relids);
        case NullTest(_, _) => c := DeparseUnary(e, d, ctx, relids);
        case Relabel(_) => c := DeparseUnary(e, d, ctx, relids);
        case Case(_, _) => c := DeparseCase(e, d, ctx, relids);
        case ArrayOp(_, _, _, _) => c := DeparseArrayOp(e, d, ctx, relids);
        case Aggref(_, _, _) => c := DeparseAggref(e, d, ctx, relids);
        case SubPlan(_, _, _, _, _, _) => c := DeparseSubPlan(e, d, ctx, relids);
      }
      truthCtx := saved;
    }

    method DeparseList(es: seq<Expr>, d: DCtx, ghost ctx: Ctx, ghost relids: set<nat>) returns (r: seq<CExpr>)
      requires VisitedAll(es, ctx, truthCtx, d, relids)
      modifies this
      ensures truthCtx == old(truthCtx)
      ensures r == DeparseAll(es, WithTruth(d, old(truthCtx)))
      decreases es, 0
    {
      r := [];
      var i := 0;
      while i < |es|
        invariant 0 <= i <= |es| && truthCtx == old(truthCtx) && |r| == i
        invariant forall k :: 0 <= k < i ==> r[k] == Deparse(es[k], WithTruth(d, old(truthCtx)))
      {
        var c := DeparseExpr(es[i], d, ctx, relids);
        r := r + [c];
        i := i + 1;
      }
    }

    method DeparseCall(e: Expr, d: DCtx, ghost ctx: Ctx, ghost relids: set<nat>) returns (c: CExpr)
      requires Visited(e, ctx, false, d, relids) && e.Call? && !truthCtx
      modifies this
      ensures !truthCtx && c == Deparse(e, WithTruth(d, false))
      decreases e, 8
    {
      assert VisitedAll(e.args, Exact, false, d, relids);
      var args := DeparseList(e.args, d, Exact, relids);
      c := CCall(e.f, args);
    }

    method DeparseBool(e: Expr, d: DCtx, ghost ctx: Ctx, ghost relids: set<nat>) returns (c: CExpr)
      requires Visited(e, ctx, truthCtx, d, relids) && (e.And? || e.Or?)
      modifies this
      ensures truthCtx == old(truthCtx)
      ensures c == Deparse(e, WithTruth(d, old(truthCtx)))
      decreases e, 8
    {
      assert VisitedAll(e.args, AndOrCtx(ctx), truthCtx, d, relids);
      var args := DeparseList(e.args, d, AndOrCtx(ctx), relids);
      c := if e.And? then CAnd(args) else COr(args);
    }

    /** Leaves the flag down: only deparseExpr restores it. */
    method DeparseNot(e: Expr, d: DCtx, ghost ctx: Ctx, ghost relids: set<nat>) returns (c: CExpr)
      requires Visited(e, ctx, truthCtx, d, relids) && e.Not?
      modifies this
      ensures c == Deparse(e, WithTruth(d, old(truthCtx)))
      decreases e, 8
    {
      truthCtx := false;
      if IsNotIn(e.arg, d) {
        GuardedOnlyWhereNegated(e.arg, ctx, d, relids);
        c := DeparseGuardedNotIn(e.arg, d, NotCtx(ctx), relids);
      } else {
        c := DeparseExpr(e.arg, d, NotCtx(ctx), relids);
        c := CNot(c);
      }
    }

    method DeparseUnary(e: Expr, d: DCtx, ghost ctx: Ctx, ghost relids: set<nat>) returns (c: CExpr)
      requires Visited(e, ctx, truthCtx, d, relids) && (e.Relabel? || (e.NullTest? && !truthCtx))
      modifies this
      ensures truthCtx == old(truthCtx)
      ensures c == Deparse(e, WithTruth(d, old(truthCtx)))
      decreases e, 8
    {
      if e.Relabel? {
        c := DeparseExpr(e.arg, d, AndOrCtx(ctx), relids);
      } else {
        c := DeparseExpr(e.arg, d, Exact, relids);
        c := CIsNull(e.isNull, c);
      }
    }

    /** Raises the flag for every WHEN and puts the caller's back for every result. */
    method DeparseCase(e: Expr, d: DCtx, ghost ctx: Ctx, ghost relids: set<nat>) returns (c: CExpr)
      requires Visited(e, ctx, truthCtx, d, relids) && e.Case?
      modifies this
      ensures truthCtx == old(truthCtx)
      ensures c == Deparse(e, WithTruth(d, old(truthCtx)))
      decreases e, 8
    {
      var truth := truthCtx;
      var whens := [];
      var i := 0;
      while i < |e.whens|
        invariant 0 <= i <= |e.whens| && |whens| == i && truthCtx == truth == old(truthCtx)
        invariant forall k :: 0 <= k < i ==>
          whens[k] == CWhen(DeparseCond(e.whens[k].cond, WithTruth(d, truth)),
            Deparse(e.whens[k].result, WithTruth(d, truth)))
      {
        truthCtx := true;
        var cond := DeparseExpr(e.whens[i].cond, d, Truth, relids);
        truthCtx := truth;
        if e.whens[i].cond.Var? {
          cond := CEqOne(cond);
        }
        var result := DeparseExpr(e.whens[i].result, d, CaseResultCtx(ctx), relids);
        whens := whens + [CWhen(cond, result)];
        i := i + 1;
      }
      var els := None;
      if e.els.Some? {
        var result := DeparseExpr(e.els.value, d, CaseResultCtx(ctx), relids);
        els := Some(result);
      }
      c := CCase(whens, els);
      assert whens == Deparse(e, WithTruth(d, truth)).whens;
    }

    method DeparseArrOperand(a: ArrExpr, d: DCtx, ghost relids: set<nat>) returns (c: CArr)
      requires !truthCtx && !a.ArrNull? && (a.ArrList? ==> VisitedAll(a.exprs, Exact, false, d, relids))
      modifies this
      ensures !truthCtx && c == DeparseArr(a, WithTruth(d, false))
      decreases a, 8
    {
      match a {
        case ArrConst(elems, _) => c := CArrLit(elems);
        case ArrCol(col) => c := DeparseArrVar(col, d);
        case ArrList(exprs) =>
          var list := DeparseList(exprs, d, Exact, relids);
          c := CArrList(list);
      }
    }

    /** Remembers the flag for the choice of form, then lowers it for both operands. */
    method DeparseArrayOp(e: Expr, d: DCtx, ghost ctx: Ctx, ghost relids: set<nat>) returns (c: CExpr)
      requires Visited(e, ctx, truthCtx, d, relids) && e.ArrayOp?
      modifies this
      ensures c == Deparse(e, WithTruth(d, old(truthCtx)))
      decreases e, 8
    {
      var truth := truthCtx;
      truthCtx := false;
      var nulls := ArrNulls(e.arr, d.relids, d.cols, d.cfg);
      var p := DeparseExpr(e.probe, d, Exact, relids);
      assert e.arr.ArrList? ==> VisitedAll(e.arr.exprs, Exact, false, d, relids);
      if NativeInOk(e.useOr, e.op, e.arr, nulls, truth) {
        return CIn(e.op == OpNe, p, e.arr.elems);
      }
      var a := DeparseArrOperand(e.arr, d, relids);
      if nulls == Empty || (nulls == NullFree && NeverNull(e.probe, d.relids, d.cols, d.cfg)) {
        return CheapArrayOp(e.useOr, e.op, p, a);
      }
      return GuardedArrayOp(e.useOr, e.op, p, a);
    }

    method DeparseAggref(e: Expr, d: DCtx, ghost ctx: Ctx, ghost relids: set<nat>) returns (c: CExpr)
      requires Visited(e, ctx, false, d, relids) && e.Aggref? && !truthCtx
      modifies this
      ensures !truthCtx && c == Deparse(e, WithTruth(d, false))
      decreases e, 8
    {
      var arg := DeparseExpr(e.arg, d, Exact, relids);
      var filter := None;
      if e.filter.Some? {
        truthCtx := true;
        var f := DeparseExpr(e.filter.value, d, Truth, relids);
        truthCtx := false;
        filter := Some(f);
      }
      c := CAgg(e.f, arg, filter);
    }

    method DeparseCorrelation(e: Expr, d: DCtx, ghost ctx: Ctx, ghost relids: set<nat>) returns (args: seq<CArg>)
      requires Visited(e, ctx, false, d, relids) && e.SubPlan? && !truthCtx
      modifies this
      ensures !truthCtx && args == DeparseArgs(e.correlated, WithTruth(d, false))
      decreases e, 5
    {
      args := [];
      var i := 0;
      while i < |e.correlated|
        invariant 0 <= i <= |e.correlated| && |args| == i && !truthCtx
        invariant args == DeparseArgs(e.correlated, WithTruth(d, false))[..i]
      {
        var arg := DeparseExpr(e.correlated[i].arg, d, Exact, relids);
        args := args + [CArg(e.correlated[i].id, arg)];
        i := i + 1;
      }
    }

    /** deparseSubPlanQuery: a context of its own for the body. */
    method DeparseSubPlanQuery(e: Expr, d: DCtx, nullProbe: bool, ghost ctx: Ctx,
                               ghost relids: set<nat>) returns (q: CQuery)
      requires Visited(e, ctx, false, d, relids) && e.SubPlan? && !truthCtx
      modifies this
      ensures !truthCtx && q == DeparseQuery(e, WithTruth(d, false), nullProbe)
      decreases e, 6
    {
      var args := DeparseCorrelation(e, d, ctx, relids);
      var dq := DCtx(false, d.qualify, d.relids, BodyCols(e.body, d.cfg), In(e.planId, args), d.cfg);
      assert dq == BodyCtx(e, WithTruth(d, false));
      var sub := new Context();
      ghost var inner := FromRelids(e.body);
      assert WalkBody(e.body, d.cfg);
      sub.truthCtx := true;
      var where := sub.DeparseList(e.body.quals, dq, Truth, inner);
      sub.truthCtx := false;
      var target := sub.DeparseExpr(e.body.target, dq, Exact, inner);
      var groupBy := sub.DeparseList(e.body.groupBy, dq, Exact, inner);
      sub.truthCtx := true;
      var having := sub.DeparseList(e.body.having, dq, Truth, inner);
      sub.truthCtx := false;
      assert WithTruth(dq, false) == dq;
      var constant := nullProbe || e.link == Exists;
      q := CQuery(e.planId, e.body.from, if nullProbe then where + [CIsNull(true, target)] else where, groupBy,
                  !constant && e.body.hasAggs, having, if constant then CLit(Num(1)) else target);
      assert where + [] == where;
    }

    method DeparseSubPlan(e: Expr, d: DCtx, ghost ctx: Ctx, ghost relids: set<nat>) returns (c: CExpr)
      requires Visited(e, ctx, false, d, relids) && e.SubPlan? && !truthCtx
      modifies this
      ensures !truthCtx && c == Deparse(e, WithTruth(d, false))
      decreases e, 8
    {
      match e.link {
        case Exists =>
          var q := DeparseSubPlanQuery(e, d, false, ctx, relids);
          c := CExists(q);
        case Scalar =>
          var q := DeparseSubPlanQuery(e, d, false, ctx, relids);
          c := CScalar(q);
        case Any =>
          var lhs := DeparseExpr(e.lhs, d, Exact, relids);
          var q := DeparseSubPlanQuery(e, d, false, ctx, relids);
          c := CInQuery(false, lhs, q);
      }
    }

    /** Reached only for a SubPlan that the walker visited in the negated state. */
    method DeparseGuardedNotIn(e: Expr, d: DCtx, ghost ctx: Ctx, ghost relids: set<nat>) returns (c: CExpr)
      requires Visited(e, ctx, false, d, relids) && IsNotIn(e, d) && ctx == Negated && !truthCtx
      modifies this
      ensures !truthCtx && c == DeparseNotIn(e, WithTruth(d, false))
      decreases e, 8
    {
      var probe := DeparseExpr(e.lhs, d, Exact, relids);
      var body := DeparseSubPlanQuery(e, d, false, ctx, relids);
      var nulls := DeparseSubPlanQuery(e, d, true, ctx, relids);
      c := GuardedNotIn(probe, body, nulls, !NeverNull(e.lhs, d.relids, d.cols, d.cfg), !OutputNeverNull(e, d.cfg));
    }
  }
}
