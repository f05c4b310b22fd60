/** The main theorem, by induction over expressions and subquery bodies together. */
module Correctness {
  import opened Values
  import opened Postgres
  import opened ClickHouse
  import opened Walker
  import opened Deparser
  import opened InFamily
  import opened Pushdown
  import opened Scopes
  import opened Bodies

  /** The walker accepted e in ctx, and the deparser meets it in a context no laxer than that. */
  ghost predicate Accepted(e: Expr, ctx: Ctx, d: DCtx, relids: set<nat>, w: World) {
    Walk(e, ctx, d.sub.In?, relids, d.cols, d.cfg) && Sound(e, ctx, PlaceOf(d, relids), w.emptyScalar) &&
    (if d.sub.Top? then relids <= d.relids && (HasSubPlan(e) ==> d.qualify) else d.cols.nulled == {}) &&
    (d.truth ==> ctx == Truth)
  }

  function PlaceOf(d: DCtx, relids: set<nat>): Place {
    if d.sub.Top? then Scan(d.cols.nulled, d.relids - relids) else Body(relids)
  }

  lemma {:induction false} ReadyWithTruth(d: DCtx, truth: bool, w: World, env: Env, cenv: CEnv)
    requires Ready(d, w, env, cenv)
    ensures Ready(WithTruth(d, truth), w, env, cenv)
  {
    var d2 := WithTruth(d, truth);
    if d.sub.In? {
      forall id, i, g
        ensures CEval(DeparseParam(id, d2), w, cenv.(inner := Some(i), group := g)) == ParamValue(env.params, id)
      {
        assert DeparseParam(id, d2) == DeparseParam(id, d);
      }
    }
  }

  /** The columns that are sent by name have one. */
  predicate Printable(c: Col, d: DCtx) {
    d.sub.In? || c.rel in d.relids ==> c.att >= 0
  }

  lemma {:induction false} CorrectVar(c: Col, d: DCtx, w: World, env: Env, cenv: CEnv)
    requires Ready(d, w, env, cenv) && Printable(c, d)
    ensures CEval(DeparseVar(c, d), w, cenv) == Get(env.row, c)
    ensures CEvalArr(DeparseArrVar(c, d), w, cenv) == GetArr(env.row, c)
  {
  }

  lemma {:induction false} AcceptedVar(e: Expr, ctx: Ctx, d: DCtx, relids: set<nat>, w: World)
    requires Accepted(e, ctx, d, relids, w)
    ensures e.Var? ==> Printable(e.col, d)
    ensures e.ArrayOp? && e.arr.ArrCol? ==> Printable(e.arr.col, d)
  {
  }

  lemma {:induction false} CorrectParam(id: nat, d: DCtx, w: World, env: Env, cenv: CEnv)
    requires Ready(d, w, env, cenv)
    ensures CEval(DeparseParam(id, d), w, cenv) == ParamValue(env.params, id)
  {
    if d.sub.In? {
      assert cenv == cenv.(inner := Some(cenv.inner.value), group := cenv.group);
    }
  }

  ghost predicate AcceptedAll(es: seq<Expr>, ctx: Ctx, d: DCtx, relids: set<nat>, w: World) {
    forall i :: 0 <= i < |es| ==> Accepted(es[i], ctx, d, relids, w)
  }

  /** The contexts that the walker and the deparser give to the operands fit together. */
  lemma {:induction false} AcceptedArgs(e: Expr, ctx: Ctx, d: DCtx, relids: set<nat>, w: World)
    requires Accepted(e, ctx, d, relids, w)
    ensures e.Call? ==> AcceptedAll(e.args, Exact, WithTruth(d, false), relids, w)
    ensures e.And? || e.Or? ==> AcceptedAll(e.args, AndOrCtx(ctx), d, relids, w)
  {
    if e.Call? || e.And? || e.Or? {
      var inner := if e.Call? then Exact else AndOrCtx(ctx);
      assert SoundAll(e.args, inner, PlaceOf(d, relids), w.emptyScalar);
      forall i | 0 <= i < |e.args|
        ensures Sound(e.args[i], inner, PlaceOf(d, relids), w.emptyScalar) && (HasSubPlan(e.args[i]) ==> HasSubPlan(e))
      {
      }
    }
  }

  lemma {:induction false} CorrectAll(es: seq<Expr>, ctx: Ctx, d: DCtx, relids: set<nat>, w: World, env: Env,
                                      cenv: CEnv)
    requires Ready(d, w, env, cenv) && ctx != Negated && AcceptedAll(es, ctx, d, relids, w)
    ensures forall i :: 0 <= i < |es| ==> Agree(ctx, EvalAll(es, w, env)[i], CEvalAll(DeparseAll(es, d), w, cenv)[i])
    ensures ctx != Truth ==> EvalAll(es, w, env) == CEvalAll(DeparseAll(es, d), w, cenv)
    decreases es, 0
  {
    forall i | 0 <= i < |es|
      ensures Agree(ctx, EvalAll(es, w, env)[i], CEvalAll(DeparseAll(es, d), w, cenv)[i])
    {
      Correct(es[i], ctx, d, relids, w, env, cenv);
    }
  }

  predicate IsAny(e: Expr) {
    e.SubPlan? && e.link == Any
  }

  /** Accepted in an exact position, the values are equal; accepted in a truth context, one is TRUE
      exactly when the other is. */
  lemma {:induction false} Correct(e: Expr, ctx: Ctx, d: DCtx, relids: set<nat>, w: World, env: Env, cenv: CEnv)
    requires Ready(d, w, env, cenv) && Accepted(e, ctx, d, relids, w)
    requires ctx == Negated ==> !IsAny(e)
    ensures Agree(ctx, Eval(e, w, env), CEval(Deparse(e, d), w, cenv))
    decreases e, 7
  {
    match e
    case Var(c) =>
      AcceptedVar(e, ctx, d, relids, w);
      CorrectVar(c, d, w, env, cenv);
    case Const(_) =>
    case Param(id, _) => CorrectParam(id, d, w, env, cenv);
    case Call(_, _, _) => CorrectCall(e, ctx, d, relids, w, env, cenv);
    case And(_) => CorrectAndOr(e, ctx, d, relids, w, env, cenv);
    case Or(_) => CorrectAndOr(e, ctx, d, relids, w, env, cenv);
    case Not(_) => CorrectNot(e, ctx, d, relids, w, env, cenv);
    case NullTest(_, _) => CorrectNullTest(e, ctx, d, relids, w, env, cenv);
    case Relabel(_) => CorrectRelabel(e, ctx, d, relids, w, env, cenv);
    case Case(_, _) =>
      CorrectCase(e, 0, ctx, d, relids, w, env, cenv);
      UnfoldCase(e, d, w, env, cenv);
    case ArrayOp(_, _, _, _) => CorrectArrayOp(e, ctx, d, relids, w, env, cenv);
    case Aggref(_, _, _) => CorrectAgg(e, ctx, d, relids, w, env, cenv);
    case SubPlan(_, _, _, _, _, _) => CorrectSubPlan(e, ctx, d, relids, w, env, cenv);
  }

  lemma {:induction false} CorrectCall(e: Expr, ctx: Ctx, d: DCtx, relids: set<nat>, w: World, env: Env, cenv: CEnv)
    requires Ready(d, w, env, cenv) && Accepted(e, ctx, d, relids, w) && e.Call?
    ensures Agree(ctx, Eval(e, w, env), CEval(Deparse(e, d), w, cenv))
    decreases e, 4
  {
    AcceptedArgs(e, ctx, d, relids, w);
    ReadyWithTruth(d, false, w, env, cenv);
    CorrectAll(e.args, Exact, WithTruth(d, false), relids, w, env, cenv);
  }

  /** In a truth context the operands need only be TRUE together. */
  lemma {:induction false} CorrectAndOr(e: Expr, ctx: Ctx, d: DCtx, relids: set<nat>, w: World, env: Env, cenv: CEnv)
    requires Ready(d, w, env, cenv) && Accepted(e, ctx, d, relids, w) && (e.And? || e.Or?)
    ensures Agree(ctx, Eval(e, w, env), CEval(Deparse(e, d), w, cenv))
    decreases e, 4
  {
    AcceptedArgs(e, ctx, d, relids, w);
    CorrectAll(e.args, AndOrCtx(ctx), d, relids, w, env, cenv);
    var pg, ch := EvalAll(e.args, w, env), CEvalAll(DeparseAll(e.args, d), w, cenv);
    if ctx == Truth {
      SameTruth(pg, ch);
    }
    UnfoldAndOr(e, d, w, env, cenv);
  }

  lemma {:induction false} SameTruth(pg: seq<Val>, ch: seq<Val>)
    requires |pg| == |ch| && forall i :: 0 <= i < |pg| ==> (IsTrue(pg[i]) <==> IsTrue(ch[i]))
    ensures IsTrue(And3(pg)) <==> IsTrue(And3(ch))
    ensures IsTrue(Or3(pg)) <==> IsTrue(Or3(ch))
  {
    TruthOfAnd(pg);
    TruthOfAnd(ch);
    TruthOfOr(pg);
    TruthOfOr(ch);
  }

  lemma {:induction false} UnfoldAndOr(e: Expr, d: DCtx, w: World, env: Env, cenv: CEnv)
    requires e.And? || e.Or?
    ensures var pg, ch := EvalAll(e.args, w, env), CEvalAll(DeparseAll(e.args, d), w, cenv);
            Eval(e, w, env) == (if e.And? then And3(pg) else Or3(pg)) &&
            CEval(Deparse(e, d), w, cenv) == if e.And? then And3(ch) else Or3(ch)
  {
  }

  lemma {:induction false} AcceptedUnary(e: Expr, ctx: Ctx, d: DCtx, relids: set<nat>, w: World)
    requires Accepted(e, ctx, d, relids, w)
    ensures e.Relabel? ==> Accepted(e.arg, AndOrCtx(ctx), d, relids, w)
    ensures e.NullTest? ==> Accepted(e.arg, Exact, WithTruth(d, false), relids, w)
  {
  }

  lemma {:induction false} CorrectRelabel(e: Expr, ctx: Ctx, d: DCtx, relids: set<nat>, w: World, env: Env, cenv: CEnv)
    requires Ready(d, w, env, cenv) && Accepted(e, ctx, d, relids, w) && e.Relabel?
    ensures Agree(ctx, Eval(e, w, env), CEval(Deparse(e, d), w, cenv))
    decreases e, 4
  {
    AcceptedUnary(e, ctx, d, relids, w);
    Correct(e.arg, AndOrCtx(ctx), d, relids, w, env, cenv);
  }

  lemma {:induction false} CorrectNullTest(e: Expr, ctx: Ctx, d: DCtx, relids: set<nat>, w: World, env: Env, cenv: CEnv)
    requires Ready(d, w, env, cenv) && Accepted(e, ctx, d, relids, w) && e.NullTest?
    ensures Agree(ctx, Eval(e, w, env), CEval(Deparse(e, d), w, cenv))
    decreases e, 4
  {
    AcceptedUnary(e, ctx, d, relids, w);
    ReadyWithTruth(d, false, w, env, cenv);
    Correct(e.arg, Exact, WithTruth(d, false), relids, w, env, cenv);
  }

  lemma {:induction false} UnfoldCase(e: Expr, d: DCtx, w: World, env: Env, cenv: CEnv)
    requires e.Case?
    ensures Eval(e, w, env) == EvalCase(e, 0, w, env)
    ensures CEval(Deparse(e, d), w, cenv) == CEvalCase(Deparse(e, d), 0, w, cenv)
  {
  }

  lemma {:induction false} AcceptedCase(e: Expr, ctx: Ctx, d: DCtx, relids: set<nat>, w: World)
    requires Accepted(e, ctx, d, relids, w) && e.Case?
    ensures forall i :: 0 <= i < |e.whens| ==>
              Accepted(e.whens[i].cond, Truth, WithTruth(d, true), relids, w) &&
              Accepted(e.whens[i].result, CaseResultCtx(ctx), d, relids, w)
    ensures e.els.Some? ==> Accepted(e.els.value, CaseResultCtx(ctx), d, relids, w)
  {
  }

  lemma {:induction false} CorrectCond(cond: Expr, d: DCtx, relids: set<nat>, w: World, env: Env, cenv: CEnv)
    requires Ready(d, w, env, cenv) && Accepted(cond, Truth, WithTruth(d, true), relids, w)
    ensures IsTrue(Eval(cond, w, env)) <==> IsTrue(CEval(DeparseCond(cond, d), w, cenv))
    decreases cond, 8
  {
    ReadyWithTruth(d, true, w, env, cenv);
    Correct(cond, Truth, WithTruth(d, true), relids, w, env, cenv);
  }

  lemma {:induction false} CorrectCase(e: Expr, k: nat, ctx: Ctx, d: DCtx, relids: set<nat>, w: World, env: Env,
                                       cenv: CEnv)
    requires Ready(d, w, env, cenv) && Accepted(e, ctx, d, relids, w) && e.Case? && k <= |e.whens|
    ensures Agree(ctx, EvalCase(e, k, w, env), CEvalCase(Deparse(e, d), k, w, cenv))
    decreases e, 4, |e.whens| - k
  {
    if k == |e.whens| {
      CorrectElse(e, ctx, d, relids, w, env, cenv);
    } else {
      CorrectWhen(e, k, ctx, d, relids, w, env, cenv);
      CorrectCase(e, k + 1, ctx, d, relids, w, env, cenv);
      UnfoldWhen(e, k, d, w, env, cenv);
    }
  }

  lemma {:induction false} CorrectElse(e: Expr, ctx: Ctx, d: DCtx, relids: set<nat>, w: World, env: Env, cenv: CEnv)
    requires Ready(d, w, env, cenv) && Accepted(e, ctx, d, relids, w) && e.Case?
    ensures Agree(ctx, EvalCase(e, |e.whens|, w, env), CEvalCase(Deparse(e, d), |e.whens|, w, cenv))
    decreases e, 3
  {
    if e.els.Some? {
      AcceptedCase(e, ctx, d, relids, w);
      Correct(e.els.value, CaseResultCtx(ctx), d, relids, w, env, cenv);
    }
  }

  lemma {:induction false} CorrectWhen(e: Expr, k: nat, ctx: Ctx, d: DCtx, relids: set<nat>, w: World, env: Env,
                                       cenv: CEnv)
    requires Ready(d, w, env, cenv) && Accepted(e, ctx, d, relids, w) && e.Case? && k < |e.whens|
    ensures IsTrue(Eval(e.whens[k].cond, w, env)) <==> IsTrue(CEval(DeparseCond(e.whens[k].cond, d), w, cenv))
    ensures Agree(ctx, Eval(e.whens[k].result, w, env), CEval(Deparse(e.whens[k].result, d), w, cenv))
    decreases e, 3
  {
    AcceptedCase(e, ctx, d, relids, w);
    CorrectCond(e.whens[k].cond, d, relids, w, env, cenv);
    Correct(e.whens[k].result, CaseResultCtx(ctx), d, relids, w, env, cenv);
  }

  lemma {:induction false} UnfoldWhen(e: Expr, k: nat, d: DCtx, w: World, env: Env, cenv: CEnv)
    requires e.Case? && k < |e.whens|
    ensures EvalCase(e, k, w, env) ==
            if IsTrue(Eval(e.whens[k].cond, w, env)) then Eval(e.whens[k].result, w, env)
            else EvalCase(e, k + 1, w, env)
    ensures CEvalCase(Deparse(e, d), k, w, cenv) ==
            if IsTrue(CEval(DeparseCond(e.whens[k].cond, d), w, cenv)) then
              CEval(Deparse(e.whens[k].result, d), w, cenv)
            else CEvalCase(Deparse(e, d), k + 1, w, cenv)
  {
    assert Deparse(e, d).whens[k] == CWhen(DeparseCond(e.whens[k].cond, d), Deparse(e.whens[k].result, d));
  }

  lemma {:induction false} CorrectArr(a: ArrExpr, d: DCtx, relids: set<nat>, w: World, env: Env, cenv: CEnv)
    requires Ready(d, w, env, cenv) && !a.ArrNull? && !d.truth && (a.ArrCol? ==> Printable(a.col, d))
    requires a.ArrList? ==> AcceptedAll(a.exprs, Exact, d, relids, w)
    ensures var elems := CEvalArr(DeparseArr(a, d), w, cenv);
            if a.ArrCol? && Extended(env.row, a.col) then EvalArr(a, w, env) == None && elems == []
            else EvalArr(a, w, env) == Some(elems)
    decreases a, 4
  {
    match a
    case ArrConst(_, _) =>
    case ArrList(exprs) => CorrectAll(exprs, Exact, d, relids, w, env, cenv);
    case ArrCol(c) => CorrectVar(c, d, w, env, cenv);
  }

  lemma {:induction false} ArrNullsSound(a: ArrExpr, d: DCtx, w: World, env: Env)
    requires RowOk(env.row, d.cols) && WorldOk(w, d.cfg) && !a.ArrNull?
    requires a.ArrConst? && Null in a.elems ==> a.nullBitmap
    ensures ArrNulls(a, d.relids, d.cols, d.cfg) == Empty ==> EvalArr(a, w, env) == Some([])
    ensures ArrNulls(a, d.relids, d.cols, d.cfg) == NullFree ==>
              EvalArr(a, w, env).Some? && Null !in EvalArr(a, w, env).value
  {
    if a.ArrList? && ArrNulls(a, d.relids, d.cols, d.cfg) == NullFree {
      forall i | 0 <= i < |a.exprs| ensures EvalAll(a.exprs, w, env)[i] != Null {
        NeverNullSound(a.exprs[i], d.relids, d.cols, d.cfg, w, env);
      }
    }
  }

  lemma {:induction false} AcceptedArrayOp(e: Expr, ctx: Ctx, d: DCtx, relids: set<nat>, w: World)
    requires Accepted(e, ctx, d, relids, w) && e.ArrayOp?
    ensures e.op != OpNone && !e.arr.ArrNull?
    ensures Accepted(e.probe, Exact, WithTruth(d, false), relids, w)
    ensures e.arr.ArrList? ==> AcceptedAll(e.arr.exprs, Exact, WithTruth(d, false), relids, w)
    ensures e.arr.ArrConst? && Null in e.arr.elems ==> e.arr.nullBitmap
    ensures e.arr.ArrCol? ==> ArrayHeld(e, ctx, d.cols.nulled)
  {
    if e.arr.ArrList? {
      assert SoundAll(e.arr.exprs, Exact, PlaceOf(d, relids), w.emptyScalar);
      forall i | 0 <= i < |e.arr.exprs|
        ensures Sound(e.arr.exprs[i], Exact, PlaceOf(d, relids), w.emptyScalar) &&
                (HasSubPlan(e.arr.exprs[i]) ==> HasSubPlan(e))
      {
      }
    }
  }

  /** Whichever form is chosen. */
  lemma {:induction false} ChosenFormAgrees(useOr: bool, op: EqualOp, arr: ArrExpr, nulls: ArrayNulls,
                                            probeNeverNull: bool, truth: bool, p: CExpr, a: CArr, w: World, cenv: CEnv)
    requires op != OpNone
    requires arr.ArrConst? ==> CEvalArr(a, w, cenv) == arr.elems
    requires nulls == Empty ==> CEvalArr(a, w, cenv) == []
    requires nulls == NullFree ==> Null !in CEvalArr(a, w, cenv)
    requires probeNeverNull ==> CEval(p, w, cenv) != Null
    ensures var pg := ScalarArrayOp(useOr, op, CEval(p, w, cenv), CEvalArr(a, w, cenv));
            var ch := CEval(ChooseArrayOp(useOr, op, arr, nulls, probeNeverNull, truth, p, a), w, cenv);
            Agree(if truth then Truth else Exact, pg, ch)
  {
    if NativeInOk(useOr, op, arr, nulls, truth) {
      NativeInExact(useOr, CEval(p, w, cenv), arr.elems);
      assert CEval(CIn(op == OpNe, p, arr.elems), w, cenv) == SetIn(op == OpNe, CEval(p, w, cenv), arr.elems);
    } else if nulls == Empty || (nulls == NullFree && probeNeverNull) {
      CheapArrayOpExact(useOr, op, p, a, w, cenv);
    } else {
      GuardedArrayOpExact(useOr, op, p, a, w, cenv);
    }
  }

  lemma {:induction false} CorrectArrayOp(e: Expr, ctx: Ctx, d: DCtx, relids: set<nat>, w: World, env: Env, cenv: CEnv)
    requires Ready(d, w, env, cenv) && Accepted(e, ctx, d, relids, w) && e.ArrayOp?
    ensures Agree(ctx, Eval(e, w, env), CEval(Deparse(e, d), w, cenv))
    decreases e, 4
  {
    var exact := WithTruth(d, false);
    ReadyWithTruth(d, false, w, env, cenv);
    AcceptedArrayOp(e, ctx, d, relids, w);
    AcceptedVar(e, ctx, d, relids, w);
    Correct(e.probe, Exact, exact, relids, w, env, cenv);
    CorrectArr(e.arr, exact, relids, w, env, cenv);
    OperandsDecide(e, ctx, d, w, env, cenv);
  }

  /** With both operands right, so is the operator. */
  lemma {:induction false} OperandsDecide(e: Expr, ctx: Ctx, d: DCtx, w: World, env: Env, cenv: CEnv)
    requires RowOk(env.row, d.cols) && WorldOk(w, d.cfg) && e.ArrayOp? && e.op != OpNone && !e.arr.ArrNull?
    requires (e.arr.ArrConst? && Null in e.arr.elems ==> e.arr.nullBitmap) && (d.truth ==> ctx == Truth)
    requires e.arr.ArrCol? ==> ArrayHeld(e, ctx, d.cols.nulled)
    requires Eval(e.probe, w, env) == CEval(Deparse(e.probe, WithTruth(d, false)), w, cenv)
    requires var elems := CEvalArr(DeparseArr(e.arr, WithTruth(d, false)), w, cenv);
             if e.arr.ArrCol? && Extended(env.row, e.arr.col) then EvalArr(e.arr, w, env) == None && elems == []
             else EvalArr(e.arr, w, env) == Some(elems)
    ensures Agree(ctx, Eval(e, w, env), CEval(Deparse(e, d), w, cenv))
  {
    var p, a := Deparse(e.probe, WithTruth(d, false)), DeparseArr(e.arr, WithTruth(d, false));
    ArrNullsSound(e.arr, d, w, env);
    var probeNeverNull := NeverNull(e.probe, d.relids, d.cols, d.cfg);
    if probeNeverNull {
      NeverNullSound(e.probe, d.relids, d.cols, d.cfg, w, env);
    }
    ChosenFormAgrees(e.useOr, e.op, e.arr, ArrNulls(e.arr, d.relids, d.cols, d.cfg), probeNeverNull, d.truth, p, a, w,
      cenv);
    UnfoldArrayOp(e, d, w, env);
  }

  lemma {:induction false} UnfoldArrayOp(e: Expr, d: DCtx, w: World, env: Env)
    requires e.ArrayOp? && e.op != OpNone
    ensures Eval(e, w, env) == match EvalArr(e.arr, w, env)
                               case None => Null
                               case Some(elems) => ScalarArrayOp(e.useOr, e.op, Eval(e.probe, w, env), elems)
    ensures Deparse(e, d) ==
            ChooseArrayOp(e.useOr, e.op, e.arr, ArrNulls(e.arr, d.relids, d.cols, d.cfg),
                          NeverNull(e.probe, d.relids, d.cols, d.cfg), d.truth,
                          Deparse(e.probe, WithTruth(d, false)), DeparseArr(e.arr, WithTruth(d, false)))
  {
  }

  // ---------- aggregates ----------

  lemma {:induction false} ReadyOnRow(d: DCtx, w: World, env: Env, cenv: CEnv, r: Row)
    requires Ready(d, w, env, cenv) && r in env.group
    ensures Ready(d, w, env.(row := r), OnRow(cenv, r).(bound := if d.sub.Top? then r else cenv.bound))
  {
    if d.sub.In? {
      var env2, cenv2 := env.(row := r), OnRow(cenv, r).(bound := cenv.bound);
      forall id, i, g
        ensures CEval(DeparseParam(id, d), w, cenv2.(inner := Some(i), group := g)) == ParamValue(env2.params, id)
      {
        assert cenv2.(inner := Some(i), group := g) == cenv.(inner := Some(i), group := g);
      }
    }
  }

  lemma {:induction false} AcceptedAgg(e: Expr, ctx: Ctx, d: DCtx, relids: set<nat>, w: World)
    requires Accepted(e, ctx, d, relids, w) && e.Aggref?
    ensures d.sub.In? && e.f in d.cfg.shippableAggs && Accepted(e.arg, Exact, WithTruth(d, false), relids, w)
    ensures e.filter.Some? ==> Accepted(e.filter.value, Truth, WithTruth(d, true), relids, w)
  {
  }

  lemma {:induction false} CorrectAgg(e: Expr, ctx: Ctx, d: DCtx, relids: set<nat>, w: World, env: Env, cenv: CEnv)
    requires Ready(d, w, env, cenv) && Accepted(e, ctx, d, relids, w) && e.Aggref?
    ensures Agree(ctx, Eval(e, w, env), CEval(Deparse(e, d), w, cenv))
    decreases e, 4
  {
    forall r | r in env.group
      ensures Eval(e.arg, w, env.(row := r)) == CEval(Deparse(e.arg, WithTruth(d, false)), w, OnRow(cenv, r))
      ensures e.filter.Some? ==>
                (IsTrue(Eval(e.filter.value, w, env.(row := r))) <==>
                 IsTrue(CEval(Deparse(e.filter.value, WithTruth(d, true)), w, OnRow(cenv, r))))
    {
      AggRowAgrees(e, ctx, d, relids, w, env, cenv, r);
    }
    AcceptedAgg(e, ctx, d, relids, w);
    AggInputsAgree(e, d, w, env, cenv);
  }

  /** The argument and the FILTER on one row of the group. */
  lemma {:induction false} AggRowAgrees(e: Expr, ctx: Ctx, d: DCtx, relids: set<nat>, w: World, env: Env, cenv: CEnv,
                                        r: Row)
    requires Ready(d, w, env, cenv) && Accepted(e, ctx, d, relids, w) && e.Aggref? && r in env.group
    ensures Eval(e.arg, w, env.(row := r)) == CEval(Deparse(e.arg, WithTruth(d, false)), w, OnRow(cenv, r))
    ensures e.filter.Some? ==>
              (IsTrue(Eval(e.filter.value, w, env.(row := r))) <==>
               IsTrue(CEval(Deparse(e.filter.value, WithTruth(d, true)), w, OnRow(cenv, r))))
    decreases e, 3
  {
    AcceptedAgg(e, ctx, d, relids, w);
    var onRow, conRow := env.(row := r), OnRow(cenv, r);
    ReadyOnRow(d, w, env, cenv, r);
    ReadyWithTruth(d, false, w, onRow, conRow);
    Correct(e.arg, Exact, WithTruth(d, false), relids, w, onRow, conRow);
    if e.filter.Some? {
      ReadyWithTruth(d, true, w, onRow, conRow);
      Correct(e.filter.value, Truth, WithTruth(d, true), relids, w, onRow, conRow);
    }
  }

  lemma {:induction false} AggInputsAgree(e: Expr, d: DCtx, w: World, env: Env, cenv: CEnv)
    requires e.Aggref? && cenv.group == env.group && e.f in d.cfg.shippableAggs && WorldOk(w, d.cfg)
    requires forall r :: r in env.group ==>
               Eval(e.arg, w, env.(row := r)) == CEval(Deparse(e.arg, WithTruth(d, false)), w, OnRow(cenv, r))
    requires e.filter.Some? ==> forall r :: r in env.group ==>
               (IsTrue(Eval(e.filter.value, w, env.(row := r))) <==>
                IsTrue(CEval(Deparse(e.filter.value, WithTruth(d, true)), w, OnRow(cenv, r))))
    ensures Eval(e, w, env) == CEval(Deparse(e, d), w, cenv)
  {
    var g, arg := env.group, Deparse(e.arg, WithTruth(d, false));
    if e.filter.Some? {
      FilterAgrees(e.filter.value, Deparse(e.filter.value, WithTruth(d, true)), w, env, cenv);
    }
    var kept := if e.filter.None? then g else FilterRows(e.filter.value, w, env);
    forall i | 0 <= i < |kept| ensures EvalOnRows(e.arg, kept, w, env)[i] == CEvalOnRows(arg, kept, w, cenv)[i] {
      assert kept[i] in kept;
    }
    assert EvalOnRows(e.arg, kept, w, env) == CEvalOnRows(arg, kept, w, cenv);
    UnfoldAgg(e, d, w, env, cenv);
  }

  lemma {:induction false} UnfoldAgg(e: Expr, d: DCtx, w: World, env: Env, cenv: CEnv)
    requires e.Aggref?
    ensures Eval(e, w, env) ==
            w.aggregate(e.f, EvalOnRows(e.arg, if e.filter.None? then env.group
              else FilterRows(e.filter.value, w, env), w, env))
    ensures CEval(Deparse(e, d), w, cenv) ==
            w.caggregate(e.f, CEvalOnRows(Deparse(e.arg, WithTruth(d, false)),
                                          if e.filter.None? then cenv.group
                                          else CFilterRows(Deparse(e.filter.value, WithTruth(d, true)), w, cenv), w,
                                            cenv))
  {
    var filter := if e.filter.Some? then Some(Deparse(e.filter.value, WithTruth(d, true))) else None;
    var c := CAgg(e.f, Deparse(e.arg, WithTruth(d, false)), filter);
    assert Deparse(e, d) == c;
    UnfoldCAgg(c, w, cenv);
  }

  lemma {:induction false} UnfoldCAgg(c: CExpr, w: World, cenv: CEnv)
    requires c.CAgg?
    ensures CEval(c, w, cenv) ==
            w.caggregate(c.f, CEvalOnRows(c.arg, if c.filter.None? then cenv.group
              else CFilterRows(c.filter.value, w, cenv), w, cenv))
  {
  }

  lemma {:induction false} FilterAgrees(filter: Expr, cfilter: CExpr, w: World, env: Env, cenv: CEnv)
    requires cenv.group == env.group
    requires forall r :: r in env.group ==>
               (IsTrue(Eval(filter, w, env.(row := r))) <==> IsTrue(CEval(cfilter, w, OnRow(cenv, r))))
    ensures FilterRows(filter, w, env) == CFilterRows(cfilter, w, cenv)
  {
    var flags, cflags := FilterFlags(filter, w, env), CFilterFlags(cfilter, w, cenv);
    forall i | 0 <= i < |flags| ensures flags[i] == cflags[i] {
      assert env.group[i] in env.group;
    }
    assert flags == cflags;
    assert FilterRows(filter, w, env) == Select(env.group, flags);
    assert CFilterRows(cfilter, w, cenv) == Select(env.group, cflags);
  }

  // ---------- subqueries ----------

  lemma {:induction false} FindArgAt(cs: seq<Correlation>, d: DCtx, id: nat, from: nat)
    requires DistinctIds(cs) && from <= |cs|
    ensures forall k :: from <= k < |cs| && cs[k].id == id ==>
              FindArg(DeparseArgs(cs, d)[from..], id) == Some(Deparse(cs[k].arg, d))
    ensures (forall k :: from <= k < |cs| ==> cs[k].id != id) ==> FindArg(DeparseArgs(cs, d)[from..], id) == None
    decreases |cs| - from
  {
    if from < |cs| {
      var rest := DeparseArgs(cs, d)[from..];
      assert rest[0] == CArg(cs[from].id, Deparse(cs[from].arg, d)) && rest[1..] == DeparseArgs(cs, d)[from + 1..];
      FindArgAt(cs, d, id, from + 1);
    }
  }

  lemma {:induction false} CorrelatedAt(cs: seq<Correlation>, n: nat, w: World, env: Env, id: nat)
    requires DistinctIds(cs) && n <= |cs|
    ensures forall k :: 0 <= k < n && cs[k].id == id ==>
              id in CorrelatedValues(cs, n, w, env) && CorrelatedValues(cs, n, w, env)[id] == Eval(cs[k].arg, w, env)
    ensures (forall k :: 0 <= k < n ==> cs[k].id != id) ==> id !in CorrelatedValues(cs, n, w, env)
    decreases n
  {
    if n > 0 {
      CorrelatedAt(cs, n - 1, w, env, id);
    }
  }

  function BodyParams(sp: Expr, w: World, env: Env): map<nat, Val>
    requires sp.SubPlan?
  {
    env.params + CorrelatedValues(sp.correlated, |sp.correlated|, w, env)
  }

  lemma {:induction false} AcceptedSubPlan(e: Expr, ctx: Ctx, d: DCtx, relids: set<nat>, w: World)
    requires Accepted(e, ctx, d, relids, w) && e.SubPlan?
    ensures d.sub.Top? && d.qualify && relids <= d.relids && SubPlanFaithful(e, w.emptyScalar) &&
            DistinctIds(e.correlated)
    ensures DistinctFrom(e.body.from) && e.body.deparsable && e.body.from != [] && d.cfg.serverOk
    ensures IsAny(e) ==> e.testOp.Equality?
    ensures IsAny(e) ==> Accepted(e.lhs, Exact, WithTruth(d, false), relids, w)
    ensures forall i :: 0 <= i < |e.correlated| ==> Accepted(e.correlated[i].arg, Exact, WithTruth(d, false), relids, w)
  {
  }

  /** The body's own expressions, deparsed in its own scope. */
  lemma {:induction false} AcceptedBody(e: Expr, ctx: Ctx, d: DCtx, relids: set<nat>, w: World)
    requires Accepted(e, ctx, d, relids, w) && e.SubPlan?
    ensures var dq, q := BodyCtx(e, WithTruth(d, false)), e.body;
            AcceptedAll(q.quals, Truth, WithTruth(dq, true), FromRelids(q), w) &&
            AcceptedAll(q.groupBy, Exact, dq, FromRelids(q), w) &&
            AcceptedAll(q.having, Truth, WithTruth(dq, true), FromRelids(q), w) &&
            Accepted(q.target, Exact, dq, FromRelids(q), w)
  {
    var q := e.body;
    var at := Body(FromRelids(q));
    assert WalkBody(q, d.cfg) && SoundBody(q, w.emptyScalar);
    assert SoundAll(q.quals, Truth, at, w.emptyScalar) && SoundAll(q.groupBy, Exact, at, w.emptyScalar) &&
           SoundAll(q.having, Truth, at, w.emptyScalar);
  }

  /** Inlining the outer expressions binds the body's Params as the executor does. */
  lemma {:induction false} BodyParamAgrees(e: Expr, ctx: Ctx, d: DCtx, relids: set<nat>, w: World, env: Env, cenv: CEnv,
                                           id: nat, i: Inner, g: seq<Row>)
    requires Ready(d, w, env, cenv) && Accepted(e, ctx, d, relids, w) && e.SubPlan? && !d.truth
    ensures CEval(DeparseParam(id, BodyCtx(e, d)), w, cenv.(inner := Some(i), group := g)) ==
            ParamValue(BodyParams(e, w, env), id)
    decreases e, 0
  {
    AcceptedSubPlan(e, ctx, d, relids, w);
    assert WithTruth(d, false) == d;
    var cs := e.correlated;
    if k :| 0 <= k < |cs| && cs[k].id == id {
      ParamBound(e, d, w, env, id, k);
      assert (e decreases to cs[k]);
      InlinedArgAgrees(cs[k].arg, d, relids, w, env, cenv, i, g);
    } else {
      ParamFree(e, d, w, env, id);
    }
  }

  /** A Param that the subquery binds. */
  lemma {:induction false} ParamBound(e: Expr, d: DCtx, w: World, env: Env, id: nat, k: nat)
    requires e.SubPlan? && DistinctIds(e.correlated) && k < |e.correlated| && e.correlated[k].id == id
    ensures DeparseParam(id, BodyCtx(e, d)) == Deparse(e.correlated[k].arg, d)
    ensures ParamValue(BodyParams(e, w, env), id) == Eval(e.correlated[k].arg, w, env)
  {
    var cs := e.correlated;
    FindArgAt(cs, d, id, 0);
    CorrelatedAt(cs, |cs|, w, env, id);
    assert DeparseArgs(cs, d)[0..] == DeparseArgs(cs, d);
  }

  /** A Param of the query around it. */
  lemma {:induction false} ParamFree(e: Expr, d: DCtx, w: World, env: Env, id: nat)
    requires e.SubPlan? && DistinctIds(e.correlated) && forall k :: 0 <= k < |e.correlated| ==> e.correlated[k].id != id
    ensures DeparseParam(id, BodyCtx(e, d)) == CParam(id)
    ensures ParamValue(BodyParams(e, w, env), id) == ParamValue(env.params, id)
  {
    var cs := e.correlated;
    FindArgAt(cs, d, id, 0);
    CorrelatedAt(cs, |cs|, w, env, id);
    assert DeparseArgs(cs, d)[0..] == DeparseArgs(cs, d);
  }

  /** An outer expression means inside a body what it means outside. */
  lemma {:induction false} InlinedArgAgrees(arg: Expr, d: DCtx, relids: set<nat>, w: World, env: Env, cenv: CEnv,
                                            i: Inner, g: seq<Row>)
    requires Ready(d, w, env, cenv) && Accepted(arg, Exact, d, relids, w) && d.sub.Top? && d.qualify
    ensures CEval(Deparse(arg, d), w, cenv.(inner := Some(i), group := g)) == Eval(arg, w, env)
    decreases arg, 8
  {
    Correct(arg, Exact, d, relids, w, env, cenv);
    DeparsedOuterOnly(arg, Exact, d, relids, d.cols);
    OuterStable(Deparse(arg, d), w, cenv, Some(i), g);
  }

  lemma {:induction false} BodyReady(e: Expr, ctx: Ctx, d: DCtx, relids: set<nat>, w: World, env: Env, cenv: CEnv,
                                     g: seq<Row>)
    requires Ready(d, w, env, cenv) && Accepted(e, ctx, d, relids, w) && e.SubPlan? && !d.truth
    requires FromRows(g, e.body.from, w)
    ensures Ready(BodyCtx(e, d), w, GroupEnv(g, BodyParams(e, w, env)), InsideGroup(cenv, e.planId, g))
    ensures g != [] ==> Ready(BodyCtx(e, d), w, Env(g[0], [], BodyParams(e, w, env)), Inside(cenv, e.planId, g[0]))
    decreases e, 1
  {
    AcceptedSubPlan(e, ctx, d, relids, w);
    var dq, params := BodyCtx(e, d), BodyParams(e, w, env);
    forall r | r in g ensures RowOk(r, dq.cols) {
      BodyRowsOk(e.body, w, d.cfg, r);
    }
    forall id, i, h
      ensures CEval(DeparseParam(id, dq), w, cenv.(inner := Some(i), group := h)) == ParamValue(params, id)
    {
      BodyParamAgrees(e, ctx, d, relids, w, env, cenv, id, i, h);
    }
    forall inner, h0
      ensures ParamsAgree(dq, w, Env(Phantom, [], params), cenv.(inner := inner, group := h0))
    {
      forall id, i, h
        ensures CEval(DeparseParam(id, dq), w, cenv.(inner := inner, group := h0).(inner := Some(i), group := h)) ==
                ParamValue(params, id)
      {
        assert cenv.(inner := inner, group := h0).(inner := Some(i), group := h) == cenv.(inner := Some(i), group := h);
      }
    }
    ParamsOnly(dq, w, Env(Phantom, [], params), GroupEnv(g, params), InsideGroup(cenv, e.planId, g));
    if g != [] {
      assert g[0] in g;
      ParamsOnly(dq, w, Env(Phantom, [], params), Env(g[0], [], params), Inside(cenv, e.planId, g[0]));
    }
  }

  lemma {:induction false} ParamsOnly(d: DCtx, w: World, env: Env, env2: Env, cenv: CEnv)
    requires ParamsAgree(d, w, env, cenv) && env.params == env2.params
    ensures ParamsAgree(d, w, env2, cenv)
  {
  }

  lemma {:induction false} HoldsAgrees(quals: seq<Expr>, d: DCtx, relids: set<nat>, w: World, env: Env, cenv: CEnv)
    requires Ready(d, w, env, cenv) && AcceptedAll(quals, Truth, d, relids, w)
    ensures Holds(quals, w, env) <==> CHolds(DeparseAll(quals, d), w, cenv)
    decreases quals, 1
  {
    CorrectAll(quals, Truth, d, relids, w, env, cenv);
    forall k | 0 <= k < |quals|
      ensures IsTrue(Eval(quals[k], w, env)) <==> IsTrue(CEval(DeparseAll(quals, d)[k], w, cenv))
    {
      assert Agree(Truth, EvalAll(quals, w, env)[k], CEvalAll(DeparseAll(quals, d), w, cenv)[k]);
    }
  }

  /** Expression by expression, for one row of the FROM list. */
  lemma {:induction false} BodyRowAgrees(e: Expr, ctx: Ctx, d: DCtx, relids: set<nat>, w: World, env: Env, cenv: CEnv,
                                         r: Row)
    requires Ready(d, w, env, cenv) && Accepted(e, ctx, d, relids, w) && e.SubPlan? && !d.truth
    requires r in Cross(e.body.from, w.db)
    ensures var q, dq := e.body, BodyCtx(e, d);
            var rowEnv, crowEnv := Env(r, [], BodyParams(e, w, env)), Inside(cenv, e.planId, r);
            (Holds(q.quals, w, rowEnv) <==> CHolds(DeparseAll(q.quals, WithTruth(dq, true)), w, crowEnv)) &&
            EvalAll(q.groupBy, w, rowEnv) == CEvalAll(DeparseAll(q.groupBy, dq), w, crowEnv) &&
            Eval(q.target, w, rowEnv) == CEval(Deparse(q.target, dq), w, crowEnv)
    decreases e, 2
  {
    var q, dq := e.body, BodyCtx(e, d);
    var rowEnv, crowEnv := Env(r, [], BodyParams(e, w, env)), Inside(cenv, e.planId, r);
    assert WithTruth(d, false) == d;
    BodyReady(e, ctx, d, relids, w, env, cenv, [r]);
    ReadyWithTruth(dq, true, w, rowEnv, crowEnv);
    AcceptedBody(e, ctx, d, relids, w);
    HoldsAgrees(q.quals, WithTruth(dq, true), FromRelids(q), w, rowEnv, crowEnv);
    CorrectAll(q.groupBy, Exact, dq, FromRelids(q), w, rowEnv, crowEnv);
    Correct(q.target, Exact, dq, FromRelids(q), w, rowEnv, crowEnv);
  }

  /** The same for a group. */
  lemma {:induction false} BodyGroupAgrees(e: Expr, ctx: Ctx, d: DCtx, relids: set<nat>, w: World, env: Env,
                                           cenv: CEnv, g: seq<Row>)
    requires Ready(d, w, env, cenv) && Accepted(e, ctx, d, relids, w) && e.SubPlan? && !d.truth
    requires FromRows(g, e.body.from, w)
    ensures var q, dq := e.body, BodyCtx(e, d);
            var groupEnv, cgroupEnv := GroupEnv(g, BodyParams(e, w, env)), InsideGroup(cenv, e.planId, g);
            (Holds(q.having, w, groupEnv) <==> CHolds(DeparseAll(q.having, WithTruth(dq, true)), w, cgroupEnv)) &&
            Eval(q.target, w, groupEnv) == CEval(Deparse(q.target, dq), w, cgroupEnv)
    decreases e, 2
  {
    var q, dq := e.body, BodyCtx(e, d);
    var groupEnv, cgroupEnv := GroupEnv(g, BodyParams(e, w, env)), InsideGroup(cenv, e.planId, g);
    assert WithTruth(d, false) == d;
    BodyReady(e, ctx, d, relids, w, env, cenv, g);
    ReadyWithTruth(dq, true, w, groupEnv, cgroupEnv);
    AcceptedBody(e, ctx, d, relids, w);
    HoldsAgrees(q.having, WithTruth(dq, true), FromRelids(q), w, groupEnv, cgroupEnv);
    Correct(q.target, Exact, dq, FromRelids(q), w, groupEnv, cgroupEnv);
  }

  /** The emitted subquery returns the rows of the original one. */
  lemma {:induction false} QueryAgrees(e: Expr, ctx: Ctx, d: DCtx, relids: set<nat>, w: World, env: Env, cenv: CEnv)
    requires Ready(d, w, env, cenv) && Accepted(e, ctx, d, relids, w) && e.SubPlan? && !d.truth
    ensures var out := Output(e.body, w, BodyParams(e, w, env));
            var cout := COutput(DeparseQuery(e, d, false), w, cenv);
            |out| == |cout| && (e.link != Exists ==> out == cout)
    decreases e, 4
  {
    AcceptedSubPlan(e, ctx, d, relids, w);
    var q, cq, params := e.body, DeparseQuery(e, d, false), BodyParams(e, w, env);
    QueryRowsAgree(e, ctx, d, relids, w, env, cenv);
    QueryGroupsAgree(e, ctx, d, relids, w, env, cenv);
    GroupedAlike(e, d);
    OutputsAgree(q, cq, w, params, cenv);
  }

  lemma {:induction false} GroupedAlike(e: Expr, d: DCtx)
    requires e.SubPlan? && (e.link == Exists ==> e.body.groupBy != [] || e.body.having != [] || !e.body.hasAggs)
    ensures IsGrouped(e.body) == CGrouped(DeparseQuery(e, d, false))
  {
  }

  lemma {:induction false} QueryRowsAgree(e: Expr, ctx: Ctx, d: DCtx, relids: set<nat>, w: World, env: Env, cenv: CEnv)
    requires Ready(d, w, env, cenv) && Accepted(e, ctx, d, relids, w) && e.SubPlan? && !d.truth
    ensures var q, cq, params := e.body, DeparseQuery(e, d, false), BodyParams(e, w, env);
            QualsAgree(q, cq, w, params, cenv) && KeysAgree(q, cq, w, params, cenv) &&
            (e.link != Exists ==> forall r :: r in Cross(q.from, w.db) ==>
              Eval(q.target, w, Env(r, [], params)) == CEval(cq.target, w, Inside(cenv, cq.planId, r)))
    decreases e, 3
  {
    var q, cq, params := e.body, DeparseQuery(e, d, false), BodyParams(e, w, env);
    assert cq.where == DeparseAll(q.quals, WithTruth(BodyCtx(e, d), true));
    forall r | r in Cross(q.from, w.db)
      ensures Holds(q.quals, w, Env(r, [], params)) <==> CHolds(cq.where, w, Inside(cenv, cq.planId, r))
      ensures EvalAll(q.groupBy, w, Env(r, [], params)) == CEvalAll(cq.groupBy, w, Inside(cenv, cq.planId, r))
      ensures e.link != Exists ==>
                Eval(q.target, w, Env(r, [], params)) == CEval(cq.target, w, Inside(cenv, cq.planId, r))
    {
      BodyRowAgrees(e, ctx, d, relids, w, env, cenv, r);
    }
  }

  lemma {:induction false} QueryGroupsAgree(e: Expr, ctx: Ctx, d: DCtx, relids: set<nat>, w: World, env: Env,
                                            cenv: CEnv)
    requires Ready(d, w, env, cenv) && Accepted(e, ctx, d, relids, w) && e.SubPlan? && !d.truth
    ensures var q, cq, params := e.body, DeparseQuery(e, d, false), BodyParams(e, w, env);
            HavingAgrees(q, cq, w, params, cenv) &&
            (e.link != Exists ==> forall g :: FromRows(g, q.from, w) ==>
              Eval(q.target, w, GroupEnv(g, params)) == CEval(cq.target, w, InsideGroup(cenv, cq.planId, g)))
    decreases e, 3
  {
    var q, cq, params := e.body, DeparseQuery(e, d, false), BodyParams(e, w, env);
    forall g | FromRows(g, q.from, w)
      ensures Holds(q.having, w, GroupEnv(g, params)) <==> CHolds(cq.having, w, InsideGroup(cenv, cq.planId, g))
      ensures e.link != Exists ==>
                Eval(q.target, w, GroupEnv(g, params)) == CEval(cq.target, w, InsideGroup(cenv, cq.planId, g))
    {
      BodyGroupAgrees(e, ctx, d, relids, w, env, cenv, g);
    }
  }

  lemma {:induction false} NullProbeAgrees(e: Expr, ctx: Ctx, d: DCtx, relids: set<nat>, w: World, env: Env, cenv: CEnv)
    requires Ready(d, w, env, cenv) && Accepted(e, ctx, d, relids, w) && e.SubPlan? && !d.truth && !IsGrouped(e.body)
    ensures COutput(DeparseQuery(e, d, true), w, cenv) != [] <==> Null in Output(e.body, w, BodyParams(e, w, env))
    decreases e, 3
  {
    var q, cq, params := e.body, DeparseQuery(e, d, true), BodyParams(e, w, env);
    var dq := BodyCtx(e, d);
    forall r | r in Cross(q.from, w.db)
      ensures CHolds(cq.where, w, Inside(cenv, cq.planId, r)) <==>
              Holds(q.quals, w, Env(r, [], params)) && Eval(q.target, w, Env(r, [], params)) == Null
    {
      BodyRowAgrees(e, ctx, d, relids, w, env, cenv, r);
      HoldsWithNullProbe(DeparseAll(q.quals, WithTruth(dq, true)), Deparse(q.target, dq), w,
        Inside(cenv, cq.planId, r));
    }
    NullProbeAsks(q, cq, w, params, cenv);
  }

  lemma {:induction false} HoldsWithNullProbe(quals: seq<CExpr>, target: CExpr, w: World, cenv: CEnv)
    ensures CHolds(quals + [CIsNull(true, target)], w, cenv) <==>
              CHolds(quals, w, cenv) && CEval(target, w, cenv) == Null
  {
    var all := quals + [CIsNull(true, target)];
    assert CEval(all[|quals|], w, cenv) == Bool(CEval(target, w, cenv) == Null);
    assert forall k :: 0 <= k < |quals| ==> all[k] == quals[k];
  }

  lemma {:induction false} UnfoldSubPlan(e: Expr, w: World, env: Env)
    requires e.SubPlan? && e.body.deparsable && (e.link == Any ==> e.testOp.Equality?)
    ensures var out := Output(e.body, w, BodyParams(e, w, env));
            Eval(e, w, env) == match e.link
                               case Exists => Bool(out != [])
                               case Scalar => (if out == [] then Null else out[0])
                               case Any => InRows(Eval(e.lhs, w, env), out)
  {
  }

  lemma {:induction false} UnfoldDeparsedSubPlan(e: Expr, d: DCtx, w: World, cenv: CEnv)
    requires e.SubPlan? && e.body.from != [] && w.correlates
    ensures var cout := COutput(DeparseQuery(e, WithTruth(d, false), false), w, cenv);
            CEval(Deparse(e, d), w, cenv) == match e.link
                                             case Exists => Bool(cout != [])
                                             case Scalar => (if cout == [] then w.emptyScalar else cout[0])
                                             case Any => SetIn(false,
                                               CEval(Deparse(e.lhs, WithTruth(d, false)), w, cenv), cout)
  {
    DeparsedSubPlanForm(e, d);
    var cq := DeparseQuery(e, WithTruth(d, false), false);
    EvalExists(cq, w, cenv);
    EvalScalar(cq, w, cenv);
    EvalIn(cq, Deparse(e.lhs, WithTruth(d, false)), w, cenv);
  }

  lemma {:induction false} DeparsedSubPlanForm(e: Expr, d: DCtx)
    requires e.SubPlan?
    ensures var exact := WithTruth(d, false);
            var cq := DeparseQuery(e, exact, false);
            Deparse(e, d) == match e.link
                             case Exists => CExists(cq)
                             case Scalar => CScalar(cq)
                             case Any => CInQuery(false, Deparse(e.lhs, exact), cq)
  {
  }

  lemma {:induction false} EvalExists(cq: CQuery, w: World, cenv: CEnv)
    requires Runs(cq, w)
    ensures CEval(CExists(cq), w, cenv) == Bool(COutput(cq, w, cenv) != [])
  {
  }

  lemma {:induction false} EvalScalar(cq: CQuery, w: World, cenv: CEnv)
    requires Runs(cq, w)
    ensures var cout := COutput(cq, w, cenv);
            CEval(CScalar(cq), w, cenv) == if cout == [] then w.emptyScalar else cout[0]
  {
  }

  lemma {:induction false} EvalIn(cq: CQuery, probe: CExpr, w: World, cenv: CEnv)
    requires Runs(cq, w)
    ensures CEval(CInQuery(false, probe, cq), w, cenv) == SetIn(false, CEval(probe, w, cenv), COutput(cq, w, cenv))
  {
  }

  /** Native IN is TRUE for the same rows, and exact when neither side can be NULL. */
  lemma {:induction false} CorrectAny(e: Expr, ctx: Ctx, d: DCtx, relids: set<nat>, w: World, env: Env, cenv: CEnv)
    requires Ready(d, w, env, cenv) && Accepted(e, ctx, d, relids, w) && IsAny(e)
    ensures Agree(Truth, Eval(e, w, env), CEval(Deparse(e, d), w, cenv))
    ensures ClassifyNotIn(e, d.relids, d.cols, d.cfg) == Plain ==> Eval(e, w, env) == CEval(Deparse(e, d), w, cenv)
    decreases e, 5
  {
    var exact := WithTruth(d, false);
    ReadyWithTruth(d, false, w, env, cenv);
    AcceptedSubPlan(e, ctx, d, relids, w);
    Correct(e.lhs, Exact, exact, relids, w, env, cenv);
    QueryAgrees(e, ctx, exact, relids, w, env, cenv);
    var x, out := Eval(e.lhs, w, env), Output(e.body, w, BodyParams(e, w, env));
    InRowsCases(x, out);
    UnfoldSubPlan(e, w, env);
    UnfoldDeparsedSubPlan(e, d, w, cenv);
    if ClassifyNotIn(e, d.relids, d.cols, d.cfg) == Plain {
      NeverNullSound(e.lhs, d.relids, d.cols, d.cfg, w, env);
      OutputHasNoNull(e, d.cfg, w, BodyParams(e, w, env));
    }
  }

  lemma {:induction false} OutputHasNoNull(sp: Expr, cfg: Config, w: World, params: map<nat, Val>)
    requires sp.SubPlan? && OutputNeverNull(sp, cfg) && WorldOk(w, cfg) && DistinctFrom(sp.body.from)
    ensures Null !in Output(sp.body, w, params)
  {
    var q := sp.body;
    var cols := BodyCols(q, cfg);
    forall i | 0 <= i < |Output(q, w, params)| ensures Output(q, w, params)[i] != Null {
      if IsGrouped(q) {
        var g := KeptGroups(q, w, params)[i];
        GroupsComeFromRows(q, w, params, g);
        if g != [] {
          BodyRowsOk(q, w, cfg, g[0]);
        }
        NeverNullSound(q.target, FromRelids(q), cols, cfg, w, GroupEnv(g, params));
      } else {
        var r := BodyRows(q, w, params)[i];
        assert r in BodyRows(q, w, params);
        BodyRowsOk(q, w, cfg, r);
        NeverNullSound(q.target, FromRelids(q), cols, cfg, w, Env(r, [], params));
      }
    }
  }

  lemma {:induction false} GroupsComeFromRows(q: Query, w: World, params: map<nat, Val>, g: seq<Row>)
    requires g in KeptGroups(q, w, params)
    ensures FromRows(g, q.from, w)
  {
  }

  lemma {:induction false} CorrectSubPlan(e: Expr, ctx: Ctx, d: DCtx, relids: set<nat>, w: World, env: Env, cenv: CEnv)
    requires Ready(d, w, env, cenv) && Accepted(e, ctx, d, relids, w) && e.SubPlan?
    requires ctx == Negated ==> !IsAny(e)
    ensures Agree(ctx, Eval(e, w, env), CEval(Deparse(e, d), w, cenv))
    decreases e, 6
  {
    if IsAny(e) {
      CorrectAny(e, ctx, d, relids, w, env, cenv);
      if ctx == Exact {
        PlainStaysPlain(e, ctx, d, relids, w);
      }
    } else {
      CorrectRows(e, ctx, d, relids, w, env, cenv);
    }
  }

  lemma {:induction false} CorrectRows(e: Expr, ctx: Ctx, d: DCtx, relids: set<nat>, w: World, env: Env, cenv: CEnv)
    requires Ready(d, w, env, cenv) && Accepted(e, ctx, d, relids, w) && e.SubPlan? && !IsAny(e)
    ensures Eval(e, w, env) == CEval(Deparse(e, d), w, cenv)
    decreases e, 5
  {
    ReadyWithTruth(d, false, w, env, cenv);
    QueryAgrees(e, ctx, WithTruth(d, false), relids, w, env, cenv);
    ScalarRow(e, w, BodyParams(e, w, env));
    ScalarShape(e, ctx, d, relids, w);
    UnfoldSubPlan(e, w, env);
    UnfoldDeparsedSubPlan(e, d, w, cenv);
  }

  lemma {:induction false} ScalarShape(e: Expr, ctx: Ctx, d: DCtx, relids: set<nat>, w: World)
    requires Accepted(e, ctx, d, relids, w) && e.SubPlan?
    ensures e.link == Scalar ==>
              e.body.hasAggs && e.body.groupBy == [] && (e.body.having == [] || w.emptyScalar == Null)
  {
    AcceptedSubPlan(e, ctx, d, relids, w);
  }

  /** Without GROUP BY there is one group, of all rows, and HAVING keeps or drops it. */
  lemma {:induction false} SingleGroup(q: Query, w: World, params: map<nat, Val>)
    requires q.groupBy == []
    ensures var rows := BodyRows(q, w, params);
            KeptGroups(q, w, params) == if Holds(q.having, w, GroupEnv(rows, params)) then [rows] else []
  {
    var rows := BodyRows(q, w, params);
    var groups := Groups(q, rows, GroupKeys(q, rows, w, params));
    var flags := seq(|groups|, i requires 0 <= i < |groups| => Holds(q.having, w, GroupEnv(groups[i], params)));
    assert groups == [rows] && flags == [Holds(q.having, w, GroupEnv(rows, params))];
    assert Select(groups, flags) == (if flags[0] then [rows] else []) + Select([], []);
  }

  /** An aggregate without GROUP BY returns one row, or none if HAVING fails on all rows together. */
  lemma {:induction false} ScalarRow(sp: Expr, w: World, params: map<nat, Val>)
    requires sp.SubPlan?
    ensures sp.body.hasAggs && sp.body.groupBy == [] ==>
              |Output(sp.body, w, params)| ==
              if Holds(sp.body.having, w, GroupEnv(BodyRows(sp.body, w, params), params)) then 1 else 0
  {
    if sp.body.groupBy == [] {
      SingleGroup(sp.body, w, params);
    }
  }

  lemma {:induction false} PlainStaysPlain(e: Expr, ctx: Ctx, d: DCtx, relids: set<nat>, w: World)
    requires Accepted(e, ctx, d, relids, w) && IsAny(e)
    ensures ClassifyNotIn(e, relids, d.cols, d.cfg) == Plain ==> ClassifyNotIn(e, d.relids, d.cols, d.cfg) == Plain
    ensures ctx == Exact ==> ClassifyNotIn(e, relids, d.cols, d.cfg) == Plain
    ensures ctx == Negated ==> ClassifyNotIn(e, d.relids, d.cols, d.cfg) != NoForm
  {
    AcceptedSubPlan(e, ctx, d, relids, w);
    if NeverNull(e.lhs, relids, d.cols, d.cfg) {
      NeverNullMonotone(e.lhs, relids, d.relids, d.cols, d.cfg);
    }
  }

  /** NOT over x IN (SELECT ..): the guarded form where a NULL may reach the comparison. */
  lemma {:induction false} CorrectNotIn(e: Expr, ctx: Ctx, d: DCtx, relids: set<nat>, w: World, env: Env, cenv: CEnv)
    requires Ready(d, w, env, cenv) && Accepted(e, ctx, d, relids, w) && IsAny(e) && !d.truth
    requires ClassifyNotIn(e, d.relids, d.cols, d.cfg) == Guarded
    ensures IsTrue(CEval(DeparseNotIn(e, d), w, cenv)) <==> IsTrue(Not3(Eval(e, w, env)))
    decreases e, 5
  {
    AcceptedSubPlan(e, ctx, d, relids, w);
    assert WithTruth(d, false) == d;
    Correct(e.lhs, Exact, d, relids, w, env, cenv);
    QueryAgrees(e, ctx, d, relids, w, env, cenv);
    NullProbeAgrees(e, ctx, d, relids, w, env, cenv);
    var probeNullable, outputNullable := !NeverNull(e.lhs, d.relids, d.cols, d.cfg), !OutputNeverNull(e, d.cfg);
    if !probeNullable {
      NeverNullSound(e.lhs, d.relids, d.cols, d.cfg, w, env);
    }
    if !outputNullable {
      OutputHasNoNull(e, d.cfg, w, BodyParams(e, w, env));
    }
    GuardedNotInTruth(Deparse(e.lhs, d), DeparseQuery(e, d, false), DeparseQuery(e, d, true),
                      probeNullable, outputNullable, w, cenv);
  }

  lemma {:induction false} CorrectNot(e: Expr, ctx: Ctx, d: DCtx, relids: set<nat>, w: World, env: Env, cenv: CEnv)
    requires Ready(d, w, env, cenv) && Accepted(e, ctx, d, relids, w) && e.Not?
    ensures Agree(ctx, Eval(e, w, env), CEval(Deparse(e, d), w, cenv))
    decreases e, 4
  {
    var exact := WithTruth(d, false);
    ReadyWithTruth(d, false, w, env, cenv);
    AcceptedNot(e, ctx, d, relids, w);
    if IsAny(e.arg) {
      CorrectNotAny(e, ctx, d, relids, w, env, cenv);
    } else {
      Correct(e.arg, NotCtx(ctx), exact, relids, w, env, cenv);
      UnfoldNot(e, d, w, env, cenv);
    }
  }

  lemma {:induction false} CorrectNotAny(e: Expr, ctx: Ctx, d: DCtx, relids: set<nat>, w: World, env: Env, cenv: CEnv)
    requires Ready(d, w, env, cenv) && Accepted(e, ctx, d, relids, w) && e.Not? && IsAny(e.arg)
    ensures Agree(ctx, Eval(e, w, env), CEval(Deparse(e, d), w, cenv))
    decreases e, 3
  {
    var exact := WithTruth(d, false);
    ReadyWithTruth(d, false, w, env, cenv);
    AcceptedNot(e, ctx, d, relids, w);
    PlainStaysPlain(e.arg, NotCtx(ctx), exact, relids, w);
    if IsNotIn(e.arg, d) {
      CorrectNotIn(e.arg, NotCtx(ctx), exact, relids, w, env, cenv);
    } else {
      CorrectAny(e.arg, NotCtx(ctx), exact, relids, w, env, cenv);
    }
    UnfoldNot(e, d, w, env, cenv);
  }

  lemma {:induction false} UnfoldNot(e: Expr, d: DCtx, w: World, env: Env, cenv: CEnv)
    requires e.Not?
    ensures Eval(e, w, env) == Not3(Eval(e.arg, w, env))
    ensures IsNotIn(e.arg, d) ==>
              CEval(Deparse(e, d), w, cenv) == CEval(DeparseNotIn(e.arg, WithTruth(d, false)), w, cenv)
    ensures !IsNotIn(e.arg, d) ==>
              CEval(Deparse(e, d), w, cenv) == Not3(CEval(Deparse(e.arg, WithTruth(d, false)), w, cenv))
  {
  }

  lemma {:induction false} AcceptedNot(e: Expr, ctx: Ctx, d: DCtx, relids: set<nat>, w: World)
    requires Accepted(e, ctx, d, relids, w) && e.Not?
    ensures Accepted(e.arg, NotCtx(ctx), WithTruth(d, false), relids, w)
  {
  }
}
