/** Which expressions may be sent to ClickHouse, and in which form (src/deparse.c). */
module Walker {
  import opened Values
  import opened Postgres

  /** How a result is consumed: it only qualifies rows, it is the operand of one NOT that
      only qualifies rows, or the value itself is observable. */
  datatype Ctx = Truth | Negated | Exact

  /** What the planner knows about the columns of a scope: those declared NOT NULL, and the
      relations that an outer join below may have null-extended. */
  datatype Cols = Cols(notNull: set<Col>, nulled: set<nat>)

  /** shippable and shippableAggs are the functions and operators, and the aggregates, that ClickHouse has too,
      neverNullOps the hand-picked arithmetic operators, notNullAtts the declared NOT NULL attributes of each table,
      serverOk that the server is 25.8 or later. */
  datatype Config = Config(shippable: set<nat>, shippableAggs: set<nat>, neverNullOps: set<nat>,
                           notNullAtts: map<nat, set<int>>, serverOk: bool)

  function FromRelids(q: Query): set<nat> {
    set f | f in q.from :: f.rt
  }

  /** Comma joins null-extend nothing. */
  function BodyCols(q: Query, cfg: Config): Cols {
    Cols(set f, a | f in q.from && f.relid in cfg.notNullAtts && a in cfg.notNullAtts[f.relid] :: Col(f.rt, a), {})
  }

  predicate NeverNull(e: Expr, relids: set<nat>, cols: Cols, cfg: Config)
    decreases e
  {
    match e
    case Relabel(arg) => NeverNull(arg, relids, cols, cfg)
    case Const(v) => v != Null
    case Var(c) => c.att > 0 && c.rel in relids && c.rel !in cols.nulled && c in cols.notNull
    case Call(kind, f, args) =>
      kind == Operator && f in cfg.neverNullOps &&
      forall i :: 0 <= i < |args| ==> NeverNull(args[i], relids, cols, cfg)
    case _ => false
  }

  datatype ArrayNulls = Empty | NullFree | Unknown

  /** What is known about NULL elements of an array operand. */
  function ArrNulls(a: ArrExpr, relids: set<nat>, cols: Cols, cfg: Config): ArrayNulls {
    match a
    case ArrNull => Unknown
    case ArrConst(elems, bitmap) => if elems == [] then Empty else if bitmap then Unknown else NullFree
    case ArrList(exprs) =>
      if exprs == [] then Empty
      else if forall i :: 0 <= i < |exprs| ==> NeverNull(exprs[i], relids, cols, cfg) then NullFree
      else Unknown
    case ArrCol(_) => Unknown
  }

  datatype NotInForm = Plain | Guarded | NoForm

  predicate OutputNeverNull(sp: Expr, cfg: Config)
    requires sp.SubPlan?
  {
    NeverNull(sp.body.target, FromRelids(sp.body), BodyCols(sp.body, cfg), cfg)
  }

  /** How to ship NOT (x IN (SELECT ..)). */
  function ClassifyNotIn(sp: Expr, relids: set<nat>, cols: Cols, cfg: Config): NotInForm
    requires sp.SubPlan?
  {
    if NeverNull(sp.lhs, relids, cols, cfg) && OutputNeverNull(sp, cfg) then Plain
    else if sp.body.groupBy == [] && sp.body.having == [] && !sp.body.hasAggs then Guarded
    else NoForm
  }

  /** AND/OR keep a truth context and spend a negated one. */
  function AndOrCtx(ctx: Ctx): Ctx {
    if ctx == Negated then Exact else ctx
  }

  /** One NOT directly over a truth context negates; anything else needs the exact value. */
  function NotCtx(ctx: Ctx): Ctx {
    if ctx == Truth then Negated else Exact
  }

  function CaseResultCtx(ctx: Ctx): Ctx {
    if ctx == Truth then Truth else Exact
  }

  predicate HasSubPlan(e: Expr)
    decreases e
  {
    match e
    case Var(_) | Const(_) | Param(_, _) => false
    case Call(_, _, args) => exists i :: 0 <= i < |args| && HasSubPlan(args[i])
    case And(args) => exists i :: 0 <= i < |args| && HasSubPlan(args[i])
    case Or(args) => exists i :: 0 <= i < |args| && HasSubPlan(args[i])
    case Not(arg) => HasSubPlan(arg)
    case NullTest(_, arg) => HasSubPlan(arg)
    case Relabel(arg) => HasSubPlan(arg)
    case Case(whens, els) =>
      (exists i :: 0 <= i < |whens| && (HasSubPlan(whens[i].cond) || HasSubPlan(whens[i].result))) ||
      (els.Some? && HasSubPlan(els.value))
    case ArrayOp(_, _, probe, arr) =>
      HasSubPlan(probe) || (arr.ArrList? && exists i :: 0 <= i < |arr.exprs| && HasSubPlan(arr.exprs[i]))
    case Aggref(_, arg, filter) => HasSubPlan(arg) || (filter.Some? && HasSubPlan(filter.value))
    case SubPlan(_, _, _, _, _, _) => true
  }

  /** foreign_expr_walker. inSub is its subquery_scope. */
  predicate Walk(e: Expr, ctx: Ctx, inSub: bool, relids: set<nat>, cols: Cols, cfg: Config)
    decreases e
  {
    match e
    case Var(c) => c.rel in relids ==> c.att >= 0
    case Const(_) => true
    case Param(_, multiExpr) => !multiExpr
    case Call(_, f, args) =>
      f in cfg.shippable && forall i :: 0 <= i < |args| ==> Walk(args[i], Exact, inSub, relids, cols, cfg)
    case And(args) => forall i :: 0 <= i < |args| ==> Walk(args[i], AndOrCtx(ctx), inSub, relids, cols, cfg)
    case Or(args) => forall i :: 0 <= i < |args| ==> Walk(args[i], AndOrCtx(ctx), inSub, relids, cols, cfg)
    case Not(arg) => Walk(arg, NotCtx(ctx), inSub, relids, cols, cfg)
    case NullTest(_, arg) => Walk(arg, Exact, inSub, relids, cols, cfg)
    case Relabel(arg) => Walk(arg, AndOrCtx(ctx), inSub, relids, cols, cfg)
    case Case(whens, els) =>
      (forall i :: 0 <= i < |whens| ==>
        Walk(whens[i].cond, Truth, inSub, relids, cols, cfg) &&
        Walk(whens[i].result, CaseResultCtx(ctx), inSub, relids, cols, cfg)) &&
      (els.Some? ==> Walk(els.value, CaseResultCtx(ctx), inSub, relids, cols, cfg))
    case ArrayOp(_, op, probe, arr) =>
      op != OpNone && !arr.ArrNull? && Walk(probe, Exact, inSub, relids, cols, cfg) &&
      (arr.ArrCol? && arr.col.rel in relids ==> arr.col.att >= 0) &&
      (arr.ArrList? ==> forall i :: 0 <= i < |arr.exprs| ==> Walk(arr.exprs[i], Exact, inSub, relids, cols, cfg))
    case Aggref(f, arg, filter) =>
      inSub && f in cfg.shippableAggs && Walk(arg, Exact, inSub, relids, cols, cfg) &&
      (filter.Some? ==> Walk(filter.value, Truth, inSub, relids, cols, cfg))
    case SubPlan(link, _, op, lhs, correlated, body) =>
      !inSub && body.deparsable && body.from != [] &&
      !HasSubPlan(body.target) &&
      (forall i :: 0 <= i < |body.quals| ==> !HasSubPlan(body.quals[i])) &&
      (forall i :: 0 <= i < |body.having| ==> !HasSubPlan(body.having[i])) &&
      (link == Scalar ==> body.hasAggs && body.groupBy == []) &&
      (link == Any ==> op.Equality? && Walk(lhs, Exact, inSub, relids, cols, cfg)) &&
      (forall i :: 0 <= i < |correlated| ==> Walk(correlated[i].arg, Exact, inSub, relids, cols, cfg)) &&
      WalkBody(body, cfg) &&
      (link == Any && ctx == Negated ==> ClassifyNotIn(e, relids, cols, cfg) != NoForm) &&
      (link == Any && ctx == Exact ==> ClassifyNotIn(e, relids, cols, cfg) == Plain) &&
      cfg.serverOk
  }

  /** The subquery's own expressions, in its own scope: only its quals are in a truth context.
      GROUP BY expressions are entries of the target list. */
  predicate WalkBody(q: Query, cfg: Config)
    decreases q
  {
    var relids, cols := FromRelids(q), BodyCols(q, cfg);
    Walk(q.target, Exact, true, relids, cols, cfg) &&
    (forall i :: 0 <= i < |q.groupBy| ==> Walk(q.groupBy[i], Exact, true, relids, cols, cfg)) &&
    (forall i :: 0 <= i < |q.quals| ==> Walk(q.quals[i], Truth, true, relids, cols, cfg)) &&
    (forall i :: 0 <= i < |q.having| ==> Walk(q.having[i], Truth, true, relids, cols, cfg))
  }
}
