/** Compiler correctness: an accepted expression means the same on ClickHouse. */
module Pushdown {
  import opened Values
  import opened Postgres
  import opened ClickHouse
  import opened Walker
  import opened Deparser

  /** Only the nullable side of an outer join is null-extended, and a column declared NOT NULL is NULL only there. */
  ghost predicate RowOk(r: Row, cols: Cols) {
    (r.Row? ==> r.absent <= cols.nulled) &&
    forall c :: c in cols.notNull && c.att > 0 && c.rel !in cols.nulled ==> Get(r, c) != Null
  }

  /** What is shippable means the same to both systems, the hand-picked operators return a value for non-NULL inputs,
      the stored tables keep their NOT NULL constraints, and the server is as new as was found. */
  ghost predicate WorldOk(w: World, cfg: Config) {
    (forall f, args :: f in cfg.shippable ==> w.ccall(f, args) == w.call(f, args)) &&
    (forall f, args :: f in cfg.shippableAggs ==> w.caggregate(f, args) == w.aggregate(f, args)) &&
    (cfg.serverOk ==> w.correlates) &&
    (forall f, args :: f in cfg.neverNullOps && Null !in args ==> w.call(f, args) != Null) &&
    (forall relid, t, a :: relid in w.db && t in w.db[relid] && relid in cfg.notNullAtts && a in cfg.notNullAtts[relid]
                           ==> a in t.vals && t.vals[a] != Null)
  }

  function ParamValue(params: map<nat, Val>, id: nat): Val {
    if id in params then params[id] else Null
  }

  /** Whatever the subquery row, each Param of the body means on ClickHouse what the executor
      binds it to. */
  ghost predicate ParamsAgree(d: DCtx, w: World, env: Env, cenv: CEnv) {
    forall id, i, g :: CEval(DeparseParam(id, d), w, cenv.(inner := Some(i), group := g)) == ParamValue(env.params, id)
  }

  /** The ClickHouse scopes hold the row that PostgreSQL is looking at, and the names used in them tell its columns
      apart. */
  ghost predicate Matches(d: DCtx, w: World, env: Env, cenv: CEnv) {
    cenv.group == env.group &&
    if d.sub.Top? then
      cenv.inner == None && cenv.outer == env.row && cenv.bound == env.row && cenv.params == env.params &&
      cenv.scan == d.relids && (d.qualify || |d.relids| <= 1)
    else
      cenv.inner == Some(Inner(d.sub.planId, env.row)) && ParamsAgree(d, w, env, cenv)
  }

  ghost predicate Ready(d: DCtx, w: World, env: Env, cenv: CEnv) {
    Matches(d, w, env, cenv) && WorldOk(w, d.cfg) && RowOk(env.row, d.cols) &&
    forall r :: r in env.group ==> RowOk(r, d.cols)
  }

  /** A truth context tells only TRUE from the rest; any other context needs the value. */
  predicate Agree(ctx: Ctx, pg: Val, ch: Val) {
    if ctx == Truth then IsTrue(pg) <==> IsTrue(ch) else pg == ch
  }

  predicate DistinctIds(cs: seq<Correlation>) {
    forall i, j :: 0 <= i < j < |cs| ==> cs[i].id != cs[j].id
  }

  /** Range-table indexes of a FROM list are distinct. */
  predicate DistinctFrom(from: seq<FromItem>) {
    forall i, j :: 0 <= i < j < |from| ==> from[i].rt != from[j].rt
  }

  /** Two shapes that the walker lets through although the emitted subquery answers another
      question: EXISTS over a bare aggregate, whose SELECT 1 drops the aggregate, and a scalar
      aggregate with HAVING, which may return no row. empty is ClickHouse's answer for a scalar subquery without one. */
  predicate SubPlanFaithful(sp: Expr, empty: Val)
    requires sp.SubPlan?
  {
    (sp.link == Exists ==> sp.body.groupBy != [] || sp.body.having != [] || !sp.body.hasAggs) &&
    (sp.link == Scalar ==> sp.body.having == [] || empty == Null)
  }

  /** An array column that may be null-extended is NULL on PostgreSQL and empty on ClickHouse: for ANY that is the
      difference between NULL and FALSE, for ALL between NULL and TRUE. */
  predicate ArrayHeld(e: Expr, ctx: Ctx, nulled: set<nat>)
    requires e.ArrayOp? && e.arr.ArrCol?
  {
    e.arr.col.rel !in nulled || (ctx == Truth && e.useOr)
  }

  /** Where an expression stands: over a scan, some of whose relations a join may null-extend and others of which were
      not there when the walker saw it, or in a subquery body with this FROM list. */
  datatype Place = Scan(nulled: set<nat>, others: set<nat>) | Body(from: set<nat>)

  /** A condition mentions no relation of the scan but those it was accepted for. A body's columns come from its FROM
      list: those of the query around it have become Params. */
  predicate Local(c: Col, at: Place) {
    match at
    case Scan(_, others) => c.rel !in others
    case Body(from) => c.rel in from
  }

  predicate SoundAll(es: seq<Expr>, ctx: Ctx, at: Place, empty: Val)
    decreases es, 0
  {
    forall i :: 0 <= i < |es| ==> Sound(es[i], ctx, at, empty)
  }

  /** A constant array without a null bitmap holds no NULL, a subquery's Params are distinct, every SubPlan is faithful,
      and null-extended arrays are only used where NULL and FALSE are the same. ctx is the walker's. */
  predicate Sound(e: Expr, ctx: Ctx, at: Place, empty: Val)
    decreases e, 1
  {
    match e
    case Var(c) => Local(c, at)
    case Const(_) | Param(_, _) => true
    case Call(_, _, args) => SoundAll(args, Exact, at, empty)
    case And(args) => SoundAll(args, AndOrCtx(ctx), at, empty)
    case Or(args) => SoundAll(args, AndOrCtx(ctx), at, empty)
    case Not(arg) => Sound(arg, NotCtx(ctx), at, empty)
    case NullTest(_, arg) => Sound(arg, Exact, at, empty)
    case Relabel(arg) => Sound(arg, AndOrCtx(ctx), at, empty)
    case Case(whens, els) =>
      (forall i :: 0 <= i < |whens| ==>
        Sound(whens[i].cond, Truth, at, empty) && Sound(whens[i].result, CaseResultCtx(ctx), at, empty)) &&
      (els.Some? ==> Sound(els.value, CaseResultCtx(ctx), at, empty))
    case ArrayOp(_, _, probe, arr) =>
      Sound(probe, Exact, at, empty) && (arr.ArrList? ==> SoundAll(arr.exprs, Exact, at, empty)) &&
      (arr.ArrConst? && Null in arr.elems ==> arr.nullBitmap) &&
      (arr.ArrCol? ==> Local(arr.col, at) && (at.Scan? ==> ArrayHeld(e, ctx, at.nulled)))
    case Aggref(_, arg, filter) =>
      Sound(arg, Exact, at, empty) && (filter.Some? ==> Sound(filter.value, Truth, at, empty))
    case SubPlan(_, _, _, lhs, correlated, body) =>
      SubPlanFaithful(e, empty) && DistinctIds(correlated) && DistinctFrom(body.from) &&
        (e.link == Any ==> Sound(lhs, Exact, at, empty)) &&
      (forall i :: 0 <= i < |correlated| ==> Sound(correlated[i].arg, Exact, at, empty)) &&
      SoundBody(body, empty)
  }

  predicate SoundBody(q: Query, empty: Val)
    decreases q, 0
  {
    var at := Body(FromRelids(q));
    Sound(q.target, Exact, at, empty) && SoundAll(q.quals, Truth, at, empty) &&
    SoundAll(q.groupBy, Exact, at, empty) && SoundAll(q.having, Truth, at, empty)
  }

  // ---------- the static proofs are sound ----------

  lemma {:induction false} NeverNullSound(e: Expr, relids: set<nat>, cols: Cols, cfg: Config, w: World, env: Env)
    requires NeverNull(e, relids, cols, cfg) && RowOk(env.row, cols) && WorldOk(w, cfg)
    ensures Eval(e, w, env) != Null
    decreases e
  {
    match e
    case Relabel(arg) => NeverNullSound(arg, relids, cols, cfg, w, env);
    case Call(_, f, args) =>
      var vs := EvalAll(args, w, env);
      forall i | 0 <= i < |args| ensures vs[i] != Null {
        NeverNullSound(args[i], relids, cols, cfg, w, env);
      }
      assert Null !in vs;
      assert Eval(e, w, env) == w.call(f, vs);
    case _ =>
  }

  /** The expressions that the proof is about: columns of the scan, constants, and operators over them. */
  predicate InProofLanguage(e: Expr, relids: set<nat>)
    decreases e
  {
    match e
    case Relabel(arg) => InProofLanguage(arg, relids)
    case Const(_) => true
    case Var(c) => c.att > 0 && c.rel in relids
    case Call(kind, _, args) =>
      kind == Operator && forall i :: 0 <= i < |args| ==> InProofLanguage(args[i], relids)
    case _ => false
  }

  /** Two systems without tables in which nothing has a value that does not have to have one. */
  function SparseWorld(cfg: Config): World {
    var call := (f: nat, args: seq<Val>) => if f in cfg.neverNullOps && Null !in args then Num(0) else Null;
    var none := (f: nat, args: seq<Val>) => Null;
    World(call, none, call, none, rows => rows, id => Null, Null, true, Null, map[])
  }

  function SparseRow(cols: Cols): Row {
    Row(map c | c in cols.notNull :: Num(0), map[], cols.nulled)
  }

  lemma {:induction false} SparseNull(e: Expr, relids: set<nat>, cols: Cols, cfg: Config, env: Env)
    requires InProofLanguage(e, relids) && !NeverNull(e, relids, cols, cfg) && env.row == SparseRow(cols)
    ensures Eval(e, SparseWorld(cfg), env) == Null
    decreases e
  {
    match e
    case Relabel(arg) => SparseNull(arg, relids, cols, cfg, env);
    case Call(_, f, args) =>
      if f in cfg.neverNullOps {
        var i :| 0 <= i < |args| && !NeverNull(args[i], relids, cols, cfg);
        SparseNull(args[i], relids, cols, cfg, env);
        assert EvalAll(args, SparseWorld(cfg), env)[i] == Null;
      }
    case _ =>
  }

  /** And the proof finds every such expression that cannot be NULL. */
  lemma {:induction false} NeverNullExactly(e: Expr, relids: set<nat>, cols: Cols, cfg: Config)
    requires InProofLanguage(e, relids)
    ensures NeverNull(e, relids, cols, cfg) <==>
            forall w, env: Env :: WorldOk(w, cfg) && RowOk(env.row, cols) ==> Eval(e, w, env) != Null
  {
    if NeverNull(e, relids, cols, cfg) {
      forall w, env: Env | WorldOk(w, cfg) && RowOk(env.row, cols) ensures Eval(e, w, env) != Null {
        NeverNullSound(e, relids, cols, cfg, w, env);
      }
    } else {
      var w, env := SparseWorld(cfg), Env(SparseRow(cols), [], map[]);
      SparseNull(e, relids, cols, cfg, env);
      assert WorldOk(w, cfg) && RowOk(env.row, cols);
    }
  }

  /** More relations in the scan can only prove more. */
  lemma {:induction false} NeverNullMonotone(e: Expr, small: set<nat>, big: set<nat>, cols: Cols, cfg: Config)
    requires small <= big && NeverNull(e, small, cols, cfg)
    ensures NeverNull(e, big, cols, cfg)
    decreases e
  {
    match e
    case Relabel(arg) => NeverNullMonotone(arg, small, big, cols, cfg);
    case Call(_, _, args) =>
      forall i | 0 <= i < |args| ensures NeverNull(args[i], big, cols, cfg) {
        NeverNullMonotone(args[i], small, big, cols, cfg);
      }
    case _ =>
  }

  ghost predicate Holding(r: Row, cols: set<Col>) {
    r.Row? && r.absent == {} && forall c :: c in cols ==> c in r.vals && r.vals[c] != Null
  }

  lemma {:induction false} JoinTuplesHold(r: Row, rt: nat, ts: seq<Tuple>, before: set<Col>, after: set<Col>)
    requires Holding(r, before) && forall c :: c in after ==> c.rel == rt || c in before
    requires forall c :: c in before ==> c.rel != rt
    requires forall t, c :: t in ts && c in after && c.rel == rt ==> c.att in t.vals && t.vals[c.att] != Null
    ensures forall x :: x in JoinTuples(r, rt, ts) ==> Holding(x, after)
  {
    if ts != [] {
      JoinTuplesHold(r, rt, ts[1..], before, after);
      var x := JoinTuple(r, rt, ts[0]);
      forall c | c in after ensures c in x.vals && x.vals[c] != Null {
        assert ts[0] in ts && c == Col(c.rel, c.att);
      }
    }
  }

  lemma {:induction false} ExtendRowsHold(rows: seq<Row>, rt: nat, ts: seq<Tuple>, before: set<Col>, after: set<Col>)
    requires forall r :: r in rows ==> r.Row? && Holding(r, before)
    requires forall c :: c in after ==> c.rel == rt || c in before
    requires forall c :: c in before ==> c.rel != rt
    requires forall t, c :: t in ts && c in after && c.rel == rt ==> c.att in t.vals && t.vals[c.att] != Null
    ensures forall x :: x in ExtendRows(rows, rt, ts) ==> Holding(x, after)
  {
    if rows != [] {
      assert rows[0] in rows;
      JoinTuplesHold(rows[0], rt, ts, before, after);
      ExtendRowsHold(rows[1..], rt, ts, before, after);
    }
  }

  function FromNotNull(from: seq<FromItem>, cfg: Config): set<Col> {
    set f, a | f in from && f.relid in cfg.notNullAtts && a in cfg.notNullAtts[f.relid] :: Col(f.rt, a)
  }

  /** Every FROM row of a subquery keeps its tables' NOT NULL columns. */
  lemma {:induction false} CrossHolds(from: seq<FromItem>, w: World, cfg: Config)
    requires WorldOk(w, cfg) && DistinctFrom(from)
    ensures forall x :: x in Cross(from, w.db) ==> Holding(x, FromNotNull(from, cfg))
  {
    if from != [] {
      var n := |from| - 1;
      var item, init := from[n], from[..n];
      CrossHolds(init, w, cfg);
      assert from == init + [item];
      ExtendRowsHold(Cross(init, w.db), item.rt, if item.relid in w.db then w.db[item.relid] else [],
                     FromNotNull(init, cfg), FromNotNull(from, cfg));
    }
  }

  lemma {:induction false} BodyRowsOk(q: Query, w: World, cfg: Config, r: Row)
    requires WorldOk(w, cfg) && DistinctFrom(q.from) && r in Cross(q.from, w.db)
    ensures RowOk(r, BodyCols(q, cfg))
  {
    CrossHolds(q.from, w, cfg);
    assert BodyCols(q, cfg).notNull == FromNotNull(q.from, cfg);
  }
}
