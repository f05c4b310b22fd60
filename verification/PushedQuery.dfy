/** The two halves together: a pushed-down join whose conditions were compiled returns PostgreSQL's rows. */
module PushedQuery {
  import opened Values
  import opened Relational
  import opened Joins
  import opened JoinFlattening
  import P = Postgres
  import C = ClickHouse
  import W = Walker
  import D = Deparser
  import Pushdown
  import Correctness

  /** A pushed-down condition: the expression, the columns it mentions, the relations it was accepted for, and what the
      planner knows of those columns where the condition is evaluated. It is printed in a clause over the relations in
      scan; inlined says that a subquery is inlined in the same statement. */
  datatype Condition = Condition(expr: P.Expr, args: seq<Var>, owner: set<nat>, cols: W.Cols, scan: set<nat>,
                                 inlined: bool)

  /** What a query is pushed down with: its conditions by clause, the scalar columns declared NOT NULL, the array
      columns, and the meaning of conditions that stay local. */
  datatype Setup = Setup(conds: map<nat, Condition>, cfg: W.Config, notNull: set<Var>, arrays: set<Var>, w: P.World,
                         params: map<nat, Val>, local: Meaning)

  function Column(v: Var): P.Col {
    P.Col(v.rel, v.att)
  }

  /** The row that a condition sees. A stored array is never NULL, so where there is none the relation was
      null-extended. */
  function RowOf(arrays: set<Var>, args: seq<Var>, vs: seq<Val>): (r: P.Row)
    requires |args| == |vs|
    ensures r.Row?
  {
    if args == [] then P.Row(map[], map[], {})
    else
      var r, v, x := RowOf(arrays, args[1..], vs[1..]), args[0], vs[0];
      if v !in arrays then r.(vals := r.vals[Column(v) := x])
      else if x.Arr? then r.(arrs := r.arrs[Column(v) := x.elems])
      else r.(absent := r.absent + {v.rel})
  }

  /** Whether PostgreSQL's executor keeps a row. */
  function Local(s: Setup): Meaning {
    (p: nat, vs: seq<Val>) =>
      if p in s.conds && |vs| == |s.conds[p].args| then
        IsTrue(P.Eval(s.conds[p].expr, s.w, P.Env(RowOf(s.arrays, s.conds[p].args, vs), [], s.params)))
      else s.local(p, vs)
  }

  /** deparseVar's choice between column names with and without their relation. */
  predicate Qualified(c: Condition) {
    |c.scan| > 1 || c.inlined
  }

  function Deparsed(s: Setup, c: Condition): C.CExpr {
    D.Deparse(c.expr, D.DCtx(true, Qualified(c), c.scan, c.cols, D.Top, s.cfg))
  }

  /** Whether ClickHouse keeps it, by what the deparser sent. */
  function Remote(s: Setup): Meaning {
    (p: nat, vs: seq<Val>) =>
      if p in s.conds && |vs| == |s.conds[p].args| then
        var row := RowOf(s.arrays, s.conds[p].args, vs);
        IsTrue(C.CEval(Deparsed(s, s.conds[p]), s.w, C.CEnv(s.conds[p].scan, row, None, row, [], s.params)))
      else s.local(p, vs)
  }

  /** The walker accepted every condition in a truth context. */
  ghost predicate Accepted(s: Setup) {
    Pushdown.WorldOk(s.w, s.cfg) &&
    forall p :: p in s.conds ==>
      var c := s.conds[p];
      W.Walk(c.expr, W.Truth, false, c.owner, c.cols, s.cfg) &&
      Pushdown.Sound(c.expr, W.Truth, Pushdown.Scan(c.cols.nulled, c.scan - c.owner), s.w.emptyScalar)
  }

  // ---------- null extension ----------

  /** The relations that joins below the top of t, or t itself, may null-extend. */
  function Below(t: Rel): set<nat> {
    if t.Base? then {} else Nulled(t.outer) + Nulled(t.inner)
  }

  function Nulled(t: Rel): set<nat> {
    match t
    case Base(_, _, _, _) => {}
    case Join(_, kind, outer, inner, _, _) =>
      Nulled(outer) + Nulled(inner) +
      (if kind == Left || kind == Full then Relids(inner) else {}) +
      (if kind == Right || kind == Full then Relids(outer) else {})
  }

  /** A relation is null-extended as a whole: elsewhere its NOT NULL columns and its arrays are there. */
  ghost predicate Held(s: Setup, t: Rel, nulled: set<nat>, row: map<Var, Val>) {
    (forall v :: v in row ==> v.rel in Relids(t)) &&
    (forall v :: v in s.notNull && v.rel in Relids(t) && v.rel !in nulled ==> Lookup(row, v) != Null) &&
    (forall v :: v in s.arrays && v.rel in Relids(t) && v.rel !in nulled ==> Lookup(row, v).Arr?) &&
    (forall v, u :: v in s.arrays && v.rel in Relids(t) && !Lookup(row, v).Arr? && u in row ==> u.rel != v.rel)
  }

  ghost predicate Stored(s: Setup, db: Db) {
    s.notNull !! s.arrays &&
    (forall relid, row, v :: relid in db && row in db[relid] && v in s.notNull && v.rel == relid ==>
      Lookup(row, v) != Null) &&
    (forall relid, row, v :: relid in db && row in db[relid] && v in s.arrays && v.rel == relid ==>
      Lookup(row, v).Arr?)
  }

  /** A remote clause of t is a known condition, accepted for relations of t; where it is evaluated, only the nulled
      relations are null-extended. */
  ghost predicate Fits(s: Setup, t: Rel, nulled: set<nat>, c: Clause<Ref>) {
    c.pred in s.conds &&
    var known := s.conds[c.pred];
    known.args == Plain(c).args && known.owner <= Relids(t) && nulled <= known.cols.nulled &&
    forall col :: col in known.cols.notNull ==> exists v :: v in known.args && v in s.notNull && Column(v) == col
  }

  /** Of the ON clauses, those that can be sent. */
  ghost predicate Known(s: Setup, t: Rel) {
    match t
    case Base(_, conds, _, _) => forall c :: c in conds ==> Fits(s, t, {}, c)
    case Join(_, kind, outer, inner, restrict, _) =>
      Known(s, outer) && Known(s, inner) &&
      (forall r :: r in restrict && r.remote && IsOn(kind, r) ==> Fits(s, t, Below(t), r.clause)) &&
      (forall c :: c in RestClauses(kind, restrict, true) ==> Fits(s, t, Nulled(t), c))
  }

  ghost predicate Placed(s: Setup, t: Rel) {
    match t
    case Base(_, conds, _, _) => forall c :: c in conds ==> Fits(s, t, {}, c)
    case Join(_, kind, outer, inner, restrict, _) =>
      Placed(s, outer) && Placed(s, inner) &&
      (forall c :: c in OnClauses(kind, restrict) ==> Fits(s, t, Below(t), c)) &&
      (forall c :: c in RestClauses(kind, restrict, true) ==> Fits(s, t, Nulled(t), c))
  }

  lemma {:induction false} OnSources(kind: JoinType, rs: seq<Restrict>, c: Clause<Ref>)
    requires c in OnClauses(kind, rs)
    ensures exists r :: r in rs && IsOn(kind, r) && r.clause == c
  {
    var n := |rs| - 1;
    if c in OnClauses(kind, rs[..n]) {
      OnSources(kind, rs[..n], c);
      var r :| r in rs[..n] && IsOn(kind, r) && r.clause == c;
      assert r in rs;
    } else {
      assert rs[n] in rs;
    }
  }

  /** A tree that is pushed down has no other ON clauses. */
  lemma {:induction false} KnownPlaced(s: Setup, t: Rel)
    requires Known(s, t) && InfoOf(t).ok
    ensures Placed(s, t)
  {
    if t.Join? {
      KnownPlaced(s, t.outer);
      KnownPlaced(s, t.inner);
      forall c | c in OnClauses(t.kind, t.restrict) ensures Fits(s, t, Below(t), c) {
        OnSources(t.kind, t.restrict, c);
        var r :| r in t.restrict && IsOn(t.kind, r) && r.clause == c;
        var i :| 0 <= i < |t.restrict| && t.restrict[i] == r;
      }
    }
  }

  // ---------- where conditions are printed ----------

  /** Some condition inlines a subquery. */
  ghost predicate Inlines(s: Setup, cs: Clauses<Ref>) {
    exists c :: c in cs && c.pred in s.conds && W.HasSubPlan(s.conds[c.pred].expr)
  }

  ghost predicate PrintedOver(s: Setup, cs: Clauses<Ref>, scan: set<nat>, inlined: bool) {
    forall c :: c in cs && c.pred in s.conds ==>
      s.conds[c.pred].scan == scan && (inlined ==> s.conds[c.pred].inlined)
  }

  /** deparseFromExprForRel prints an ON clause over the relations of its join. */
  ghost predicate PrintedFrom(s: Setup, t: Rel)
    decreases t, 0
  {
    t.Join? ==>
      PrintedOver(s, InfoOf(t).joinclauses, Relids(t), false) &&
      (if InfoOf(t).makeOuter then Printed(s, t.outer) else PrintedFrom(s, t.outer)) &&
      (if InfoOf(t).makeInner then Printed(s, t.inner) else PrintedFrom(s, t.inner))
  }

  /** And a WHERE clause, of the whole query or of a wrapped input, over the relations of its statement, looking for
      subqueries first. */
  ghost predicate Printed(s: Setup, t: Rel)
    decreases t, 1
  {
    PrintedOver(s, InfoOf(t).remote, Relids(t), Inlines(s, InfoOf(t).remote)) && PrintedFrom(s, t)
  }

  /** Printed over the relations it was accepted for, with columns qualified where a subquery could capture them. */
  ghost predicate Named(s: Setup, c: Clause<Ref>) {
    c.pred in s.conds && s.conds[c.pred].owner <= s.conds[c.pred].scan &&
    (W.HasSubPlan(s.conds[c.pred].expr) ==> Qualified(s.conds[c.pred]))
  }

  /** Every condition that t's plan evaluates is named, or passed on. */
  ghost predicate NamedOr(s: Setup, t: Rel, passed: Clauses<Ref>) {
    match t
    case Base(_, conds, _, _) => forall c :: c in conds ==> Named(s, c) || c in passed
    case Join(_, kind, outer, inner, restrict, _) =>
      NamedOr(s, outer, passed) && NamedOr(s, inner, passed) &&
      forall c :: c in OnClauses(kind, restrict) + RestClauses(kind, restrict, true) ==> Named(s, c) || c in passed
  }

  lemma {:induction false} NamedMore(s: Setup, t: Rel, passed: Clauses<Ref>, more: Clauses<Ref>)
    requires NamedOr(s, t, passed) && forall c :: c in passed ==> Named(s, c) || c in more
    ensures NamedOr(s, t, more)
  {
    if t.Join? {
      NamedMore(s, t.outer, passed, more);
      NamedMore(s, t.inner, passed, more);
    }
  }

  ghost predicate Owned(s: Setup, t: Rel, cs: Clauses<Ref>) {
    forall c :: c in cs ==> c.pred in s.conds && s.conds[c.pred].owner <= Relids(t)
  }

  lemma {:induction false} RemoteOwned(s: Setup, t: Rel)
    requires Placed(s, t)
    ensures Owned(s, t, InfoOf(t).remote)
  {
    if t.Join? {
      RemoteOwned(s, t.outer);
      RemoteOwned(s, t.inner);
      forall c | c in InfoOf(t).remote ensures c.pred in s.conds && s.conds[c.pred].owner <= Relids(t) {
        RemoteSources(t, c);
      }
    }
  }

  lemma {:induction false} OnOwned(s: Setup, t: Rel)
    requires Placed(s, t) && t.Join?
    ensures Owned(s, t, InfoOf(t).joinclauses)
  {
    RemoteOwned(s, t.outer);
    RemoteOwned(s, t.inner);
    if t.kind == Inner {
      var all := RestClauses(t.kind, t.restrict, true) + InfoOf(t.inner).remote + InfoOf(t.outer).remote;
      assert forall c :: c in InfoOf(t).joinclauses ==> c in all;
    }
  }

  lemma {:induction false} SomeRelation(t: Rel) returns (r: nat)
    ensures r in Relids(t)
  {
    if t.Base? {
      r := t.relid;
    } else {
      r := SomeRelation(t.outer);
    }
  }

  lemma {:induction false} Several(t: Rel)
    requires WellFormed(t) && t.Join?
    ensures |Relids(t)| > 1
  {
    var a := SomeRelation(t.outer);
    var b := SomeRelation(t.inner);
    assert {a, b} <= Relids(t);
    SubsetSize({a, b}, Relids(t));
  }

  lemma {:induction false} SubsetSize(a: set<nat>, b: set<nat>)
    requires a <= b
    ensures |a| <= |b|
  {
    assert b == a + (b - a);
  }

  /** ON clauses are over several relations, so their columns are qualified. */
  lemma {:induction false} OnNamed(s: Setup, t: Rel)
    requires WellFormed(t) && t.Join? && Placed(s, t) && PrintedFrom(s, t)
    ensures forall c :: c in InfoOf(t).joinclauses ==> Named(s, c)
  {
    OnOwned(s, t);
    Several(t);
  }

  lemma {:induction false} WhereNamed(s: Setup, t: Rel)
    requires Placed(s, t) && Printed(s, t)
    ensures forall c :: c in InfoOf(t).remote ==> Named(s, c)
  {
    RemoteOwned(s, t);
  }

  /** What a side of a join passes on, the join prints or passes on itself. */
  lemma {:induction false} SideNamed(s: Setup, t: Rel, outer: bool)
    requires WellFormed(t) && t.Join? && Placed(s, t) && PrintedFrom(s, t)
    requires NamedOr(s, Side(t, outer), InfoOf(Side(t, outer)).remote)
    ensures NamedOr(s, Side(t, outer), InfoOf(t).remote)
  {
    var side := Side(t, outer);
    OnNamed(s, t);
    if SideWrapped(t, outer) {
      WhereNamed(s, side);
    } else {
      forall c | c in InfoOf(side).remote ensures Named(s, c) || c in InfoOf(t).remote {
        PulledUp(t, outer, c);
      }
    }
    NamedMore(s, side, InfoOf(side).remote, InfoOf(t).remote);
  }

  lemma {:induction false} FromNamed(s: Setup, t: Rel)
    requires WellFormed(t) && Placed(s, t) && PrintedFrom(s, t)
    ensures NamedOr(s, t, InfoOf(t).remote)
  {
    if t.Join? {
      FromNamed(s, t.outer);
      FromNamed(s, t.inner);
      SideNamed(s, t, true);
      SideNamed(s, t, false);
      OnNamed(s, t);
      OwnPassed(t);
    }
  }

  /** A join's own clauses are printed in its ON clause or passed on. */
  lemma {:induction false} OwnPassed(t: Rel)
    requires t.Join?
    ensures forall c :: c in OnClauses(t.kind, t.restrict) + RestClauses(t.kind, t.restrict, true) ==>
              c in InfoOf(t).remote || c in InfoOf(t).joinclauses
  {
    if t.kind == Inner {
      NoOnClauses(t.restrict);
      var rest := RestClauses(t.kind, t.restrict, true);
      var all := rest + InfoOf(t.inner).remote + InfoOf(t.outer).remote;
      assert forall c :: c in rest ==> c in all;
    }
  }

  /** Wherever a condition of the plan ends up, its columns are printed under names that tell them apart. */
  lemma {:induction false} AllNamed(s: Setup, t: Rel)
    requires WellFormed(t) && Placed(s, t) && Printed(s, t)
    ensures NamedOr(s, t, [])
  {
    FromNamed(s, t);
    WhereNamed(s, t);
    NamedMore(s, t, InfoOf(t).remote, []);
  }

  // ---------- conditions ----------

  function Looked(args: seq<Var>, row: map<Var, Val>): seq<Val> {
    seq(|args|, i requires 0 <= i < |args| => Lookup(row, args[i]))
  }

  /** A relation counts as null-extended only if one of its arrays is missing. */
  lemma {:induction false} RowOfAbsent(arrays: set<Var>, args: seq<Var>, row: map<Var, Val>, rel: nat)
    requires rel in RowOf(arrays, args, Looked(args, row)).absent
    ensures exists v :: v in args && v in arrays && v.rel == rel && !Lookup(row, v).Arr?
  {
    assert Looked(args, row)[1..] == Looked(args[1..], row);
    if rel in RowOf(arrays, args[1..], Looked(args[1..], row)).absent {
      RowOfAbsent(arrays, args[1..], row, rel);
      var v :| v in args[1..] && v in arrays && v.rel == rel && !Lookup(row, v).Arr?;
      assert v in args;
    } else {
      assert args[0] in args;
    }
  }

  lemma {:induction false} RowOfStored(arrays: set<Var>, args: seq<Var>, row: map<Var, Val>, v: Var)
    requires v in args && v !in arrays
    ensures var r := RowOf(arrays, args, Looked(args, row)); Column(v) in r.vals && r.vals[Column(v)] == Lookup(row, v)
  {
    assert Looked(args, row)[1..] == Looked(args[1..], row);
    if v != args[0] {
      assert v in args[1..];
      RowOfStored(arrays, args[1..], row, v);
      assert Column(v) != Column(args[0]);
    }
  }

  /** The row holds what the joined row holds. */
  lemma {:induction false} RowOfLooked(s: Setup, t: Rel, nulled: set<nat>, args: seq<Var>, row: map<Var, Val>, v: Var)
    requires Held(s, t, nulled, row) && (forall u :: u in args ==> u.rel in Relids(t)) && v in args && v !in s.arrays
    ensures P.Get(RowOf(s.arrays, args, Looked(args, row)), Column(v)) == Lookup(row, v)
  {
    RowOfStored(s.arrays, args, row, v);
    if v.rel in RowOf(s.arrays, args, Looked(args, row)).absent {
      RowOfAbsent(s.arrays, args, row, v.rel);
    }
  }

  /** A condition has the same truth on both sides, on every row that keeps the constraints. */
  lemma {:induction false} ClauseAgrees(s: Setup, t: Rel, nulled: set<nat>, c: Clause<Ref>, row: map<Var, Val>)
    requires Accepted(s) && Fits(s, t, nulled, c) && Named(s, c) && Held(s, t, nulled, row) && s.notNull !! s.arrays
    requires forall v :: v in c.args ==> v.v.rel in Relids(t)
    ensures Sat(Local(s), Plain(c), row) == Sat(Remote(s), Plain(c), row)
  {
    var known := s.conds[c.pred];
    var vs := Looked(known.args, row);
    forall v | v in known.args ensures v.rel in Relids(t) {
      var i :| 0 <= i < |known.args| && known.args[i] == v;
      assert c.args[i] in c.args && c.args[i].v == v;
    }
    RowIsOk(s, t, nulled, known, row);
    MeaningsAgree(s, c, vs);
    SatLooked(Local(s), Plain(c), row);
    SatLooked(Remote(s), Plain(c), row);
  }

  lemma {:induction false} RowIsOk(s: Setup, t: Rel, nulled: set<nat>, known: Condition, row: map<Var, Val>)
    requires Held(s, t, nulled, row) && s.notNull !! s.arrays && nulled <= known.cols.nulled
    requires forall v :: v in known.args ==> v.rel in Relids(t)
    requires forall col :: col in known.cols.notNull ==>
               exists v :: v in known.args && v in s.notNull && Column(v) == col
    ensures Pushdown.RowOk(RowOf(s.arrays, known.args, Looked(known.args, row)), known.cols)
  {
    var r := RowOf(s.arrays, known.args, Looked(known.args, row));
    forall rel | rel in r.absent ensures rel in known.cols.nulled {
      RowOfAbsent(s.arrays, known.args, row, rel);
    }
    forall col | col in known.cols.notNull && col.rel !in known.cols.nulled ensures P.Get(r, col) != Null {
      var v :| v in known.args && v in s.notNull && Column(v) == col;
      RowOfLooked(s, t, nulled, known.args, row, v);
    }
  }

  lemma {:induction false} MeaningsAgree(s: Setup, clause: Clause<Ref>, vs: seq<Val>)
    requires Accepted(s) && Named(s, clause) && |vs| == |s.conds[clause.pred].args|
    requires Pushdown.RowOk(RowOf(s.arrays, s.conds[clause.pred].args, vs), s.conds[clause.pred].cols)
    ensures Local(s)(clause.pred, vs) == Remote(s)(clause.pred, vs)
  {
    var p := clause.pred;
    var c, r := s.conds[p], RowOf(s.arrays, s.conds[p].args, vs);
    var d := D.DCtx(true, Qualified(c), c.scan, c.cols, D.Top, s.cfg);
    var env, cenv := P.Env(r, [], s.params), C.CEnv(c.scan, r, None, r, [], s.params);
    Correctness.Correct(c.expr, W.Truth, d, c.owner, s.w, env, cenv);
    assert Local(s)(p, vs) == IsTrue(P.Eval(c.expr, s.w, env));
    assert Remote(s)(p, vs) == IsTrue(C.CEval(Deparsed(s, c), s.w, cenv));
  }

  lemma {:induction false} SatLooked(h: Meaning, c: Clause<Var>, row: map<Var, Val>)
    ensures Sat(h, c, row) == h(c.pred, Looked(c.args, row))
  {
    assert Looked(c.args, row) == seq(|c.args|, i requires 0 <= i < |c.args| => Lookup(row, c.args[i]));
  }

  /** The clauses of cs stand where t evaluates them, over columns of t. */
  ghost predicate Stand(s: Setup, t: Rel, nulled: set<nat>, cs: Clauses<Ref>) {
    forall c :: c in cs ==> Fits(s, t, nulled, c) && Named(s, c) && forall v :: v in c.args ==> v.v.rel in Relids(t)
  }

  lemma {:induction false} ClausesAgree(s: Setup, t: Rel, nulled: set<nat>, cs: Clauses<Ref>, row: map<Var, Val>)
    requires Accepted(s) && Held(s, t, nulled, row) && s.notNull !! s.arrays
    requires Stand(s, t, nulled, cs)
    ensures SameOn(Local(s), Remote(s), PlainAll(cs), row)
  {
    forall i | 0 <= i < |cs| ensures Sat(Local(s), PlainAll(cs)[i], row) == Sat(Remote(s), PlainAll(cs)[i], row) {
      assert cs[i] in cs;
      ClauseAgrees(s, t, nulled, cs[i], row);
    }
  }

  // ---------- rows ----------

  /** Two rows of the inputs, joined either way. */
  lemma {:induction false} PairHeld(s: Setup, t: Rel, l: map<Var, Val>, r: map<Var, Val>)
    requires t.Join? && Relids(t.outer) !! Relids(t.inner)
    requires Held(s, t.outer, Nulled(t.outer), l) && Held(s, t.inner, Nulled(t.inner), r)
    ensures Held(s, t, Below(t), l + r) && Held(s, t, Below(t), r + l)
  {
    forall v: Var | v.rel in Relids(t)
      ensures Lookup(l + r, v) == Lookup(r + l, v) == if v.rel in Relids(t.outer) then Lookup(l, v) else Lookup(r, v)
    {
    }
  }

  lemma {:induction false} JoinedHeld(s: Setup, t: Rel, left: Rows<Var>, right: Rows<Var>, m: map<Var, Val>)
    requires t.Join? && Relids(t.outer) !! Relids(t.inner) && Joined(t.kind, left, right, m)
    requires forall l :: l in left ==> Held(s, t.outer, Nulled(t.outer), l)
    requires forall r :: r in right ==> Held(s, t.inner, Nulled(t.inner), r)
    ensures Held(s, t, Nulled(t), m)
  {
    if l, r :| l in left && r in right && (m == l + r || m == r + l) {
      PairHeld(s, t, l, r);
    }
  }

  /** Every row of the plan keeps the constraints. */
  lemma {:induction false} PlanHeld(s: Setup, t: Rel, h: Meaning, db: Db)
    requires WellFormed(t) && DbOk(db) && Stored(s, db)
    ensures forall m :: m in PlanRemote(t, h, db) ==> Held(s, t, Nulled(t), m)
  {
    if t.Base? {
      FilterElements(h, PlainAll(t.conds), if t.relid in db then db[t.relid] else []);
    } else {
      PlanHeld(s, t.outer, h, db);
      PlanHeld(s, t.inner, h, db);
      var left, right := PlanRemote(t.outer, h, db), PlanRemote(t.inner, h, db);
      var on := PlainAll(OnClauses(t.kind, t.restrict));
      FilterElements(h, PlainAll(RestClauses(t.kind, t.restrict, true)), JoinRows(h, t.kind, left, right, on));
      forall m | m in JoinRows(h, t.kind, left, right, on) ensures Held(s, t, Nulled(t), m) {
        JoinCases(h, t.kind, left, right, on, m);
        JoinedHeld(s, t, left, right, m);
      }
    }
  }

  /** The plan keeps and joins the same rows by either meaning. */
  lemma {:induction false} PlanAgrees(s: Setup, t: Rel, db: Db)
    requires WellFormed(t) && DbOk(db) && Stored(s, db) && Accepted(s) && Placed(s, t) && NamedOr(s, t, [])
    ensures PlanRemote(t, Local(s), db) == PlanRemote(t, Remote(s), db)
  {
    if t.Base? {
      var rows := if t.relid in db then db[t.relid] else [];
      forall row | row in rows ensures SameOn(Local(s), Remote(s), PlainAll(t.conds), row) {
        ClausesAgree(s, t, {}, t.conds, row);
      }
      FilterAgrees(Local(s), Remote(s), PlainAll(t.conds), rows);
    } else {
      PlanAgrees(s, t.outer, db);
      PlanAgrees(s, t.inner, db);
      PlanHeld(s, t.outer, Local(s), db);
      PlanHeld(s, t.inner, Local(s), db);
      JoinStepAgrees(s, t, PlanRemote(t.outer, Local(s), db), PlanRemote(t.inner, Local(s), db));
    }
  }

  lemma {:induction false} OwnStand(s: Setup, t: Rel)
    requires WellFormed(t) && t.Join? && Placed(s, t) && NamedOr(s, t, [])
    ensures Stand(s, t, Below(t), OnClauses(t.kind, t.restrict))
    ensures Stand(s, t, Nulled(t), RestClauses(t.kind, t.restrict, true))
  {
    RestrictRels(t);
  }

  /** The ON clause, on any pair of rows of the inputs. */
  lemma {:induction false} OnAgrees(s: Setup, t: Rel, l: map<Var, Val>, r: map<Var, Val>)
    requires WellFormed(t) && t.Join? && Accepted(s) && Placed(s, t) && NamedOr(s, t, []) && s.notNull !! s.arrays
    requires Held(s, t.outer, Nulled(t.outer), l) && Held(s, t.inner, Nulled(t.inner), r)
    ensures var on := PlainAll(OnClauses(t.kind, t.restrict));
            SameOn(Local(s), Remote(s), on, l + r) && SameOn(Local(s), Remote(s), on, r + l)
  {
    var on := OnClauses(t.kind, t.restrict);
    OwnStand(s, t);
    PairHeld(s, t, l, r);
    ClausesAgree(s, t, Below(t), on, l + r);
    ClausesAgree(s, t, Below(t), on, r + l);
  }

  /** The filter above the join, on any row that it returns. */
  lemma {:induction false} RestAgrees(s: Setup, t: Rel, left: Rows<Var>, right: Rows<Var>, m: map<Var, Val>)
    requires WellFormed(t) && t.Join? && Accepted(s) && Placed(s, t) && NamedOr(s, t, []) && s.notNull !! s.arrays
    requires forall l :: l in left ==> Held(s, t.outer, Nulled(t.outer), l)
    requires forall r :: r in right ==> Held(s, t.inner, Nulled(t.inner), r)
    requires m in JoinRows(Local(s), t.kind, left, right, PlainAll(OnClauses(t.kind, t.restrict)))
    ensures SameOn(Local(s), Remote(s), PlainAll(RestClauses(t.kind, t.restrict, true)), m)
  {
    OwnStand(s, t);
    JoinCases(Local(s), t.kind, left, right, PlainAll(OnClauses(t.kind, t.restrict)), m);
    JoinedHeld(s, t, left, right, m);
    ClausesAgree(s, t, Nulled(t), RestClauses(t.kind, t.restrict, true), m);
  }

  lemma {:induction false} JoinStepAgrees(s: Setup, t: Rel, left: Rows<Var>, right: Rows<Var>)
    requires WellFormed(t) && t.Join? && Accepted(s) && Placed(s, t) && NamedOr(s, t, []) && s.notNull !! s.arrays
    requires forall l :: l in left ==> Held(s, t.outer, Nulled(t.outer), l)
    requires forall r :: r in right ==> Held(s, t.inner, Nulled(t.inner), r)
    ensures var on, rest := PlainAll(OnClauses(t.kind, t.restrict)), PlainAll(RestClauses(t.kind, t.restrict, true));
            Filter(Local(s), rest, JoinRows(Local(s), t.kind, left, right, on)) ==
            Filter(Remote(s), rest, JoinRows(Remote(s), t.kind, left, right, on))
  {
    var on, rest := PlainAll(OnClauses(t.kind, t.restrict)), PlainAll(RestClauses(t.kind, t.restrict, true));
    forall l, r | l in left && r in right
      ensures SameOn(Local(s), Remote(s), on, l + r) && SameOn(Local(s), Remote(s), on, r + l)
    {
      OnAgrees(s, t, l, r);
    }
    JoinAgrees(Local(s), Remote(s), t.kind, left, right, on);
    var rows := JoinRows(Local(s), t.kind, left, right, on);
    forall m | m in rows ensures SameOn(Local(s), Remote(s), rest, m) {
      RestAgrees(s, t, left, right, m);
    }
    FilterAgrees(Local(s), Remote(s), rest, rows);
  }

  /** The query as sent, its conditions deparsed and its joins flattened, returns the rows of PostgreSQL's remote part,
      in order and under the names the deparser uses; with the local conditions on top they are the plan's rows. */
  lemma {:induction false} PushedDown(s: Setup, t: Rel, db: Db)
    requires WellFormed(t) && Found(t) && InfoOf(t).ok && DbOk(db) && Stored(s, db)
    requires Accepted(s) && Known(s, t) && Printed(s, t)
    ensures RepAll(t, false, PlanRemote(t, Local(s), db), SentRows(t, Remote(s), db))
    ensures Plan(t, Local(s), db) == Filter(Local(s), PlainAll(InfoOf(t).local), PlanRemote(t, Local(s), db))
  {
    Flattened(t, Remote(s), db);
    KnownPlaced(s, t);
    AllNamed(s, t);
    PlanAgrees(s, t, db);
    PlanSplits(t, Local(s), db);
  }

  // ---------- what comes back ----------

  /** ClickHouse has no NULL array, so a null-extended array column comes back empty. */
  function Delivered(s: Setup, v: Var, x: Val): Val {
    if v in s.arrays && !x.Arr? then Arr([]) else x
  }

  /** A column comes back as it is in the plan's row, on every row, if it is not an array column of a relation that a
      join may null-extend; an array column that is null-extended does not. */
  lemma {:induction false} DeliveredExactly(s: Setup, t: Rel, db: Db, m: map<Var, Val>, v: Var)
    requires WellFormed(t) && DbOk(db) && Stored(s, db) && m in PlanRemote(t, Local(s), db) && v.rel in Relids(t)
    ensures Delivered(s, v, Lookup(m, v)) == Lookup(m, v) <==> v !in s.arrays || v in m
    ensures v !in s.arrays || v.rel !in Nulled(t) ==> Delivered(s, v, Lookup(m, v)) == Lookup(m, v)
  {
    PlanHeld(s, t, Local(s), db);
    assert Held(s, t, Nulled(t), m);
  }
}
