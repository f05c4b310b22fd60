/** Pushing a tree of joins down as one query (src/fdw.c foreign_join_ok, src/deparse.c). */
module Joins {
  import opened Values
  import opened Relational

  /** A column of a base relation. */
  datatype Var = Var(rel: nat, att: int)

  /** A reference to a column, with the outer joins below it that may have nulled the column (varnullingrels). Before
      PostgreSQL 16 the set is always empty. */
  datatype Ref = Ref(v: Var, nulling: set<nat>)

  /** A join's RestrictInfo: pushed-down clauses of an outer join are filters above it. */
  datatype Restrict = Restrict(clause: Clause<Ref>, pushedDown: bool, remote: bool)

  /** Planner relations. index is fpinfo->relation_index, target the reltarget columns. */
  datatype Rel =
    | Base(relid: nat, conds: Clauses<Ref>, local: Clauses<Ref>, target: seq<Ref>)
    | Join(number: nat, kind: JoinType, outer: Rel, inner: Rel, restrict: seq<Restrict>, target: seq<Ref>)

  type Db = map<nat, Rows<Var>>

  /** What a clause says of a row, whatever joins may have nulled its columns. */
  function Plain(c: Clause<Ref>): (p: Clause<Var>)
    ensures |p.args| == |c.args| && forall i :: 0 <= i < |c.args| ==> p.args[i] == c.args[i].v
  {
    Clause(c.pred, seq(|c.args|, i requires 0 <= i < |c.args| => c.args[i].v), c.simpleEq)
  }

  function PlainAll(cs: Clauses<Ref>): (ps: Clauses<Var>)
    ensures |ps| == |cs| && forall i :: 0 <= i < |cs| ==> ps[i] == Plain(cs[i])
  {
    seq(|cs|, i requires 0 <= i < |cs| => Plain(cs[i]))
  }

  function Index(t: Rel): nat {
    if t.Base? then t.relid else t.number
  }

  function Relids(t: Rel): set<nat> {
    if t.Base? then {t.relid} else Relids(t.outer) + Relids(t.inner)
  }

  function Indexes(t: Rel): set<nat> {
    {Index(t)} + if t.Base? then {} else Indexes(t.outer) + Indexes(t.inner)
  }

  /** The decisions that foreign_join_ok leaves in fpinfo. */
  datatype Info = Info(
    ok: bool,
    remote: Clauses<Ref>,
    local: Clauses<Ref>,
    joinclauses: Clauses<Ref>,
    makeOuter: bool,
    makeInner: bool,
    lower: set<nat>)

  /** A clause of an outer join that must hold while joining. */
  predicate IsOn(kind: JoinType, r: Restrict) {
    kind != Inner && !r.pushedDown
  }

  function OnClauses(kind: JoinType, rs: seq<Restrict>): (cs: Clauses<Ref>)
    ensures forall c :: c in cs ==> exists r :: r in rs && r.clause == c
  {
    if rs == [] then []
    else OnClauses(kind, rs[..|rs| - 1]) + if IsOn(kind, rs[|rs| - 1]) then [rs[|rs| - 1].clause] else []
  }

  /** An inner join keeps no restriction as an ON clause of its own. */
  lemma {:induction false} NoOnClauses(rs: seq<Restrict>)
    ensures OnClauses(Inner, rs) == []
  {
    if rs != [] {
      NoOnClauses(rs[..|rs| - 1]);
    }
  }

  function RestClauses(kind: JoinType, rs: seq<Restrict>, remote: bool): (cs: Clauses<Ref>)
    ensures forall c :: c in cs ==> exists r :: r in rs && r.clause == c
  {
    if rs == [] then []
    else
      var r := rs[|rs| - 1];
      RestClauses(kind, rs[..|rs| - 1], remote) + if !IsOn(kind, r) && r.remote == remote then [r.clause] else []
  }

  predicate OnShippable(kind: JoinType, rs: seq<Restrict>) {
    forall i :: 0 <= i < |rs| && IsOn(kind, rs[i]) ==> rs[i].remote
  }

  function InfoOf(t: Rel): Info {
    match t
    case Base(_, conds, local, _) => Info(true, conds, local, [], false, false, {})
    case Join(_, kind, outer, inner, restrict, _) =>
      var o, i := InfoOf(outer), InfoOf(inner);
      var ok := o.ok && i.ok && o.local == [] && i.local == [] && OnShippable(kind, restrict);
      var on, rest, local := OnClauses(kind, restrict), RestClauses(kind, restrict, true),
        RestClauses(kind, restrict, false);
      var lower := o.lower + i.lower;
      match kind
      case Inner =>
        var all := rest + i.remote + o.remote;
        Info(ok, Equalities(all, false), local, Equalities(all, true), false, false, lower)
      case Left => Info(ok, rest + o.remote, local, on + i.remote, false, false, lower)
      case Right => Info(ok, rest + i.remote, local, on + o.remote, false, false, lower)
      case Full =>
        Info(ok, rest, local, on, o.remote != [], i.remote != [],
             lower + (if o.remote != [] then Relids(outer) else {}) + (if i.remote != [] then Relids(inner) else {}))
  }

  // ---------- PostgreSQL's plan: filter every input, then join, bottom-up ----------

  function PlanRemote(t: Rel, h: Meaning, db: Db): Rows<Var> {
    match t
    case Base(relid, conds, _, _) => Filter(h, PlainAll(conds), if relid in db then db[relid] else [])
    case Join(_, kind, outer, inner, restrict, _) =>
      Filter(h, PlainAll(RestClauses(kind, restrict, true)),
             JoinRows(h, kind, PlanRemote(outer, h, db), PlanRemote(inner, h, db), PlainAll(OnClauses(kind, restrict))))
  }

  // ---------- the query that is sent ----------

  /** r{N}.column, or s{N}.c{M} for a column of a wrapped input. */
  datatype Name = R(v: Var) | S(alias: nat, col: nat)

  datatype From =
    | Table(relid: nat)
    | Wrapped(cols: seq<Name>, from: From, where: Clauses<Name>, alias: nat)
    | JoinFrom(kind: JoinType, left: From, right: From, on: Clauses<Name>)

  /** The 1-based position of a reference in the list, compared whole, one past the end if it is missing. */
  function Position(target: seq<Ref>, v: Ref): (p: nat)
    ensures 1 <= p <= |target| + 1
    ensures v in target ==> p <= |target| && target[p - 1] == v
  {
    if target == [] then 1 else if target[0] == v then 1 else 1 + Position(target[1..], v)
  }

  /** How the FROM entry of t, wrapped or not, calls the column of reference v. */
  function RangeName(t: Rel, sub: bool, v: Ref): Name {
    if sub then S(Index(t), Position(t.target, v)) else NameAt(t, v)
  }

  /** The name of v in the clauses of t: the outermost wrapping subquery decides. */
  function NameAt(t: Rel, v: Ref): Name
    decreases t, 0
  {
    if t.Base? then R(v.v)
    else if v.v.rel in Relids(t.outer) then
      if InfoOf(t).makeOuter then S(Index(t.outer), Position(t.outer.target, v)) else NameAt(t.outer, v)
    else
      if InfoOf(t).makeInner then S(Index(t.inner), Position(t.inner.target, v)) else NameAt(t.inner, v)
  }

  function NameClause(t: Rel, c: Clause<Ref>): (n: Clause<Name>)
    ensures |n.args| == |c.args|
  {
    Clause(c.pred, seq(|c.args|, i requires 0 <= i < |c.args| => NameAt(t, c.args[i])), c.simpleEq)
  }

  function NameAll(t: Rel, cs: Clauses<Ref>): (r: Clauses<Name>)
    ensures |r| == |cs|
  {
    seq(|cs|, i requires 0 <= i < |cs| => NameClause(t, cs[i]))
  }

  function FromOf(t: Rel): From
    decreases t, 0
  {
    match t
    case Base(relid, _, _, _) => Table(relid)
    case Join(_, kind, outer, inner, _, _) =>
      var f := InfoOf(t);
      JoinFrom(kind, RangeOf(outer, f.makeOuter), RangeOf(inner, f.makeInner), NameAll(t, f.joinclauses))
  }

  /** deparseRangeTblRef. */
  function RangeOf(t: Rel, sub: bool): From
    decreases t, 1
  {
    if sub then
      Wrapped(seq(|t.target|, i requires 0 <= i < |t.target| => NameAt(t, t.target[i])),
              FromOf(t), NameAll(t, InfoOf(t).remote), Index(t))
    else FromOf(t)
  }

  function TableRow(row: map<Var, Val>): map<Name, Val> {
    map v | v in row :: R(v) := row[v]
  }

  function TableRows(rows: Rows<Var>): (r: Rows<Name>)
    ensures |r| == |rows|
  {
    seq(|rows|, i requires 0 <= i < |rows| => TableRow(rows[i]))
  }

  function Project(cols: seq<Name>, alias: nat, row: map<Name, Val>): map<Name, Val> {
    map i | 0 <= i < |cols| :: S(alias, i + 1) := Lookup(row, cols[i])
  }

  function ProjectAll(cols: seq<Name>, alias: nat, rows: Rows<Name>): (r: Rows<Name>)
    ensures |r| == |rows|
  {
    seq(|rows|, i requires 0 <= i < |rows| => Project(cols, alias, rows[i]))
  }

  function EvalFrom(f: From, h: Meaning, db: Db): Rows<Name> {
    match f
    case Table(relid) => TableRows(if relid in db then db[relid] else [])
    case Wrapped(cols, from, where, alias) => ProjectAll(cols, alias, Filter(h, where, EvalFrom(from, h, db)))
    case JoinFrom(kind, left, right, on) => JoinRows(h, kind, EvalFrom(left, h, db), EvalFrom(right, h, db), on)
  }

  /** SELECT .. FROM .. WHERE remote_conds. */
  function SentRows(t: Rel, h: Meaning, db: Db): Rows<Name> {
    Filter(h, NameAll(t, InfoOf(t).remote), EvalFrom(FromOf(t), h, db))
  }

  // ---------- what the planner guarantees ----------

  predicate HasColumn(target: seq<Ref>, v: Var) {
    exists i :: 0 <= i < |target| && target[i].v == v
  }

  /** Relations and indexes are distinct, a base relation's conditions are about its own columns, and every
      column that a join needs is in the target of the input it comes from. */
  predicate WellFormed(t: Rel) {
    match t
    case Base(relid, conds, _, target) =>
      (forall c, v :: c in conds && v in c.args ==> v.v.rel == relid) && (forall v :: v in target ==> v.v.rel == relid)
    case Join(number, _, outer, inner, restrict, target) =>
      WellFormed(outer) && WellFormed(inner) &&
      Relids(outer) !! Relids(inner) && Indexes(outer) !! Indexes(inner) &&
      number !in Indexes(outer) + Indexes(inner) &&
      (forall r, v :: r in restrict && v in r.clause.args ==>
                        HasColumn(outer.target, v.v) || HasColumn(inner.target, v.v)) &&
      (forall v :: v in target ==> HasColumn(outer.target, v.v) || HasColumn(inner.target, v.v))
  }

  /** A stored row holds columns of its own table. */
  ghost predicate DbOk(db: Db) {
    forall relid, row, v :: relid in db && row in db[relid] && v in row ==> v.rel == relid
  }

  // ---------- references that find their column ----------

  /** v can be named in the clauses of t: a wrapped input must output that very reference. */
  predicate Nameable(t: Rel, v: Ref)
    decreases t, 0
  {
    if t.Base? then v.v.rel == t.relid
    else if v.v.rel in Relids(t.outer) then (if InfoOf(t).makeOuter then v in t.outer.target else Nameable(t.outer, v))
    else v.v.rel in Relids(t.inner) && (if InfoOf(t).makeInner then v in t.inner.target else Nameable(t.inner, v))
  }

  predicate RangeNameable(t: Rel, sub: bool, v: Ref) {
    if sub then v in t.target && v.v.rel in Relids(t) else Nameable(t, v)
  }

  ghost predicate AllNameable(t: Rel, cs: Clauses<Ref>) {
    forall c, v :: c in cs && v in c.args ==> Nameable(t, v)
  }

  /** Every reference in the FROM clause of t is found: those of ON clauses, and of wrapped inputs. */
  ghost predicate FoundFrom(t: Rel)
    decreases t, 0
  {
    t.Join? ==>
      AllNameable(t, InfoOf(t).joinclauses) &&
      (if InfoOf(t).makeOuter then Found(t.outer) else FoundFrom(t.outer)) &&
      (if InfoOf(t).makeInner then Found(t.inner) else FoundFrom(t.inner))
  }

  /** And in its WHERE clause. */
  ghost predicate FoundBody(t: Rel)
    decreases t, 1
  {
    AllNameable(t, InfoOf(t).remote) && FoundFrom(t)
  }

  /** And in its select list, so that deparsing t raises no error. */
  ghost predicate Found(t: Rel)
    decreases t, 2
  {
    FoundBody(t) && forall v :: v in t.target ==> Nameable(t, v)
  }
}
