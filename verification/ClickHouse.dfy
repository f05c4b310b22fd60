/** The ClickHouse SQL that the deparser emits, kept as a tree, and its value. */
module ClickHouse {
  import opened Values
  import opened Postgres

  /** r{N}, q{plan_id}_{N}, or no qualifier at all. */
  datatype Alias = Bare | RelAlias | SubAlias(planId: nat)

  /** has and countEqual match NULL with NULL; length and notEmpty ignore the operand x. */
  datatype ArrayFn = Has | CountEqual | Length | NotEmpty

  datatype ArithFn = Minus | Less | Equal

  function ApplyArray(fn: ArrayFn, arr: seq<Val>, x: Val): Val {
    match fn
    case Has => Bool(x in arr)
    case CountEqual => Num(Count(arr, x))
    case Length => Num(|arr|)
    case NotEmpty => Bool(arr != [])
  }

  function ApplyArith(fn: ArithFn, left: Val, right: Val): Val {
    if !left.Num? || !right.Num? then Null
    else
      match fn
      case Minus => Num(left.n - right.n)
      case Less => Bool(left.n < right.n)
      case Equal => Bool(left.n == right.n)
  }

  datatype CWhen = CWhen(cond: CExpr, result: CExpr)

  datatype CArr =
    | CArrLit(elems: seq<Val>)
    | CArrList(exprs: seq<CExpr>)
    | CArrCol(alias: Alias, col: Col)
    | CArrBound(col: Col)

  datatype CExpr =
    | CCol(alias: Alias, col: Col)
    | CBound(col: Col)
    | CLit(v: Val)
    | CParam(id: nat)
    | CCall(f: nat, args: seq<CExpr>)
    | CAnd(args: seq<CExpr>)
    | COr(args: seq<CExpr>)
    | CNot(arg: CExpr)
    | CIsNull(isNull: bool, arg: CExpr)
    | CEqOne(arg: CExpr)
    | CCase(whens: seq<CWhen>, els: Option<CExpr>)
    | CIn(negated: bool, probe: CExpr, elems: seq<Val>)
    | CArray(fn: ArrayFn, arr: CArr, x: CExpr)
    | CArith(fn2: ArithFn, left: CExpr, right: CExpr)
    | CAgg(f: nat, arg: CExpr, filter: Option<CExpr>)
    | CExists(q: CQuery)
    | CScalar(q: CQuery)
    | CInQuery(negated: bool, probe: CExpr, q: CQuery)

  /** selectsAggregate says that the select list as emitted holds an aggregate: it, a GROUP BY
      or a HAVING makes ClickHouse aggregate the rows. */
  datatype CQuery = CQuery(
    planId: nat,
    from: seq<FromItem>,
    where: seq<CExpr>,
    groupBy: seq<CExpr>,
    selectsAggregate: bool,
    having: seq<CExpr>,
    target: CExpr)

  datatype Inner = Inner(planId: nat, row: Row)

  /** outer holds the columns of the relations in scan, which are the r{N} of the statement, inner the q{plan_id}_{N}
      columns of the enclosing subquery, bound the values that the local executor sends for columns outside the scan. */
  datatype CEnv = CEnv(scan: set<nat>, outer: Row, inner: Option<Inner>, bound: Row, group: seq<Row>,
                       params: map<nat, Val>)

  function OnRow(env: CEnv, r: Row): CEnv {
    if env.inner.Some? then env.(inner := Some(env.inner.value.(row := r))) else env.(outer := r)
  }

  /** The row in which a column is found. An unqualified name is captured by the innermost scope, and tells nothing
      where there are several relations; the server has no columns for PostgreSQL's system columns. */
  function Scope(alias: Alias, col: Col, env: CEnv): Option<Row> {
    if col.att < 0 then None
    else
      match alias
      case Bare =>
        if env.inner.Some? then Some(env.inner.value.row)
        else if col.rel in env.scan && |env.scan| <= 1 then Some(env.outer)
        else None
      case RelAlias => if col.rel in env.scan then Some(env.outer) else None
      case SubAlias(p) => if env.inner.Some? && env.inner.value.planId == p then Some(env.inner.value.row) else None
  }

  /** Servers before 25.8 reject correlated subqueries, and all of them a FROM clause without tables. */
  predicate Runs(q: CQuery, w: World) {
    w.correlates && q.from != []
  }

  /** IN under transform_null_in = 0: two-valued, except that a NULL probe gives NULL. */
  function SetIn(negated: bool, x: Val, elems: seq<Val>): Val {
    if x == Null then Null else Bool((x in elems) != negated)
  }

  predicate CGrouped(q: CQuery) {
    q.groupBy != [] || q.selectsAggregate || q.having != []
  }

  function CGroups(q: CQuery, rows: seq<Row>, keys: seq<seq<Val>>): (r: seq<seq<Row>>)
    requires |rows| == |keys|
  {
    if q.groupBy == [] then [rows] else GroupRows(rows, keys, |keys|)
  }

  function Inside(env: CEnv, planId: nat, r: Row): CEnv {
    env.(inner := Some(Inner(planId, r)), group := [])
  }

  function InsideGroup(env: CEnv, planId: nat, g: seq<Row>): CEnv {
    env.(inner := Some(Inner(planId, if g == [] then Phantom else g[0])), group := g)
  }

  function CEval(c: CExpr, w: World, env: CEnv): Val
    decreases c, 0
  {
    match c
    case CCol(alias, col) => var r := Scope(alias, col, env); if r.Some? then Get(r.value, col) else w.refused
    case CBound(col) => Get(env.bound, col)
    case CLit(v) => v
    case CParam(id) => if id in env.params then env.params[id] else Null
    case CCall(f, args) => w.ccall(f, CEvalAll(args, w, env))
    case CAnd(args) => And3(CEvalAll(args, w, env))
    case COr(args) => Or3(CEvalAll(args, w, env))
    case CNot(arg) => Not3(CEval(arg, w, env))
    case CIsNull(isNull, arg) => Bool((CEval(arg, w, env) == Null) == isNull)
    case CEqOne(arg) => var v := CEval(arg, w, env); if v.Bool? then v else Null  // a boolean column holds 0 or 1
    case CCase(_, _) => CEvalCase(c, 0, w, env)
    case CIn(negated, probe, elems) => SetIn(negated, CEval(probe, w, env), elems)
    case CArray(fn, arr, x) => ApplyArray(fn, CEvalArr(arr, w, env), CEval(x, w, env))
    case CArith(fn, l, r) => ApplyArith(fn, CEval(l, w, env), CEval(r, w, env))
    case CAgg(f, arg, filter) =>
      w.caggregate(f, CEvalOnRows(arg, if filter.None? then env.group else CFilterRows(filter.value, w, env), w, env))
    case CExists(q) => if Runs(q, w) then Bool(COutput(q, w, env) != []) else w.refused
    case CScalar(q) =>
      var out := COutput(q, w, env);
      if !Runs(q, w) then w.refused else if out == [] then w.emptyScalar else out[0]
    case CInQuery(negated, probe, q) =>
      if Runs(q, w) then SetIn(negated, CEval(probe, w, env), COutput(q, w, env)) else w.refused
  }

  function CEvalAll(es: seq<CExpr>, w: World, env: CEnv): (vs: seq<Val>)
    ensures |vs| == |es|
    decreases es, 0
  {
    seq(|es|, i requires 0 <= i < |es| => CEval(es[i], w, env))
  }

  function CFilterRows(filter: CExpr, w: World, env: CEnv): seq<Row>
    decreases filter, 2
  {
    Select(env.group, CFilterFlags(filter, w, env))
  }

  function CFilterFlags(filter: CExpr, w: World, env: CEnv): (flags: seq<bool>)
    ensures |flags| == |env.group|
    decreases filter, 1
  {
    seq(|env.group|, i requires 0 <= i < |env.group| => IsTrue(CEval(filter, w, OnRow(env, env.group[i]))))
  }

  function CEvalOnRows(arg: CExpr, rows: seq<Row>, w: World, env: CEnv): (vs: seq<Val>)
    ensures |vs| == |rows|
    decreases arg, 1
  {
    seq(|rows|, i requires 0 <= i < |rows| => CEval(arg, w, OnRow(env, rows[i])))
  }

  function CEvalCase(c: CExpr, k: nat, w: World, env: CEnv): Val
    requires c.CCase? && k <= |c.whens|
    decreases c, 0, |c.whens| - k
  {
    if k == |c.whens| then
      if c.els.Some? then CEval(c.els.value, w, env) else Null
    else if IsTrue(CEval(c.whens[k].cond, w, env)) then CEval(c.whens[k].result, w, env)
    else CEvalCase(c, k + 1, w, env)
  }

  function CEvalArr(a: CArr, w: World, env: CEnv): seq<Val>
    decreases a, 0
  {
    match a
    case CArrLit(elems) => elems
    case CArrList(exprs) => CEvalAll(exprs, w, env)
    case CArrCol(alias, col) => var r := Scope(alias, col, env); if r.Some? then GetArr(r.value, col) else [w.refused]
    case CArrBound(col) => GetArr(env.bound, col)
  }

  predicate CHolds(quals: seq<CExpr>, w: World, env: CEnv)
    decreases quals, 0
  {
    forall k :: 0 <= k < |quals| ==> IsTrue(CEval(quals[k], w, env))
  }

  function CRows(q: CQuery, w: World, env: CEnv): seq<Row>
    decreases q, 0
  {
    var rows := Cross(q.from, w.db);
    Select(rows, seq(|rows|, i requires 0 <= i < |rows| => CHolds(q.where, w, Inside(env, q.planId, rows[i]))))
  }

  function CKeys(q: CQuery, rows: seq<Row>, w: World, env: CEnv): (keys: seq<seq<Val>>)
    ensures |keys| == |rows|
    decreases q, 0
  {
    seq(|rows|, i requires 0 <= i < |rows| =>
      CEvalAll(q.groupBy, w, Inside(env, q.planId, rows[i])))
  }

  function CKeptGroups(q: CQuery, w: World, env: CEnv): seq<seq<Row>>
    decreases q, 1
  {
    var rows := CRows(q, w, env);
    var groups := CGroups(q, rows, CKeys(q, rows, w, env));
    Select(groups, seq(|groups|, i requires 0 <= i < |groups| =>
      CHolds(q.having, w, InsideGroup(env, q.planId, groups[i]))))
  }

  function COutput(q: CQuery, w: World, env: CEnv): seq<Val>
    decreases q, 2
  {
    if CGrouped(q) then
      var groups := CKeptGroups(q, w, env);
      seq(|groups|, i requires 0 <= i < |groups| => CEval(q.target, w, InsideGroup(env, q.planId, groups[i])))
    else
      var rows := CRows(q, w, env);
      seq(|rows|, i requires 0 <= i < |rows| => CEval(q.target, w, Inside(env, q.planId, rows[i])))
  }
}
