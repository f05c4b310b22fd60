/** PostgreSQL expression trees, as the planner hands them over, and their value. */
module Postgres {
  import opened Values

  /** A column of a range-table entry. Negative attribute numbers are system columns. */
  datatype Col = Col(rel: nat, att: int)

  /** absent are the relations that an outer join has null-extended in this row. ClickHouse has no Nullable(Array),
      so a stored array is never NULL. Phantom stands for the row of an aggregate without GROUP BY over no rows; a
      legal query never reads a column of it. */
  datatype Row = Phantom | Row(vals: map<Col, Val>, arrs: map<Col, seq<Val>>, absent: set<nat>)

  function Get(r: Row, c: Col): Val {
    if r.Phantom? then Num(0) else if c in r.vals && c.rel !in r.absent then r.vals[c] else Null
  }

  predicate Extended(r: Row, c: Col) {
    r.Row? && c.rel in r.absent
  }

  /** The array that ClickHouse finds in a column: a null-extended one is empty. */
  function GetArr(r: Row, c: Col): seq<Val> {
    if r.Phantom? || c.rel in r.absent || c !in r.arrs then [] else r.arrs[c]
  }

  /** A stored tuple of one table, by attribute number. */
  datatype Tuple = Tuple(vals: map<int, Val>, arrs: map<int, seq<Val>>)

  /** Both systems read the same stored tables, but each has its own functions, operators and aggregates: call and
      aggregate are PostgreSQL's, ccall and caggregate ClickHouse's. Of PostgreSQL alone: reshape is what DISTINCT,
      ORDER BY, LIMIT, set operations and the like make of a body's rows, and multi holds the Params that a
      sub-select of the same target list assigns. Of ClickHouse alone: emptyScalar is its answer for a scalar subquery
      without rows, which PostgreSQL reads as NULL, correlates says that it can run correlated subqueries, and refused
      stands for the answer to what it rejects; nothing is known about that. */
  datatype World = World(
    call: (nat, seq<Val>) -> Val,
    aggregate: (nat, seq<Val>) -> Val,
    ccall: (nat, seq<Val>) -> Val,
    caggregate: (nat, seq<Val>) -> Val,
    reshape: seq<Val> -> seq<Val>,
    multi: nat -> Val,
    emptyScalar: Val,
    correlates: bool,
    refused: Val,
    db: map<nat, seq<Tuple>>)

  datatype EqualOp = OpEq | OpNe | OpNone

  datatype CallKind = Operator | Function | Special

  datatype When = When(cond: Expr, result: Expr)

  datatype ArrExpr =
    | ArrNull
    | ArrConst(elems: seq<Val>, nullBitmap: bool)
    | ArrList(exprs: seq<Expr>)
    | ArrCol(col: Col)

  datatype SubKind = Exists | Scalar | Any

  /** The operator of x op ANY (SELECT ..). */
  datatype AnyOp = Equality | Other(f: nat)

  /** Param `id` of a subquery body stands for outer expression `arg`. */
  datatype Correlation = Correlation(id: nat, arg: Expr)

  datatype FromItem = FromItem(rt: nat, relid: nat)

  /** deparsable is false for set operations, CTEs, window functions, DISTINCT, ORDER BY,
      LIMIT, grouping sets, SRFs, InitPlans and FROM items that are not foreign tables of the
      outer scan's server. */
  datatype Query = Query(
    deparsable: bool,
    from: seq<FromItem>,
    quals: seq<Expr>,
    groupBy: seq<Expr>,
    hasAggs: bool,
    having: seq<Expr>,
    target: Expr)

  datatype Expr =
    | Var(col: Col)
    | Const(v: Val)
    | Param(id: nat, multiExpr: bool)
    | Call(kind: CallKind, f: nat, args: seq<Expr>)
    | And(args: seq<Expr>)
    | Or(args: seq<Expr>)
    | Not(arg: Expr)
    | NullTest(isNull: bool, arg: Expr)
    | Relabel(arg: Expr)
    | Case(whens: seq<When>, els: Option<Expr>)
    | ArrayOp(useOr: bool, op: EqualOp, probe: Expr, arr: ArrExpr)
    | Aggref(f: nat, arg: Expr, filter: Option<Expr>)
    | SubPlan(link: SubKind, planId: nat, testOp: AnyOp, lhs: Expr, correlated: seq<Correlation>, body: Query)

  /** The row being evaluated, the rows of its group, and the executor's Param values. */
  datatype Env = Env(row: Row, group: seq<Row>, params: map<nat, Val>)

  /** ExecEvalScalarArrayOp: the elements in order, stopping at the first deciding one.
      sawNull records that some comparison so far was NULL. */
  function ArrayLoop(useOr: bool, op: EqualOp, probe: Val, arr: seq<Val>, sawNull: bool): Val {
    if arr == [] then
      if sawNull then Null else Bool(!useOr)
    else
      var hit := if op == OpEq then Eq3(arr[0], probe) else Not3(Eq3(arr[0], probe));
      if hit == Bool(useOr) then hit
      else ArrayLoop(useOr, op, probe, arr[1..], sawNull || hit == Null)
  }

  function ScalarArrayOp(useOr: bool, op: EqualOp, probe: Val, arr: seq<Val>): Val {
    if arr == [] then Bool(!useOr)
    else if probe == Null then Null
    else ArrayLoop(useOr, op, probe, arr, false)
  }

  /** x IN (rows): the disjunction of the comparisons. */
  function InRows(x: Val, rows: seq<Val>): Val {
    Or3(seq(|rows|, i requires 0 <= i < |rows| => Eq3(x, rows[i])))
  }

  /** x op ANY (rows). */
  function AnyRows(op: AnyOp, x: Val, rows: seq<Val>, w: World): Val {
    if op.Equality? then InRows(x, rows)
    else Or3(seq(|rows|, i requires 0 <= i < |rows| => w.call(op.f, [x, rows[i]])))
  }

  function JoinTuple(r: Row, rt: nat, t: Tuple): Row
    requires r.Row?
  {
    Row(r.vals + (map a | a in t.vals :: Col(rt, a) := t.vals[a]),
        r.arrs + (map a | a in t.arrs :: Col(rt, a) := t.arrs[a]),
        r.absent)
  }

  function JoinTuples(r: Row, rt: nat, ts: seq<Tuple>): (rows: seq<Row>)
    requires r.Row?
    ensures forall x :: x in rows ==> x.Row?
  {
    if ts == [] then [] else [JoinTuple(r, rt, ts[0])] + JoinTuples(r, rt, ts[1..])
  }

  function ExtendRows(rows: seq<Row>, rt: nat, ts: seq<Tuple>): (r: seq<Row>)
    requires forall x :: x in rows ==> x.Row?
    ensures forall x :: x in r ==> x.Row?
  {
    if rows == [] then [] else JoinTuples(rows[0], rt, ts) + ExtendRows(rows[1..], rt, ts)
  }

  /** The comma join of the FROM items. */
  function Cross(from: seq<FromItem>, db: map<nat, seq<Tuple>>): (r: seq<Row>)
    ensures forall x :: x in r ==> x.Row?
  {
    if from == [] then [Row(map[], map[], {})]
    else
      var item := from[|from| - 1];
      ExtendRows(Cross(from[..|from| - 1], db), item.rt, if item.relid in db then db[item.relid] else [])
  }

  /** The rows whose key is k. */
  function RowsWithKey(rows: seq<Row>, keys: seq<seq<Val>>, k: seq<Val>): (r: seq<Row>)
    requires |rows| == |keys|
  {
    Select(rows, seq(|keys|, i requires 0 <= i < |keys| => keys[i] == k))
  }

  /** One group per distinct key in order of first appearance, NULL keys grouping together. */
  function GroupRows(rows: seq<Row>, keys: seq<seq<Val>>, n: nat): (r: seq<seq<Row>>)
    requires |rows| == |keys| && n <= |keys|
    ensures forall g, x :: g in r && x in g ==> x in rows
  {
    if n == 0 then []
    else
      var rest := GroupRows(rows, keys, n - 1);
      if keys[n - 1] in keys[..n - 1] then rest else rest + [RowsWithKey(rows, keys, keys[n - 1])]
  }

  predicate IsGrouped(q: Query) {
    q.groupBy != [] || q.hasAggs || q.having != []
  }

  function Groups(q: Query, rows: seq<Row>, keys: seq<seq<Val>>): (r: seq<seq<Row>>)
    requires |rows| == |keys|
    ensures forall g, x :: g in r && x in g ==> x in rows
  {
    if q.groupBy == [] then [rows] else GroupRows(rows, keys, |keys|)
  }

  function GroupEnv(g: seq<Row>, params: map<nat, Val>): Env {
    Env(if g == [] then Phantom else g[0], g, params)
  }

  function Eval(e: Expr, w: World, env: Env): Val
    decreases e, 0
  {
    match e
    case Var(c) => Get(env.row, c)
    case Const(v) => v
    case Param(id, multiExpr) =>
      if multiExpr then w.multi(id) else if id in env.params then env.params[id] else Null
    case Call(_, f, args) => w.call(f, EvalAll(args, w, env))
    case And(args) => And3(EvalAll(args, w, env))
    case Or(args) => Or3(EvalAll(args, w, env))
    case Not(arg) => Not3(Eval(arg, w, env))
    case NullTest(isNull, arg) => Bool((Eval(arg, w, env) == Null) == isNull)
    case Relabel(arg) => Eval(arg, w, env)
    case Case(whens, els) => EvalCase(e, 0, w, env)
    case ArrayOp(useOr, op, probe, arr) =>
      var elems := EvalArr(arr, w, env);
      if elems.None? || op == OpNone then Null else ScalarArrayOp(useOr, op, Eval(probe, w, env), elems.value)
    case Aggref(f, arg, filter) =>
      w.aggregate(f, EvalOnRows(arg, if filter.None? then env.group else FilterRows(filter.value, w, env), w, env))
    case SubPlan(link, _, op, lhs, correlated, body) =>
      var rows := Output(body, w, env.params + CorrelatedValues(correlated, |correlated|, w, env));
      var out := if body.deparsable then rows else w.reshape(rows);
      match link
      case Exists => Bool(out != [])
      case Scalar => if out == [] then Null else out[0]
      case Any => AnyRows(op, Eval(lhs, w, env), out, w)
  }

  function EvalAll(es: seq<Expr>, w: World, env: Env): (vs: seq<Val>)
    ensures |vs| == |es|
    decreases es, 0
  {
    seq(|es|, i requires 0 <= i < |es| => Eval(es[i], w, env))
  }

  /** The rows of the group that an aggregate's FILTER keeps. */
  function FilterRows(filter: Expr, w: World, env: Env): seq<Row>
    decreases filter, 2
  {
    Select(env.group, FilterFlags(filter, w, env))
  }

  function FilterFlags(filter: Expr, w: World, env: Env): (flags: seq<bool>)
    ensures |flags| == |env.group|
    decreases filter, 1
  {
    seq(|env.group|, i requires 0 <= i < |env.group| => IsTrue(Eval(filter, w, env.(row := env.group[i]))))
  }

  function EvalOnRows(arg: Expr, rows: seq<Row>, w: World, env: Env): (vs: seq<Val>)
    ensures |vs| == |rows|
    decreases arg, 1
  {
    seq(|rows|, i requires 0 <= i < |rows| => Eval(arg, w, env.(row := rows[i])))
  }

  function EvalCase(e: Expr, k: nat, w: World, env: Env): Val
    requires e.Case? && k <= |e.whens|
    decreases e, 0, |e.whens| - k
  {
    if k == |e.whens| then
      if e.els.Some? then Eval(e.els.value, w, env) else Null
    else if IsTrue(Eval(e.whens[k].cond, w, env)) then Eval(e.whens[k].result, w, env)
    else EvalCase(e, k + 1, w, env)
  }

  /** None is the NULL array, as which PostgreSQL reads the array column of a null-extended row. */
  function EvalArr(a: ArrExpr, w: World, env: Env): Option<seq<Val>>
    decreases a, 0
  {
    match a
    case ArrNull => None
    case ArrConst(elems, _) => Some(elems)
    case ArrList(exprs) => Some(EvalAll(exprs, w, env))
    case ArrCol(c) => if Extended(env.row, c) then None else Some(GetArr(env.row, c))
  }

  /** The executor binds each correlation Param to its outer expression's value. */
  function CorrelatedValues(cs: seq<Correlation>, n: nat, w: World, env: Env): (m: map<nat, Val>)
    requires n <= |cs|
    decreases cs, n
  {
    if n == 0 then map[]
    else
      var c := cs[n - 1];
      assert (cs decreases to c);
      CorrelatedValues(cs, n - 1, w, env)[c.id := Eval(c.arg, w, env)]
  }

  /** The FROM rows that pass the quals. */
  function BodyRows(q: Query, w: World, params: map<nat, Val>): seq<Row>
    decreases q, 0
  {
    var rows := Cross(q.from, w.db);
    Select(rows, seq(|rows|, i requires 0 <= i < |rows| => Holds(q.quals, w, Env(rows[i], [], params))))
  }

  predicate Holds(quals: seq<Expr>, w: World, env: Env)
    decreases quals, 0
  {
    forall k :: 0 <= k < |quals| ==> IsTrue(Eval(quals[k], w, env))
  }

  function GroupKeys(q: Query, rows: seq<Row>, w: World, params: map<nat, Val>): (keys: seq<seq<Val>>)
    ensures |keys| == |rows|
    decreases q, 0
  {
    seq(|rows|, i requires 0 <= i < |rows| =>
      EvalAll(q.groupBy, w, Env(rows[i], [], params)))
  }

  /** The groups that pass HAVING. */
  function KeptGroups(q: Query, w: World, params: map<nat, Val>): seq<seq<Row>>
    decreases q, 1
  {
    var rows := BodyRows(q, w, params);
    var groups := Groups(q, rows, GroupKeys(q, rows, w, params));
    Select(groups, seq(|groups|, i requires 0 <= i < |groups| => Holds(q.having, w, GroupEnv(groups[i], params))))
  }

  /** The values a subquery body returns, row by row. */
  function Output(q: Query, w: World, params: map<nat, Val>): seq<Val>
    decreases q, 2
  {
    if IsGrouped(q) then
      var groups := KeptGroups(q, w, params);
      seq(|groups|, i requires 0 <= i < |groups| => Eval(q.target, w, GroupEnv(groups[i], params)))
    else
      var rows := BodyRows(q, w, params);
      seq(|rows|, i requires 0 <= i < |rows| => Eval(q.target, w, Env(rows[i], [], params)))
  }
}
