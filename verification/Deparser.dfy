/** From PostgreSQL expressions to ClickHouse expressions (src/deparse.c). */
module Deparser {
  import opened Values
  import opened Postgres
  import opened ClickHouse
  import opened Walker

  datatype CArg = CArg(id: nat, expr: CExpr)

  /** Inside a SubPlan body, Params resolve to the outer expressions they stand for. */
  datatype SubScope = Top | In(planId: nat, args: seq<CArg>)

  /** relids are those of the outer scan even inside a SubPlan body, whose columns cols describes. */
  datatype DCtx = DCtx(truth: bool, qualify: bool, relids: set<nat>, cols: Cols, sub: SubScope, cfg: Config)

  function WithTruth(d: DCtx, truth: bool): DCtx {
    d.(truth := truth)
  }

  function AliasOf(d: DCtx): Alias {
    if d.sub.In? then SubAlias(d.sub.planId) else if d.qualify then RelAlias else Bare
  }

  /** A column outside the scan is sent as a parameter. */
  function DeparseVar(c: Col, d: DCtx): CExpr {
    if d.sub.In? || c.rel in d.relids then CCol(AliasOf(d), c) else CBound(c)
  }

  function DeparseArrVar(c: Col, d: DCtx): CArr {
    if d.sub.In? || c.rel in d.relids then CArrCol(AliasOf(d), c) else CArrBound(c)
  }

  /** correlation_arg: the first entry for this Param. */
  function FindArg(args: seq<CArg>, id: nat): Option<CExpr> {
    if args == [] then None else if args[0].id == id then Some(args[0].expr) else FindArg(args[1..], id)
  }

  function DeparseParam(id: nat, d: DCtx): CExpr {
    var found := if d.sub.In? then FindArg(d.sub.args, id) else None;
    if found.Some? then found.value else CParam(id)
  }

  /** The native IN of a non-empty constant list: exact if it holds no NULL, and still right
      for = ANY where NULL and FALSE are the same. */
  predicate NativeInOk(useOr: bool, op: EqualOp, arr: ArrExpr, nulls: ArrayNulls, truth: bool) {
    (nulls == NullFree || (truth && useOr && op == OpEq)) &&
    arr.ArrConst? && arr.elems != [] && ((useOr && op == OpEq) || (!useOr && op == OpNe))
  }

  function LengthOf(arr: CArr): CExpr {
    CArray(Length, arr, CLit(Null))
  }

  /** countEqual(arr, x) > 0 and the like. */
  function Positive(n: CExpr): CExpr {
    CArith(Less, CLit(Num(0)), n)
  }

  function CheapArrayOp(useOr: bool, op: EqualOp, probe: CExpr, arr: CArr): CExpr {
    if useOr && op == OpEq then CArray(Has, arr, probe)
    else if useOr then CArith(Less, CArray(CountEqual, arr, probe), LengthOf(arr))
    else if op == OpEq then CArith(Equal, CArray(CountEqual, arr, probe), LengthOf(arr))
    else CArith(Equal, CArray(CountEqual, arr, probe), CLit(Num(0)))
  }

  /** The number that the second WHEN of the guarded CASE tests. */
  function MatchCount(useOr: bool, op: EqualOp, probe: CExpr, arr: CArr): CExpr {
    var exhaustiveOp := if useOr then OpNe else OpEq;
    var equal := CArray(CountEqual, arr, probe);
    if op != exhaustiveOp then equal
    else CArith(Minus, CArith(Minus, LengthOf(arr), equal), CArray(CountEqual, arr, CLit(Null)))
  }

  function GuardedArrayOp(useOr: bool, op: EqualOp, probe: CExpr, arr: CArr): CExpr {
    CCase([CWhen(CAnd([CIsNull(true, probe), CArray(NotEmpty, arr, CLit(Null))]), CLit(Null)),
           CWhen(Positive(MatchCount(useOr, op, probe, arr)), CLit(Bool(useOr))),
           CWhen(Positive(CArray(CountEqual, arr, CLit(Null))), CLit(Null))],
          Some(CLit(Bool(!useOr))))
  }

  /** An empty array is exact in the cheap form whatever the probe. */
  function ChooseArrayOp(useOr: bool, op: EqualOp, arr: ArrExpr, nulls: ArrayNulls, probeNeverNull: bool, truth: bool,
                         p: CExpr, a: CArr): CExpr
  {
    if NativeInOk(useOr, op, arr, nulls, truth) then CIn(op == OpNe, p, arr.elems)
    else if nulls == Empty || (nulls == NullFree && probeNeverNull) then CheapArrayOp(useOr, op, p, a)
    else GuardedArrayOp(useOr, op, p, a)
  }

  predicate IsNotIn(arg: Expr, d: DCtx) {
    arg.SubPlan? && arg.link == Any && ClassifyNotIn(arg, d.relids, d.cols, d.cfg) == Guarded
  }

  /** The CASE and the poison guard each appear only where a NULL cannot be ruled out. */
  function GuardedNotIn(probe: CExpr, body: CQuery, nullProbe: CQuery, probeNullable: bool,
                        outputNullable: bool): CExpr {
    var notIn := CInQuery(true, probe, body);
    var guarded := if outputNullable then CAnd([notIn, CNot(CExists(nullProbe))]) else notIn;
    if probeNullable then CCase([CWhen(CIsNull(true, probe), CNot(CExists(body)))], Some(guarded)) else guarded
  }

  /** deparseExpr. d.truth is its truth_ctx on entry. */
  function Deparse(e: Expr, d: DCtx): CExpr
    decreases e, 2
  {
    var exact := WithTruth(d, false);
    match e
    case Var(c) => DeparseVar(c, d)
    case Const(v) => CLit(v)
    case Param(id, _) => DeparseParam(id, d)
    case Call(_, f, args) => CCall(f, DeparseAll(args, exact))
    case And(args) => CAnd(DeparseAll(args, d))
    case Or(args) => COr(DeparseAll(args, d))
    case Not(arg) =>
      if IsNotIn(arg, d) then DeparseNotIn(arg, exact) else CNot(Deparse(arg, exact))
    case NullTest(isNull, arg) => CIsNull(isNull, Deparse(arg, exact))
    case Relabel(arg) => Deparse(arg, d)
    case Case(whens, els) =>
      CCase(seq(|whens|, i requires 0 <= i < |whens| =>
              CWhen(DeparseCond(whens[i].cond, d), Deparse(whens[i].result, d))),
            if els.Some? then Some(Deparse(els.value, d)) else None)
    case ArrayOp(useOr, op, probe, arr) =>
      ChooseArrayOp(useOr, op, arr, ArrNulls(arr, d.relids, d.cols, d.cfg), NeverNull(probe, d.relids, d.cols, d.cfg),
                    d.truth, Deparse(probe, exact), DeparseArr(arr, exact))
    case Aggref(f, arg, filter) =>
      CAgg(f, Deparse(arg, exact), if filter.Some? then Some(Deparse(filter.value, WithTruth(d, true))) else None)
    case SubPlan(link, _, _, lhs, _, _) =>
      match link
      case Exists => CExists(DeparseQuery(e, exact, false))
      case Scalar => CScalar(DeparseQuery(e, exact, false))
      case Any => CInQuery(false, Deparse(lhs, exact), DeparseQuery(e, exact, false))
  }

  function DeparseAll(es: seq<Expr>, d: DCtx): (r: seq<CExpr>)
    ensures |r| == |es|
    decreases es, 0
  {
    seq(|es|, i requires 0 <= i < |es| => Deparse(es[i], d))
  }

  /** A WHEN condition takes the same branch for NULL and FALSE; a bare column is compared with 1. */
  function DeparseCond(cond: Expr, d: DCtx): CExpr
    decreases cond, 3
  {
    var c := Deparse(cond, WithTruth(d, true));
    if cond.Var? then CEqOne(c) else c
  }

  function DeparseArr(a: ArrExpr, d: DCtx): CArr
    decreases a, 0
  {
    match a
    case ArrNull => CArrLit([])
    case ArrConst(elems, _) => CArrLit(elems)
    case ArrList(exprs) => CArrList(DeparseAll(exprs, d))
    case ArrCol(c) => DeparseArrVar(c, d)
  }

  function DeparseArgs(cs: seq<Correlation>, d: DCtx): (r: seq<CArg>)
    decreases cs, 0
  {
    seq(|cs|, i requires 0 <= i < |cs| =>
      var c := cs[i];
      assert (cs decreases to c);
      CArg(c.id, Deparse(c.arg, d)))
  }

  function BodyCtx(sp: Expr, d: DCtx): DCtx
    requires sp.SubPlan?
    decreases sp, 0
  {
    DCtx(false, d.qualify, d.relids, BodyCols(sp.body, d.cfg), In(sp.planId, DeparseArgs(sp.correlated, d)), d.cfg)
  }

  /** deparseSubPlanQuery. The null-probe form asks whether some row has a NULL output. EXISTS and
      the null probe select the constant 1 whatever the target list holds. */
  function DeparseQuery(sp: Expr, d: DCtx, nullProbe: bool): CQuery
    requires sp.SubPlan?
    decreases sp, 1
  {
    var q, dq := sp.body, BodyCtx(sp, d);
    var target := Deparse(q.target, dq);
    var constant := nullProbe || sp.link == Exists;
    CQuery(sp.planId, q.from,
           DeparseAll(q.quals, WithTruth(dq, true)) + (if nullProbe then [CIsNull(true, target)] else []),
           DeparseAll(q.groupBy, dq),
           !constant && q.hasAggs,
           DeparseAll(q.having, WithTruth(dq, true)),
           if constant then CLit(Num(1)) else target)
  }

  function DeparseNotIn(sp: Expr, d: DCtx): CExpr
    requires sp.SubPlan?
    decreases sp, 2
  {
    GuardedNotIn(Deparse(sp.lhs, d), DeparseQuery(sp, d, false), DeparseQuery(sp, d, true),
                 !NeverNull(sp.lhs, d.relids, d.cols, d.cfg), !OutputNeverNull(sp, d.cfg))
  }
}
