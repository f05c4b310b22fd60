/** Every form that the deparser chooses for x op ANY/ALL (array) and for NOT IN a subquery
    gives PostgreSQL's answer. */
module InFamily {
  import opened Values
  import opened Postgres
  import opened ClickHouse
  import opened Deparser

  /** How many elements decide the loop: the equal ones, or the non-NULL ones that differ. */
  function Deciding(useOr: bool, op: EqualOp, probe: Val, arr: seq<Val>): int {
    if (op == OpEq) == useOr then Count(arr, probe) else |arr| - Count(arr, probe) - Count(arr, Null)
  }

  lemma {:induction false} DecidingBounds(useOr: bool, op: EqualOp, probe: Val, arr: seq<Val>)
    requires probe != Null
    ensures 0 <= Deciding(useOr, op, probe, arr)
    ensures Count(arr, probe) + Count(arr, Null) <= |arr|
  {
    if arr != [] {
      DecidingBounds(useOr, op, probe, arr[1..]);
    }
  }

  /** PostgreSQL's short-circuiting loop, answered by counting. */
  lemma {:induction false} LoopByCounts(useOr: bool, op: EqualOp, probe: Val, arr: seq<Val>, sawNull: bool)
    requires probe != Null && op != OpNone
    ensures ArrayLoop(useOr, op, probe, arr, sawNull) ==
            if Deciding(useOr, op, probe, arr) > 0 then Bool(useOr)
            else if sawNull || Count(arr, Null) > 0 then Null
            else Bool(!useOr)
  {
    if arr != [] {
      var hit := if op == OpEq then Eq3(arr[0], probe) else Not3(Eq3(arr[0], probe));
      DecidingBounds(useOr, op, probe, arr[1..]);
      LoopByCounts(useOr, op, probe, arr[1..], sawNull || hit == Null);
    }
  }

  lemma {:induction false} CountsNothing(arr: seq<Val>, x: Val)
    ensures Count(arr, x) == 0 <==> x !in arr
  {
    if arr != [] {
      CountsNothing(arr[1..], x);
      assert arr == [arr[0]] + arr[1..];
    }
  }

  /** PostgreSQL's whole answer for a probe that can be compared. */
  lemma {:induction false} ScalarByCounts(useOr: bool, op: EqualOp, probe: Val, arr: seq<Val>)
    requires op != OpNone && (probe != Null || arr == [])
    ensures ScalarArrayOp(useOr, op, probe, arr) ==
            if Deciding(useOr, op, probe, arr) > 0 then Bool(useOr)
            else if Count(arr, Null) > 0 then Null
            else Bool(!useOr)
  {
    if arr != [] {
      LoopByCounts(useOr, op, probe, arr, false);
    }
  }

  lemma {:induction false} EvalArith(fn: ArithFn, l: CExpr, r: CExpr, w: World, env: CEnv)
    ensures CEval(CArith(fn, l, r), w, env) == ApplyArith(fn, CEval(l, w, env), CEval(r, w, env))
  {
  }

  lemma {:induction false} EvalArray(fn: ArrayFn, a: CArr, x: CExpr, w: World, env: CEnv)
    ensures CEval(CArray(fn, a, x), w, env) == ApplyArray(fn, CEvalArr(a, w, env), CEval(x, w, env))
  {
  }

  lemma {:induction false} TruthOfPair(a: CExpr, b: CExpr, w: World, env: CEnv)
    ensures IsTrue(CEval(CAnd([a, b]), w, env)) <==> IsTrue(CEval(a, w, env)) && IsTrue(CEval(b, w, env))
  {
    var both := CAnd([a, b]);
    var operands := CEvalAll(both.args, w, env);
    assert CEval(both, w, env) == And3(operands);
    TruthOfAnd(operands);
    assert operands[0] == CEval(a, w, env) && operands[1] == CEval(b, w, env);
  }

  /** The number tested by the second WHEN of the guarded CASE counts the deciding elements. */
  lemma {:induction false} MatchCountDecides(useOr: bool, op: EqualOp, p: CExpr, a: CArr, w: World, env: CEnv)
    requires op != OpNone
    ensures CEval(MatchCount(useOr, op, p, a), w, env) ==
            Num(Deciding(useOr, op, CEval(p, w, env), CEvalArr(a, w, env)))
  {
    var equal, nulls := CArray(CountEqual, a, p), CArray(CountEqual, a, CLit(Null));
    EvalArray(CountEqual, a, p, w, env);
    if (op == OpEq) != useOr {
      EvalArray(CountEqual, a, CLit(Null), w, env);
      EvalArray(Length, a, CLit(Null), w, env);
      EvalArith(Minus, LengthOf(a), equal, w, env);
      EvalArith(Minus, CArith(Minus, LengthOf(a), equal), nulls, w, env);
    }
  }

  /** The guarded CASE by its three tests. */
  lemma {:induction false} GuardedBranches(c: CExpr, w: World, env: CEnv)
    requires c.CCase? && |c.whens| == 3 && c.els.Some?
    ensures CEval(c, w, env) ==
            if IsTrue(CEval(c.whens[0].cond, w, env)) then CEval(c.whens[0].result, w, env)
            else if IsTrue(CEval(c.whens[1].cond, w, env)) then CEval(c.whens[1].result, w, env)
            else if IsTrue(CEval(c.whens[2].cond, w, env)) then CEval(c.whens[2].result, w, env)
            else CEval(c.els.value, w, env)
  {
    assert CEval(c, w, env) == CEvalCase(c, 0, w, env);
    assert CEvalCase(c, 1, w, env) ==
           if IsTrue(CEval(c.whens[1].cond, w, env)) then CEval(c.whens[1].result, w, env)
           else CEvalCase(c, 2, w, env);
    assert CEvalCase(c, 2, w, env) ==
           if IsTrue(CEval(c.whens[2].cond, w, env)) then CEval(c.whens[2].result, w, env)
           else CEvalCase(c, 3, w, env);
  }

  /** What the three tests ask. */
  lemma {:induction false} GuardedTests(useOr: bool, op: EqualOp, p: CExpr, a: CArr, w: World, env: CEnv)
    requires op != OpNone
    ensures IsTrue(CEval(CAnd([CIsNull(true, p), CArray(NotEmpty, a, CLit(Null))]), w, env)) <==>
            CEval(p, w, env) == Null && CEvalArr(a, w, env) != []
    ensures IsTrue(CEval(Positive(MatchCount(useOr, op, p, a)), w, env)) <==>
            Deciding(useOr, op, CEval(p, w, env), CEvalArr(a, w, env)) > 0
    ensures IsTrue(CEval(Positive(CArray(CountEqual, a, CLit(Null))), w, env)) <==>
            Count(CEvalArr(a, w, env), Null) > 0
  {
    TruthOfPair(CIsNull(true, p), CArray(NotEmpty, a, CLit(Null)), w, env);
    EvalArray(NotEmpty, a, CLit(Null), w, env);
    MatchCountDecides(useOr, op, p, a, w, env);
    EvalArith(Less, CLit(Num(0)), MatchCount(useOr, op, p, a), w, env);
    EvalArray(CountEqual, a, CLit(Null), w, env);
    EvalArith(Less, CLit(Num(0)), CArray(CountEqual, a, CLit(Null)), w, env);
  }

  /** The guarded CASE is exact for every probe and every array. */
  lemma {:induction false} GuardedArrayOpExact(useOr: bool, op: EqualOp, p: CExpr, a: CArr, w: World, env: CEnv)
    requires op != OpNone
    ensures CEval(GuardedArrayOp(useOr, op, p, a), w, env) ==
            ScalarArrayOp(useOr, op, CEval(p, w, env), CEvalArr(a, w, env))
  {
    var x, arr := CEval(p, w, env), CEvalArr(a, w, env);
    GuardedBranches(GuardedArrayOp(useOr, op, p, a), w, env);
    GuardedTests(useOr, op, p, a, w, env);
    if x != Null || arr == [] {
      ScalarByCounts(useOr, op, x, arr);
    }
  }

  /** has/countEqual are exact when the array is empty or neither side can be NULL. */
  lemma {:induction false} CheapArrayOpExact(useOr: bool, op: EqualOp, p: CExpr, a: CArr, w: World, env: CEnv)
    requires op != OpNone
    requires CEvalArr(a, w, env) == [] || (CEval(p, w, env) != Null && Null !in CEvalArr(a, w, env))
    ensures CEval(CheapArrayOp(useOr, op, p, a), w, env) ==
            ScalarArrayOp(useOr, op, CEval(p, w, env), CEvalArr(a, w, env))
  {
    var x, arr := CEval(p, w, env), CEvalArr(a, w, env);
    CountsNothing(arr, x);
    CountsNothing(arr, Null);
    ScalarByCounts(useOr, op, x, arr);
    CheapCounts(useOr, op, p, a, w, env);
  }

  /** What the cheap form compares. */
  lemma {:induction false} CheapCounts(useOr: bool, op: EqualOp, p: CExpr, a: CArr, w: World, env: CEnv)
    requires op != OpNone
    ensures var n, size := Count(CEvalArr(a, w, env), CEval(p, w, env)), |CEvalArr(a, w, env)|;
            CEval(CheapArrayOp(useOr, op, p, a), w, env) ==
            Bool(if op == OpEq then (if useOr then n > 0 else n == size) else (if useOr then n < size else n == 0))
  {
    var equal := CArray(CountEqual, a, p);
    EvalArray(CountEqual, a, p, w, env);
    EvalArray(Length, a, CLit(Null), w, env);
    if useOr && op == OpEq {
      EvalArray(Has, a, p, w, env);
      CountsNothing(CEvalArr(a, w, env), CEval(p, w, env));
    } else if useOr {
      EvalArith(Less, equal, LengthOf(a), w, env);
    } else if op == OpEq {
      EvalArith(Equal, equal, LengthOf(a), w, env);
    } else {
      EvalArith(Equal, equal, CLit(Num(0)), w, env);
    }
  }

  /** The native IN of a non-empty list is exact without NULL elements. With them, = ANY is still
      TRUE for the same probes, while a NULL element would wrongly make NOT IN TRUE. */
  lemma {:induction false} NativeInExact(useOr: bool, probe: Val, arr: seq<Val>)
    requires arr != []
    ensures Null !in arr ==>
              SetIn(!useOr, probe, arr) == ScalarArrayOp(useOr, if useOr then OpEq else OpNe, probe, arr)
    ensures IsTrue(SetIn(false, probe, arr)) <==> IsTrue(ScalarArrayOp(true, OpEq, probe, arr))
    ensures Null in arr && probe != Null && probe !in arr ==>
              IsTrue(SetIn(true, probe, arr)) && ScalarArrayOp(false, OpNe, probe, arr) == Null
  {
    CountsNothing(arr, probe);
    CountsNothing(arr, Null);
    if probe != Null {
      LoopByCounts(useOr, if useOr then OpEq else OpNe, probe, arr, false);
      LoopByCounts(true, OpEq, probe, arr, false);
      LoopByCounts(false, OpNe, probe, arr, false);
    }
  }

  /** SQL's IN over a list of rows, in the two ways it can miss. */
  lemma {:induction false} InRowsCases(x: Val, rows: seq<Val>)
    ensures IsTrue(InRows(x, rows)) <==> x != Null && x in rows
    ensures InRows(x, rows) == Bool(false) <==> rows == [] || (x != Null && Null !in rows && x !in rows)
  {
    var vs := seq(|rows|, i requires 0 <= i < |rows| => Eq3(x, rows[i]));
    assert InRows(x, rows) == Or3(vs);
    if x != Null && x in rows {
      var i :| 0 <= i < |rows| && rows[i] == x;
      assert vs[i] == Bool(true);
    }
    if rows != [] && (x == Null || Null in rows) {
      var i :| 0 <= i < |rows| && (x == Null || rows[i] == Null);
      assert vs[i] == Null;
    }
  }

  /** NOT IN with or without its guard against a NULL among the rows. */
  lemma {:induction false} PoisonGuardTruth(p: CExpr, body: CQuery, nulls: CQuery, outputNullable: bool, w: World,
                                            env: CEnv)
    requires !outputNullable ==> Null !in COutput(body, w, env)
    requires Runs(body, w) && Runs(nulls, w) && (COutput(nulls, w, env) != [] <==> Null in COutput(body, w, env))
    ensures var x, out, notIn := CEval(p, w, env), COutput(body, w, env), CInQuery(true, p, body);
            IsTrue(CEval(if outputNullable then CAnd([notIn, CNot(CExists(nulls))]) else notIn, w, env)) <==>
            x != Null && x !in out && Null !in out
  {
    var notIn := CInQuery(true, p, body);
    EvalNotIn(p, body, w, env);
    if outputNullable {
      TruthOfPair(notIn, CNot(CExists(nulls)), w, env);
      EvalNoRows(nulls, w, env);
    }
  }

  lemma {:induction false} EvalNotIn(p: CExpr, body: CQuery, w: World, env: CEnv)
    requires Runs(body, w)
    ensures CEval(CInQuery(true, p, body), w, env) == SetIn(true, CEval(p, w, env), COutput(body, w, env))
  {
  }

  /** NOT IN in all four shapes: dropping a guard is right exactly because that NULL cannot occur. */
  lemma {:induction false} GuardedNotInTruth(p: CExpr, body: CQuery, nulls: CQuery, probeNullable: bool,
                                             outputNullable: bool, w: World, env: CEnv)
    requires !probeNullable ==> CEval(p, w, env) != Null
    requires !outputNullable ==> Null !in COutput(body, w, env)
    requires Runs(body, w) && Runs(nulls, w) && (COutput(nulls, w, env) != [] <==> Null in COutput(body, w, env))
    ensures IsTrue(CEval(GuardedNotIn(p, body, nulls, probeNullable, outputNullable), w, env)) <==>
            IsTrue(Not3(InRows(CEval(p, w, env), COutput(body, w, env))))
  {
    var x, out := CEval(p, w, env), COutput(body, w, env);
    InRowsCases(x, out);
    var notIn := CInQuery(true, p, body);
    var guarded := if outputNullable then CAnd([notIn, CNot(CExists(nulls))]) else notIn;
    PoisonGuardTruth(p, body, nulls, outputNullable, w, env);
    if probeNullable {
      EvalNoRows(body, w, env);
      EvalIfNull(p, CNot(CExists(body)), guarded, w, env);
    }
  }

  lemma {:induction false} EvalNoRows(q: CQuery, w: World, env: CEnv)
    requires Runs(q, w)
    ensures CEval(CNot(CExists(q)), w, env) == Bool(COutput(q, w, env) == [])
  {
  }

  lemma {:induction false} EvalIfNull(p: CExpr, thn: CExpr, els: CExpr, w: World, env: CEnv)
    ensures CEval(CCase([CWhen(CIsNull(true, p), thn)], Some(els)), w, env) ==
            if CEval(p, w, env) == Null then CEval(thn, w, env) else CEval(els, w, env)
  {
    var c := CCase([CWhen(CIsNull(true, p), thn)], Some(els));
    assert CEval(c, w, env) == CEvalCase(c, 0, w, env);
    assert CEvalCase(c, 1, w, env) == CEval(els, w, env);
  }
}
