/** SQL values and the three-valued logic that PostgreSQL and ClickHouse share. */
module Values {

  datatype Option<+T> = None | Some(value: T)

  datatype Val = Null | Bool(b: bool) | Num(n: int) | Text(s: string) | Arr(elems: seq<Val>)

  /** A row qualifies only on TRUE: FALSE and NULL are interchangeable here. */
  predicate IsTrue(v: Val) {
    v == Bool(true)
  }

  function Not3(v: Val): Val {
    match v
    case Bool(b) => Bool(!b)
    case _ => Null
  }

  /** FALSE decides a conjunction, otherwise anything that is not TRUE makes it NULL. */
  function And3(vs: seq<Val>): Val {
    if Bool(false) in vs then Bool(false)
    else if forall i :: 0 <= i < |vs| ==> vs[i] == Bool(true) then Bool(true)
    else Null
  }

  function Or3(vs: seq<Val>): Val {
    if Bool(true) in vs then Bool(true)
    else if forall i :: 0 <= i < |vs| ==> vs[i] == Bool(false) then Bool(false)
    else Null
  }

  /** SQL equality: NULL compared with anything is NULL. */
  function Eq3(a: Val, b: Val): Val {
    if a == Null || b == Null then Null else Bool(a == b)
  }

  lemma {:induction false} TruthOfAnd(vs: seq<Val>)
    ensures IsTrue(And3(vs)) <==> forall i :: 0 <= i < |vs| ==> IsTrue(vs[i])
  {
    if forall i :: 0 <= i < |vs| ==> IsTrue(vs[i]) {
      assert Bool(false) !in vs;
    }
  }

  lemma {:induction false} TruthOfOr(vs: seq<Val>)
    ensures IsTrue(Or3(vs)) <==> exists i :: 0 <= i < |vs| && IsTrue(vs[i])
  {
  }

  /** Number of elements equal to x, NULL matching NULL. */
  function Count(arr: seq<Val>, x: Val): (n: nat)
    ensures n <= |arr|
  {
    if arr == [] then 0 else (if arr[0] == x then 1 else 0) + Count(arr[1..], x)
  }

  /** The elements of s whose flag is set, in order. */
  function Select<T>(s: seq<T>, flags: seq<bool>): (r: seq<T>)
    requires |s| == |flags|
    ensures forall x :: x in r ==> x in s
  {
    if s == [] then [] else (if flags[0] then [s[0]] else []) + Select(s[1..], flags[1..])
  }
}
