/** Filters and joins over rows of named columns, shared by PostgreSQL's plan and ClickHouse's query. */
module Relational {
  import opened Values

  /** A condition on named columns. simpleEq marks an equality of two columns. */
  datatype Clause<K> = Clause(pred: nat, args: seq<K>, simpleEq: bool)

  type Clauses<K> = seq<Clause<K>>

  type Rows<K> = seq<map<K, Val>>

  /** What a condition holds of. */
  type Meaning = (nat, seq<Val>) -> bool

  /** A missing column was null-extended. */
  function Lookup<K>(row: map<K, Val>, k: K): Val {
    if k in row then row[k] else Null
  }

  function Sat<K>(h: Meaning, c: Clause<K>, row: map<K, Val>): bool {
    h(c.pred, seq(|c.args|, i requires 0 <= i < |c.args| => Lookup(row, c.args[i])))
  }

  predicate SatAll<K>(h: Meaning, cs: Clauses<K>, row: map<K, Val>) {
    forall i :: 0 <= i < |cs| ==> Sat(h, cs[i], row)
  }

  function Filter<K>(h: Meaning, cs: Clauses<K>, rows: Rows<K>): Rows<K> {
    if rows == [] then []
    else (if SatAll(h, cs, rows[0]) then [rows[0]] else []) + Filter(h, cs, rows[1..])
  }

  /** extract_join_equals: the equalities, and the rest. */
  function Equalities<K(!new)>(cs: Clauses<K>, simple: bool): (r: Clauses<K>)
    ensures forall c :: c in r <==> c in cs && c.simpleEq == simple
  {
    if cs == [] then []
    else Equalities(cs[..|cs| - 1], simple) + if cs[|cs| - 1].simpleEq == simple then [cs[|cs| - 1]] else []
  }

  datatype JoinType = Inner | Left | Right | Full

  /** The rows of `right` joined to l. */
  function Matches<K>(h: Meaning, l: map<K, Val>, right: Rows<K>, on: Clauses<K>): Rows<K> {
    if right == [] then []
    else (if SatAll(h, on, l + right[0]) then [l + right[0]] else []) + Matches(h, l, right[1..], on)
  }

  /** l joined, or null-extended when nothing matches. */
  function Preserved<K>(h: Meaning, l: map<K, Val>, right: Rows<K>, on: Clauses<K>): Rows<K> {
    var m := Matches(h, l, right, on);
    if m == [] then [l] else m
  }

  function InnerRows<K>(h: Meaning, left: Rows<K>, right: Rows<K>, on: Clauses<K>): Rows<K> {
    if left == [] then [] else Matches(h, left[0], right, on) + InnerRows(h, left[1..], right, on)
  }

  function LeftRows<K>(h: Meaning, left: Rows<K>, right: Rows<K>, on: Clauses<K>): Rows<K> {
    if left == [] then [] else Preserved(h, left[0], right, on) + LeftRows(h, left[1..], right, on)
  }

  /** The rows of `right` that match nothing on the left. */
  function Unmatched<K>(h: Meaning, left: Rows<K>, right: Rows<K>, on: Clauses<K>): Rows<K> {
    if right == [] then []
    else (if Matches(h, right[0], left, on) == [] then [right[0]] else []) + Unmatched(h, left, right[1..], on)
  }

  function JoinRows<K>(h: Meaning, kind: JoinType, left: Rows<K>, right: Rows<K>, on: Clauses<K>): Rows<K> {
    match kind
    case Inner => InnerRows(h, left, right, on)
    case Left => LeftRows(h, left, right, on)
    case Right => LeftRows(h, right, left, on)
    case Full => LeftRows(h, left, right, on) + Unmatched(h, left, right, on)
  }

  /** No column of the clauses belongs to any of the rows, so joining one of them changes nothing. */
  ghost predicate Foreign<K>(cs: Clauses<K>, rows: Rows<K>) {
    forall c, k, r :: c in cs && k in c.args && r in rows ==> k !in r
  }

  lemma {:induction false} SatConcat<K>(h: Meaning, a: Clauses<K>, b: Clauses<K>, row: map<K, Val>)
    ensures SatAll(h, a + b, row) <==> SatAll(h, a, row) && SatAll(h, b, row)
  {
    if SatAll(h, a + b, row) {
      forall i | 0 <= i < |a| ensures Sat(h, a[i], row) {
        assert (a + b)[i] == a[i];
      }
      forall i | 0 <= i < |b| ensures Sat(h, b[i], row) {
        assert (a + b)[|a| + i] == b[i];
      }
    }
  }

  lemma {:induction false} FilterCons<K>(h: Meaning, cs: Clauses<K>, r: map<K, Val>, rest: Rows<K>)
    ensures Filter(h, cs, [r] + rest) == if SatAll(h, cs, r) then [r] + Filter(h, cs, rest) else Filter(h, cs, rest)
  {
    assert ([r] + rest)[1..] == rest;
  }

  lemma {:induction false} MatchesCons<K>(h: Meaning, l: map<K, Val>, r: map<K, Val>, rest: Rows<K>, on: Clauses<K>)
    ensures Matches(h, l, [r] + rest, on) ==
            if SatAll(h, on, l + r) then [l + r] + Matches(h, l, rest, on) else Matches(h, l, rest, on)
  {
    assert ([r] + rest)[1..] == rest;
  }

  lemma {:induction false} InnerCons<K>(h: Meaning, l: map<K, Val>, rest: Rows<K>, right: Rows<K>, on: Clauses<K>)
    ensures InnerRows(h, [l] + rest, right, on) == Matches(h, l, right, on) + InnerRows(h, rest, right, on)
  {
    assert ([l] + rest)[1..] == rest;
  }

  lemma {:induction false} LeftCons<K>(h: Meaning, l: map<K, Val>, rest: Rows<K>, right: Rows<K>, on: Clauses<K>)
    ensures LeftRows(h, [l] + rest, right, on) == Preserved(h, l, right, on) + LeftRows(h, rest, right, on)
  {
    assert ([l] + rest)[1..] == rest;
  }

  lemma {:induction false} Regroup<T>(keep: bool, r: T, x: seq<T>, y: seq<T>)
    ensures (if keep then [r] + (x + y) else x + y) == (if keep then [r] + x else x) + y
  {
    assert [r] + (x + y) == [r] + x + y;
  }

  lemma {:induction false} FilterConcat<K>(h: Meaning, cs: Clauses<K>, a: Rows<K>, b: Rows<K>)
    ensures Filter(h, cs, a + b) == Filter(h, cs, a) + Filter(h, cs, b)
  {
    if a == [] {
      assert a + b == b;
    } else {
      var r, rest := a[0], a[1..];
      FilterConcat(h, cs, rest, b);
      assert a + b == [r] + (rest + b) && a == [r] + rest;
      FilterCons(h, cs, r, rest + b);
      FilterCons(h, cs, r, rest);
      Regroup(SatAll(h, cs, r), r, Filter(h, cs, rest), Filter(h, cs, b));
    }
  }

  lemma {:induction false} FilterTwice<K>(h: Meaning, a: Clauses<K>, b: Clauses<K>, rows: Rows<K>)
    ensures Filter(h, a + b, rows) == Filter(h, b, Filter(h, a, rows))
  {
    if rows != [] {
      SatConcat(h, a, b, rows[0]);
      FilterTwice(h, a, b, rows[1..]);
      FilterConcat(h, b, if SatAll(h, a, rows[0]) then [rows[0]] else [], Filter(h, a, rows[1..]));
    }
  }

  lemma {:induction false} FilterElements<K>(h: Meaning, cs: Clauses<K>, rows: Rows<K>)
    ensures forall r :: r in Filter(h, cs, rows) ==> r in rows
    ensures cs == [] ==> Filter(h, cs, rows) == rows
  {
    if rows != [] {
      FilterElements(h, cs, rows[1..]);
    }
  }

  /** A clause about l's columns holds of l joined to r exactly when it holds of l. */
  lemma {:induction false} SatLeft<K>(h: Meaning, cs: Clauses<K>, l: map<K, Val>, r: map<K, Val>)
    requires forall c, k :: c in cs && k in c.args ==> k !in r
    ensures SatAll(h, cs, l + r) <==> SatAll(h, cs, l)
  {
    forall i | 0 <= i < |cs| ensures Sat(h, cs[i], l + r) == Sat(h, cs[i], l) {
      var c := cs[i];
      assert seq(|c.args|, j requires 0 <= j < |c.args| => Lookup(l + r, c.args[j])) ==
             seq(|c.args|, j requires 0 <= j < |c.args| => Lookup(l, c.args[j]));
    }
  }

  lemma {:induction false} SatRight<K>(h: Meaning, cs: Clauses<K>, l: map<K, Val>, r: map<K, Val>)
    requires forall c, k :: c in cs && k in c.args ==> k !in l
    ensures SatAll(h, cs, l + r) <==> SatAll(h, cs, r)
  {
    forall i | 0 <= i < |cs| ensures Sat(h, cs[i], l + r) == Sat(h, cs[i], r) {
      var c := cs[i];
      assert seq(|c.args|, j requires 0 <= j < |c.args| => Lookup(l + r, c.args[j])) ==
             seq(|c.args|, j requires 0 <= j < |c.args| => Lookup(r, c.args[j]));
    }
  }

  // ---------- INNER: every filter of either side may move to WHERE or ON ----------

  /** One joined pair, before and after. */
  lemma {:induction false} PairPull<K>(h: Meaning, l: map<K, Val>, r: map<K, Val>, ws: Clauses<K>, ons: Clauses<K>,
                                       rs: Clauses<K>, fl: Clauses<K>, fr: Clauses<K>)
    requires Foreign(fl, [r]) && Foreign(fr, [l])
    requires forall c :: c in ws + ons <==> c in rs + fr + fl
    ensures SatAll(h, ws, l + r) && SatAll(h, ons, l + r) <==>
              SatAll(h, rs, l + r) && SatAll(h, fl, l) && SatAll(h, fr, r)
  {
    SatLeft(h, fl, l, r);
    SatRight(h, fr, l, r);
    SatConcat(h, ws, ons, l + r);
    SatConcat(h, rs, fr, l + r);
    SatConcat(h, rs + fr, fl, l + r);
    SameClauses(h, ws + ons, rs + fr + fl, l + r);
  }

  lemma {:induction false} InnerMatchesPull<K>(h: Meaning, l: map<K, Val>, right: Rows<K>, ws: Clauses<K>,
                                               ons: Clauses<K>, rs: Clauses<K>, fl: Clauses<K>, fr: Clauses<K>)
    requires Foreign(fl, right) && Foreign(fr, [l])
    requires forall c :: c in ws + ons <==> c in rs + fr + fl
    ensures Filter(h, ws, Matches(h, l, right, ons)) ==
            if SatAll(h, fl, l) then Filter(h, rs, Matches(h, l, Filter(h, fr, right), [])) else []
  {
    if right != [] {
      var r, rest := right[0], right[1..];
      assert right == [r] + rest && r in right;
      InnerMatchesPull(h, l, rest, ws, ons, rs, fl, fr);
      PairPull(h, l, r, ws, ons, rs, fl, fr);
      MatchesCons(h, l, r, rest, ons);
      FilterCons(h, ws, l + r, Matches(h, l, rest, ons));
      FilterCons(h, fr, r, rest);
      if SatAll(h, fr, r) {
        MatchesCons(h, l, r, Filter(h, fr, rest), []);
        FilterCons(h, rs, l + r, Matches(h, l, Filter(h, fr, rest), []));
      }
    }
  }

  lemma {:induction false} SameClauses<K>(h: Meaning, a: Clauses<K>, b: Clauses<K>, row: map<K, Val>)
    requires forall c :: c in a <==> c in b
    ensures SatAll(h, a, row) <==> SatAll(h, b, row)
  {
    if SatAll(h, a, row) {
      forall i | 0 <= i < |b| ensures Sat(h, b[i], row) {
        assert b[i] in a;
      }
    }
    if SatAll(h, b, row) {
      forall i | 0 <= i < |a| ensures Sat(h, a[i], row) {
        assert a[i] in b;
      }
    }
  }

  lemma {:induction false} InnerPull<K>(h: Meaning, left: Rows<K>, right: Rows<K>, ws: Clauses<K>, ons: Clauses<K>,
                                        rs: Clauses<K>, fl: Clauses<K>, fr: Clauses<K>)
    requires Foreign(fl, right) && Foreign(fr, left)
    requires forall c :: c in ws + ons <==> c in rs + fr + fl
    ensures Filter(h, ws, InnerRows(h, left, right, ons)) ==
            Filter(h, rs, InnerRows(h, Filter(h, fl, left), Filter(h, fr, right), []))
  {
    if left != [] {
      var l, rest := left[0], left[1..];
      assert left == [l] + rest && l in left;
      InnerPull(h, rest, right, ws, ons, rs, fl, fr);
      InnerMatchesPull(h, l, right, ws, ons, rs, fl, fr);
      InnerCons(h, l, rest, right, ons);
      FilterConcat(h, ws, Matches(h, l, right, ons), InnerRows(h, rest, right, ons));
      FilterCons(h, fl, l, rest);
      if SatAll(h, fl, l) {
        InnerCons(h, l, Filter(h, fl, rest), Filter(h, fr, right), []);
        FilterConcat(h, rs, Matches(h, l, Filter(h, fr, right), []),
          InnerRows(h, Filter(h, fl, rest), Filter(h, fr, right), []));
      }
    }
  }

  // ---------- LEFT: the preserved side's filter to WHERE, the other side's to ON ----------

  lemma {:induction false} MatchesPullRight<K>(h: Meaning, l: map<K, Val>, right: Rows<K>, on: Clauses<K>,
                                               fr: Clauses<K>)
    requires Foreign(fr, [l])
    ensures Matches(h, l, right, on + fr) == Matches(h, l, Filter(h, fr, right), on)
  {
    if right != [] {
      var r, rest := right[0], right[1..];
      assert right == [r] + rest;
      MatchesPullRight(h, l, rest, on, fr);
      SatRight(h, fr, l, r);
      SatConcat(h, on, fr, l + r);
      MatchesCons(h, l, r, rest, on + fr);
      FilterCons(h, fr, r, rest);
      if SatAll(h, fr, r) {
        MatchesCons(h, l, r, Filter(h, fr, rest), on);
      }
    }
  }

  lemma {:induction false} MatchesExtend<K>(h: Meaning, l: map<K, Val>, right: Rows<K>, on: Clauses<K>, m: map<K, Val>)
    requires m in Matches(h, l, right, on)
    ensures SatAll(h, on, m) && exists r :: r in right && m == l + r
  {
    if m !in Matches(h, l, right[1..], on) {
      assert m == l + right[0];
    } else {
      MatchesExtend(h, l, right[1..], on, m);
    }
  }

  /** A filter on the preserved row keeps all of its results or none. */
  lemma {:induction false} FilterPreserved<K>(h: Meaning, rows: Rows<K>, rs: Clauses<K>, fl: Clauses<K>, keep: bool)
    requires forall m :: m in rows ==> SatAll(h, fl, m) == keep
    ensures Filter(h, rs + fl, rows) == if keep then Filter(h, rs, rows) else []
  {
    if rows != [] {
      assert rows[0] in rows;
      SatConcat(h, rs, fl, rows[0]);
      FilterPreserved(h, rows[1..], rs, fl, keep);
    }
  }

  lemma {:induction false} PreservedPull<K>(h: Meaning, l: map<K, Val>, right: Rows<K>, on: Clauses<K>,
                                            rs: Clauses<K>, fl: Clauses<K>, fr: Clauses<K>)
    requires Foreign(fl, right) && Foreign(fr, [l])
    ensures Filter(h, rs + fl, Preserved(h, l, right, on + fr)) ==
            if SatAll(h, fl, l) then Filter(h, rs, Preserved(h, l, Filter(h, fr, right), on)) else []
  {
    MatchesPullRight(h, l, right, on, fr);
    var rows := Preserved(h, l, right, on + fr);
    forall m | m in rows ensures SatAll(h, fl, m) == SatAll(h, fl, l) {
      if m in Matches(h, l, right, on + fr) {
        MatchesExtend(h, l, right, on + fr, m);
        var r :| r in right && m == l + r;
        SatLeft(h, fl, l, r);
      }
    }
    FilterPreserved(h, rows, rs, fl, SatAll(h, fl, l));
  }

  lemma {:induction false} LeftPull<K>(h: Meaning, left: Rows<K>, right: Rows<K>, on: Clauses<K>, rs: Clauses<K>,
                                       fl: Clauses<K>, fr: Clauses<K>)
    requires Foreign(fl, right) && Foreign(fr, left)
    ensures Filter(h, rs + fl, LeftRows(h, left, right, on + fr)) ==
            Filter(h, rs, LeftRows(h, Filter(h, fl, left), Filter(h, fr, right), on))
  {
    if left != [] {
      var l, rest := left[0], left[1..];
      assert left == [l] + rest && l in left;
      LeftPull(h, rest, right, on, rs, fl, fr);
      PreservedPull(h, l, right, on, rs, fl, fr);
      LeftCons(h, l, rest, right, on + fr);
      FilterConcat(h, rs + fl, Preserved(h, l, right, on + fr), LeftRows(h, rest, right, on + fr));
      FilterCons(h, fl, l, rest);
      if SatAll(h, fl, l) {
        LeftCons(h, l, Filter(h, fl, rest), Filter(h, fr, right), on);
        FilterConcat(h, rs, Preserved(h, l, Filter(h, fr, right), on),
          LeftRows(h, Filter(h, fl, rest), Filter(h, fr, right), on));
      }
    }
  }

  // ---------- where the columns of a joined row come from ----------

  ghost predicate ColumnsFrom<K>(row: map<K, Val>, left: Rows<K>, right: Rows<K>) {
    forall k :: k in row ==> (exists l :: l in left && k in l) || (exists r :: r in right && k in r)
  }

  lemma {:induction false} LeftKeys<K>(h: Meaning, left: Rows<K>, right: Rows<K>, on: Clauses<K>)
    ensures forall m :: m in InnerRows(h, left, right, on) + LeftRows(h, left, right, on) ==>
            ColumnsFrom(m, left, right)
  {
    if left != [] {
      var l := left[0];
      assert l in left;
      LeftKeys(h, left[1..], right, on);
      forall m | m in Matches(h, l, right, on) ensures ColumnsFrom(m, left, right) {
        MatchesExtend(h, l, right, on, m);
      }
      assert ColumnsFrom(l, left, right);
      forall m | m in InnerRows(h, left[1..], right, on) + LeftRows(h, left[1..], right, on)
        ensures ColumnsFrom(m, left, right) {
        assert ColumnsFrom(m, left[1..], right);
      }
    }
  }

  lemma {:induction false} UnmatchedKeys<K>(h: Meaning, left: Rows<K>, right: Rows<K>, on: Clauses<K>)
    ensures forall m :: m in Unmatched(h, left, right, on) ==> m in right
  {
    if right != [] {
      UnmatchedKeys(h, left, right[1..], on);
    }
  }

  lemma {:induction false} JoinKeys<K>(h: Meaning, kind: JoinType, left: Rows<K>, right: Rows<K>, on: Clauses<K>)
    ensures forall m :: m in JoinRows(h, kind, left, right, on) ==> ColumnsFrom(m, left, right)
  {
    LeftKeys(h, left, right, on);
    LeftKeys(h, right, left, on);
    UnmatchedKeys(h, left, right, on);
    forall m | m in LeftRows(h, right, left, on) ensures ColumnsFrom(m, left, right) {
      assert m in InnerRows(h, right, left, on) + LeftRows(h, right, left, on);
      assert ColumnsFrom(m, right, left);
    }
    forall m | m in InnerRows(h, left, right, on) || m in LeftRows(h, left, right, on)
      ensures ColumnsFrom(m, left, right) {
      assert m in InnerRows(h, left, right, on) + LeftRows(h, left, right, on);
    }
  }

  // ---------- two meanings that agree on the rows at hand ----------

  ghost predicate SameOn<K>(h: Meaning, g: Meaning, cs: Clauses<K>, row: map<K, Val>) {
    SatAll(h, cs, row) <==> SatAll(g, cs, row)
  }

  lemma {:induction false} FilterAgrees<K>(h: Meaning, g: Meaning, cs: Clauses<K>, rows: Rows<K>)
    requires forall r :: r in rows ==> SameOn(h, g, cs, r)
    ensures Filter(h, cs, rows) == Filter(g, cs, rows)
  {
    if rows != [] {
      assert SameOn(h, g, cs, rows[0]);
      FilterAgrees(h, g, cs, rows[1..]);
    }
  }

  lemma {:induction false} MatchesAgree<K>(h: Meaning, g: Meaning, l: map<K, Val>, right: Rows<K>, on: Clauses<K>)
    requires forall r :: r in right ==> SameOn(h, g, on, l + r)
    ensures Matches(h, l, right, on) == Matches(g, l, right, on)
  {
    if right != [] {
      assert right[0] in right && SameOn(h, g, on, l + right[0]);
      MatchesAgree(h, g, l, right[1..], on);
    }
  }

  /** Both ways round, since a right join joins from the other side. */
  ghost predicate SameOnPairs<K>(h: Meaning, g: Meaning, left: Rows<K>, right: Rows<K>, on: Clauses<K>) {
    forall l, r :: l in left && r in right ==> SameOn(h, g, on, l + r) && SameOn(h, g, on, r + l)
  }

  lemma {:induction false} LeftAgrees<K>(h: Meaning, g: Meaning, left: Rows<K>, right: Rows<K>, on: Clauses<K>)
    requires SameOnPairs(h, g, left, right, on)
    ensures InnerRows(h, left, right, on) == InnerRows(g, left, right, on)
    ensures LeftRows(h, left, right, on) == LeftRows(g, left, right, on)
  {
    if left != [] {
      assert left[0] in left;
      MatchesAgree(h, g, left[0], right, on);
      LeftAgrees(h, g, left[1..], right, on);
    }
  }

  lemma {:induction false} UnmatchedAgrees<K>(h: Meaning, g: Meaning, left: Rows<K>, right: Rows<K>, on: Clauses<K>)
    requires SameOnPairs(h, g, left, right, on)
    ensures Unmatched(h, left, right, on) == Unmatched(g, left, right, on)
  {
    if right != [] {
      assert right[0] in right;
      MatchesAgree(h, g, right[0], left, on);
      UnmatchedAgrees(h, g, left, right[1..], on);
    }
  }

  lemma {:induction false} JoinAgrees<K>(h: Meaning, g: Meaning, kind: JoinType, left: Rows<K>, right: Rows<K>,
                                         on: Clauses<K>)
    requires SameOnPairs(h, g, left, right, on)
    ensures JoinRows(h, kind, left, right, on) == JoinRows(g, kind, left, right, on)
  {
    LeftAgrees(h, g, left, right, on);
    LeftAgrees(h, g, right, left, on);
    UnmatchedAgrees(h, g, left, right, on);
  }

  /** Where a row of a join comes from. */
  ghost predicate Joined<K>(kind: JoinType, left: Rows<K>, right: Rows<K>, m: map<K, Val>) {
    (exists l, r :: l in left && r in right && (m == l + r || m == r + l)) ||
    (m in left && (kind == Left || kind == Full)) || (m in right && (kind == Right || kind == Full))
  }

  lemma {:induction false} LeftJoined<K>(h: Meaning, left: Rows<K>, right: Rows<K>, on: Clauses<K>, m: map<K, Val>)
    ensures m in InnerRows(h, left, right, on) ==> exists l, r :: l in left && r in right && m == l + r
    ensures m in LeftRows(h, left, right, on) ==> m in left || exists l, r :: l in left && r in right && m == l + r
  {
    if left != [] {
      LeftJoined(h, left[1..], right, on, m);
      assert left[0] in left;
      if m in Matches(h, left[0], right, on) {
        MatchesExtend(h, left[0], right, on, m);
      }
    }
  }

  lemma {:induction false} JoinCases<K>(h: Meaning, kind: JoinType, left: Rows<K>, right: Rows<K>, on: Clauses<K>,
                                        m: map<K, Val>)
    requires m in JoinRows(h, kind, left, right, on)
    ensures Joined(kind, left, right, m)
  {
    LeftJoined(h, left, right, on, m);
    LeftJoined(h, right, left, on, m);
    UnmatchedKeys(h, left, right, on);
  }
}
