/** SEMI and ANTI joins at the top of a pushed-down tree: exactly when foreign_join_ok's ON/WHERE split is right. */
module SemiAnti {
  import opened Values
  import opened Relational

  /** LEFT ANTI JOIN: the rows that match nothing. */
  function AntiRows<K(!new)>(h: Meaning, left: Rows<K>, right: Rows<K>, on: Clauses<K>): Rows<K> {
    if left == [] then []
    else (if Matches(h, left[0], right, on) == [] then [left[0]] else []) + AntiRows(h, left[1..], right, on)
  }

  /** The left rows l for which l joined to its first match passes the WHERE clause. */
  function SemiRows<K(!new)>(h: Meaning, left: Rows<K>, right: Rows<K>, on: Clauses<K>, where: Clauses<K>): Rows<K> {
    if left == [] then []
    else
      var m := Matches(h, left[0], right, on);
      (if m != [] && SatAll(h, where, m[0]) then [left[0]] else []) + SemiRows(h, left[1..], right, on, where)
  }

  /** The rows of the pushed-down ANTI join: on its own ON clauses, rest the pushed-down ones, fl and fr the conditions
      of its inputs. */
  function AntiSent<K(!new)>(h: Meaning, left: Rows<K>, right: Rows<K>, on: Clauses<K>, rest: Clauses<K>,
                             fl: Clauses<K>, fr: Clauses<K>): Rows<K>
  {
    Filter(h, Equalities(rest + fl, false), AntiRows(h, left, right, on + fr + Equalities(rest + fl, true)))
  }

  function AntiPlan<K(!new)>(h: Meaning, left: Rows<K>, right: Rows<K>, on: Clauses<K>, rest: Clauses<K>,
                             fl: Clauses<K>, fr: Clauses<K>): Rows<K>
  {
    Filter(h, rest, AntiRows(h, Filter(h, fl, left), Filter(h, fr, right), on))
  }

  /** The ON clauses of the pushed-down SEMI join. */
  function SemiOn<K(!new)>(rs: Clauses<K>, fl: Clauses<K>, fr: Clauses<K>): Clauses<K> {
    fr + Equalities(rs + fl, true)
  }

  function SemiSent<K(!new)>(h: Meaning, left: Rows<K>, right: Rows<K>, rs: Clauses<K>, fl: Clauses<K>, fr: Clauses<K>)
    : Rows<K>
  {
    SemiRows(h, left, right, SemiOn(rs, fl, fr), Equalities(rs + fl, false))
  }

  function SemiPlan<K(!new)>(h: Meaning, left: Rows<K>, right: Rows<K>, rs: Clauses<K>, fl: Clauses<K>, fr: Clauses<K>)
    : Rows<K>
  {
    SemiRows(h, Filter(h, fl, left), Filter(h, fr, right), rs, [])
  }

  /** What the planner knows of the columns: inner is the set of the inner relation's, the rows hold columns of their
      own side, and the inputs' conditions are about their own side. */
  ghost predicate Sides<K(!new)>(inner: iset<K>, left: Rows<K>, right: Rows<K>, fl: Clauses<K>, fr: Clauses<K>) {
    (forall l, k :: l in left && k in l ==> k !in inner) && (forall r, k :: r in right && k in r ==> k in inner) &&
    OwnSides(inner, fl, fr)
  }

  ghost predicate OwnSides<K(!new)>(inner: iset<K>, fl: Clauses<K>, fr: Clauses<K>) {
    (forall c, k :: c in fl && k in c.args ==> k !in inner) && (forall c, k :: c in fr && k in c.args ==> k in inner)
  }

  /** An equality of two columns has two arguments, and its operator is always recognised. */
  ghost predicate Typed<K(!new)>(cs: Clauses<K>) {
    (forall c :: c in cs && c.simpleEq ==> |c.args| == 2) &&
    (forall c, d :: c in cs && d in cs && c.pred == d.pred ==> c.simpleEq == d.simpleEq)
  }

  predicate Equal(vs: seq<Val>) {
    |vs| == 2 && vs[0] != Null && vs[0] == vs[1]
  }

  /** The equalities mean SQL equality; the other operators may mean anything. */
  ghost predicate Sql<K(!new)>(h: Meaning, cs: Clauses<K>) {
    forall c, vs :: c in cs && c.simpleEq ==> h(c.pred, vs) == Equal(vs)
  }

  function ValuesOf<K>(c: Clause<K>, row: map<K, Val>): (vs: seq<Val>)
    ensures |vs| == |c.args| && forall i :: 0 <= i < |vs| ==> vs[i] == Lookup(row, c.args[i])
  {
    seq(|c.args|, i requires 0 <= i < |c.args| => Lookup(row, c.args[i]))
  }

  lemma {:induction false} SatValues<K(!new)>(h: Meaning, c: Clause<K>, row: map<K, Val>)
    ensures Sat(h, c, row) == h(c.pred, ValuesOf(c, row))
  {
    assert ValuesOf(c, row) == seq(|c.args|, i requires 0 <= i < |c.args| => Lookup(row, c.args[i]));
  }

  ghost predicate IsEquality<K(!new)>(cs: Clauses<K>, pred: nat) {
    exists c :: c in cs && c.simpleEq && c.pred == pred
  }

  /** SQL equality for the equalities, and every other operator TRUE, except that pred does not hold of bad. */
  ghost function AllBut<K(!new)>(cs: Clauses<K>, pred: nat, bad: seq<Val>): Meaning {
    (p: nat, vs: seq<Val>) => if IsEquality(cs, p) then Equal(vs) else !(p == pred && vs == bad)
  }

  lemma {:induction false} AllButIsSql<K(!new)>(cs: Clauses<K>, pred: nat, bad: seq<Val>)
    ensures Sql(AllBut(cs, pred, bad), cs)
    ensures Typed(cs) ==> forall c :: c in cs && !c.simpleEq ==> !IsEquality(cs, c.pred)
  {
  }

  lemma {:induction false} SplitAll<K(!new)>(h: Meaning, cs: Clauses<K>, row: map<K, Val>)
    ensures SatAll(h, Equalities(cs, true), row) && SatAll(h, Equalities(cs, false), row) <==> SatAll(h, cs, row)
  {
    SatConcat(h, Equalities(cs, true), Equalities(cs, false), row);
    SameClauses(h, Equalities(cs, true) + Equalities(cs, false), cs, row);
  }

  lemma {:induction false} SplitNone<K(!new)>(cs: Clauses<K>)
    requires forall c :: c in cs ==> !c.simpleEq
    ensures Equalities(cs, true) == [] && Equalities(cs, false) == cs
  {
    if cs != [] {
      var n := |cs| - 1;
      assert cs[n] in cs && cs == cs[..n] + [cs[n]];
      SplitNone(cs[..n]);
    }
  }

  lemma {:induction false} FilterOne<K(!new)>(h: Meaning, cs: Clauses<K>, l: map<K, Val>)
    ensures Filter(h, cs, [l]) == if SatAll(h, cs, l) then [l] else []
  {
    assert [l][1..] == [];
  }

  // ---------- ANTI ----------

  lemma {:induction false} AntiCons<K(!new)>(h: Meaning, l: map<K, Val>, rest: Rows<K>, right: Rows<K>, on: Clauses<K>)
    ensures AntiRows(h, [l] + rest, right, on) ==
            if Matches(h, l, right, on) == [] then [l] + AntiRows(h, rest, right, on) else AntiRows(h, rest, right, on)
  {
    assert ([l] + rest)[1..] == rest;
  }

  lemma {:induction false} AntiPull<K(!new)>(h: Meaning, inner: iset<K>, left: Rows<K>, right: Rows<K>,
                                             on: Clauses<K>, rest: Clauses<K>, fl: Clauses<K>, fr: Clauses<K>)
    requires Sides(inner, left, right, fl, fr)
    ensures Filter(h, rest + fl, AntiRows(h, left, right, on + fr)) == AntiPlan(h, left, right, on, rest, fl, fr)
  {
    if left != [] {
      var l, tail := left[0], left[1..];
      assert l in left && left == [l] + tail && Sides(inner, tail, right, fl, fr);
      AntiPull(h, inner, tail, right, on, rest, fl, fr);
      MatchesPullRight(h, l, right, on, fr);
      SatConcat(h, rest, fl, l);
      AntiCons(h, l, tail, right, on + fr);
      FilterCons(h, rest + fl, l, AntiRows(h, tail, right, on + fr));
      FilterCons(h, fl, l, tail);
      if SatAll(h, fl, l) {
        AntiCons(h, l, Filter(h, fl, tail), Filter(h, fr, right), on);
        FilterCons(h, rest, l, AntiRows(h, Filter(h, fl, tail), Filter(h, fr, right), on));
      }
    }
  }

  /** An ANTI join is pushed down correctly for all data exactly when no condition meant for WHERE is an equality of
      two columns: such a condition is moved into ON, where a row that fails it counts as unmatched and is kept. */
  lemma {:induction false} AntiExactly<K(!new)>(inner: iset<K>, on: Clauses<K>, rest: Clauses<K>,
                                                fl: Clauses<K>, fr: Clauses<K>)
    requires Typed(on + rest + fl + fr) && OwnSides(inner, fl, fr)
    ensures (forall c :: c in rest + fl ==> !c.simpleEq) <==>
            (forall h, left, right :: Sql(h, on + rest + fl + fr) && Sides(inner, left, right, fl, fr) ==>
              AntiSent(h, left, right, on, rest, fl, fr) == AntiPlan(h, left, right, on, rest, fl, fr))
  {
    if forall c :: c in rest + fl ==> !c.simpleEq {
      SplitNone(rest + fl);
      assert on + fr + [] == on + fr;
      forall h, left, right | Sql(h, on + rest + fl + fr) && Sides(inner, left, right, fl, fr)
        ensures AntiSent(h, left, right, on, rest, fl, fr) == AntiPlan(h, left, right, on, rest, fl, fr)
      {
        AntiPull(h, inner, left, right, on, rest, fl, fr);
      }
    } else {
      var c :| c in rest + fl && c.simpleEq;
      var h, left, right := AntiKeepsFailing(inner, on, rest, fl, fr, c);
    }
  }

  /** An outer row of NULLs fails the equality, and is kept. */
  lemma {:induction false} AntiKeepsFailing<K(!new)>(inner: iset<K>, on: Clauses<K>, rest: Clauses<K>, fl: Clauses<K>,
                                                     fr: Clauses<K>, c: Clause<K>)
    returns (h: Meaning, left: Rows<K>, right: Rows<K>)
    requires Typed(on + rest + fl + fr) && OwnSides(inner, fl, fr) && c in rest + fl && c.simpleEq
    ensures Sql(h, on + rest + fl + fr) && Sides(inner, left, right, fl, fr)
    ensures AntiSent(h, left, right, on, rest, fl, fr) != AntiPlan(h, left, right, on, rest, fl, fr)
  {
    var all := on + rest + fl + fr;
    var l: map<K, Val> := map[];
    h, left, right := AllBut(all, c.pred, []), [l], [];
    AllButIsSql(all, c.pred, []);
    assert c in all;
    NullRow(all, c, Equalities(rest + fl, false), l);
    AntiOne(h, l, on + fr + Equalities(rest + fl, true));
    FilterOne(h, Equalities(rest + fl, false), l);
    FilterOne(h, fl, l);
    FilterOne(h, rest, l);
    AntiOne(h, l, on);
    if c in fl {
      assert !SatAll(h, fl, l);
    } else {
      assert c in rest && !SatAll(h, rest, l);
    }
  }

  /** A row of NULLs fails an equality, while operators that hold of everything hold. */
  lemma {:induction false} NullRow<K(!new)>(all: Clauses<K>, c: Clause<K>, where: Clauses<K>, l: map<K, Val>)
    requires Typed(all) && c in all && c.simpleEq && l == map[] && forall d :: d in where ==> d in all && !d.simpleEq
    ensures !Sat(AllBut(all, c.pred, []), c, l) && SatAll(AllBut(all, c.pred, []), where, l)
  {
    var h := AllBut(all, c.pred, []);
    AllButIsSql(all, c.pred, []);
    SatValues(h, c, l);
    assert ValuesOf(c, l)[0] == Null && !Equal(ValuesOf(c, l));
    forall i | 0 <= i < |where| ensures Sat(h, where[i], l) {
      assert where[i] in where;
      SatValues(h, where[i], l);
    }
  }

  lemma {:induction false} AntiOne<K(!new)>(h: Meaning, l: map<K, Val>, on: Clauses<K>)
    ensures AntiRows(h, [l], [], on) == [l] && AntiRows(h, [], [], on) == []
  {
    assert [l][1..] == [];
  }

  // ---------- SEMI: columns linked by the equalities of ON ----------

  /** A representative of the columns that the equalities make equal to k. */
  ghost function Rep<K(!new)>(es: Clauses<K>, k: K): K {
    if es == [] then k
    else
      var init, e := es[..|es| - 1], es[|es| - 1];
      if |e.args| == 2 && Rep(init, k) == Rep(init, e.args[0]) then Rep(init, e.args[1]) else Rep(init, k)
  }

  /** A row that satisfies the equalities holds one value for linked columns. */
  lemma {:induction false} RepSound<K(!new)>(es: Clauses<K>, row: map<K, Val>, k: K)
    requires forall e :: e in es && |e.args| == 2 ==> Lookup(row, e.args[0]) == Lookup(row, e.args[1])
    ensures Lookup(row, k) == Lookup(row, Rep(es, k))
  {
    if es != [] {
      var init, e := es[..|es| - 1], es[|es| - 1];
      assert e in es;
      RepSound(init, row, k);
      if |e.args| == 2 {
        RepSound(init, row, e.args[0]);
        RepSound(init, row, e.args[1]);
      }
    }
  }

  /** The two columns of an equality are linked. */
  lemma {:induction false} RepJoins<K(!new)>(es: Clauses<K>, e: Clause<K>)
    requires e in es && |e.args| == 2
    ensures Rep(es, e.args[0]) == Rep(es, e.args[1])
  {
    var init := es[..|es| - 1];
    if e != es[|es| - 1] {
      assert e in init;
      RepJoins(init, e);
    }
  }

  lemma {:induction false} RepAmong<K(!new)>(es: Clauses<K>, ks: seq<K>, k: K)
    requires k in ks && forall e, x :: e in es && x in e.args ==> x in ks
    ensures Rep(es, k) in ks
  {
    if es != [] {
      var init, e := es[..|es| - 1], es[|es| - 1];
      assert e in es;
      RepAmong(init, ks, k);
      if |e.args| == 2 {
        assert e.args[1] in e.args;
        RepAmong(init, ks, e.args[1]);
      }
    }
  }

  /** k has the value of a column of the outer row. */
  ghost predicate Linked<K(!new)>(es: Clauses<K>, inner: iset<K>, k: K) {
    exists j :: j !in inner && Rep(es, j) == Rep(es, k)
  }

  /** d asks what c asks. */
  ghost predicate Twin<K(!new)>(es: Clauses<K>, c: Clause<K>, d: Clause<K>) {
    d.pred == c.pred && |d.args| == |c.args| && forall i :: 0 <= i < |c.args| ==>
      Rep(es, c.args[i]) == Rep(es, d.args[i])
  }

  /** ON decides c: its columns have values of the outer row, or a condition of the inner relation asks the same. */
  ghost predicate Decided<K(!new)>(es: Clauses<K>, inner: iset<K>, fr: Clauses<K>, c: Clause<K>) {
    (forall k :: k in c.args ==> Linked(es, inner, k)) || exists d :: d in fr && Twin(es, c, d)
  }

  /** All equalities that end up in ON. */
  function Links<K(!new)>(rs: Clauses<K>, fl: Clauses<K>, fr: Clauses<K>): Clauses<K> {
    Equalities(fr + (rs + fl), true)
  }

  ghost predicate AllDecided<K(!new)>(inner: iset<K>, rs: Clauses<K>, fl: Clauses<K>, fr: Clauses<K>) {
    forall c :: c in rs && !c.simpleEq ==> Decided(Links(rs, fl, fr), inner, fr, c)
  }

  // ---------- SEMI: decided conditions may stay in WHERE ----------

  lemma {:induction false} LinksHold<K(!new)>(h: Meaning, rs: Clauses<K>, fl: Clauses<K>, fr: Clauses<K>,
                                              row: map<K, Val>)
    requires Sql(h, fr + (rs + fl)) && SatAll(h, SemiOn(rs, fl, fr), row)
    ensures forall e :: e in Links(rs, fl, fr) && |e.args| == 2 ==> Lookup(row, e.args[0]) == Lookup(row, e.args[1])
  {
    var on := SemiOn(rs, fl, fr);
    forall e | e in Links(rs, fl, fr) && |e.args| == 2 ensures Lookup(row, e.args[0]) == Lookup(row, e.args[1]) {
      assert e in fr + (rs + fl) && e in on;
      var i :| 0 <= i < |on| && on[i] == e;
      SatValues(h, e, row);
      assert Equal(ValuesOf(e, row));
    }
  }

  /** A linked column has the same value in every match of l. */
  lemma {:induction false} LinkedValue<K(!new)>(es: Clauses<K>, inner: iset<K>, l: map<K, Val>, r: map<K, Val>,
                                                q: map<K, Val>, k: K)
    requires Linked(es, inner, k) && (forall x :: x in r || x in q ==> x in inner)
    requires forall e :: e in es && |e.args| == 2 ==> Lookup(l + r, e.args[0]) == Lookup(l + r, e.args[1])
    requires forall e :: e in es && |e.args| == 2 ==> Lookup(l + q, e.args[0]) == Lookup(l + q, e.args[1])
    ensures Lookup(l + r, k) == Lookup(l + q, k)
  {
    var j :| j !in inner && Rep(es, j) == Rep(es, k);
    RepSound(es, l + r, k);
    RepSound(es, l + r, j);
    RepSound(es, l + q, k);
    RepSound(es, l + q, j);
  }

  /** A condition that a match satisfies in ON already. */
  lemma {:induction false} TwinHolds<K(!new)>(h: Meaning, es: Clauses<K>, c: Clause<K>, d: Clause<K>, row: map<K, Val>)
    requires Twin(es, c, d) && Sat(h, d, row)
    requires forall e :: e in es && |e.args| == 2 ==> Lookup(row, e.args[0]) == Lookup(row, e.args[1])
    ensures Sat(h, c, row)
  {
    forall i | 0 <= i < |c.args| ensures Lookup(row, c.args[i]) == Lookup(row, d.args[i]) {
      RepSound(es, row, c.args[i]);
      RepSound(es, row, d.args[i]);
    }
    assert ValuesOf(c, row) == ValuesOf(d, row);
    SatValues(h, c, row);
    SatValues(h, d, row);
  }

  lemma {:induction false} ClauseDecided<K(!new)>(h: Meaning, inner: iset<K>, l: map<K, Val>, r: map<K, Val>,
                                                  q: map<K, Val>,
                                                  rs: Clauses<K>, fl: Clauses<K>, fr: Clauses<K>, c: Clause<K>)
    requires Sides(inner, [l], [r, q], fl, fr) && Sql(h, fr + (rs + fl))
    requires SatAll(h, SemiOn(rs, fl, fr), l + r) && SatAll(h, SemiOn(rs, fl, fr), l + q)
    requires c in fl || Decided(Links(rs, fl, fr), inner, fr, c)
    ensures Sat(h, c, l + r) == Sat(h, c, l + q)
  {
    var es := Links(rs, fl, fr);
    LinksHold(h, rs, fl, fr, l + r);
    LinksHold(h, rs, fl, fr, l + q);
    assert r in [r, q] && q in [r, q];
    if c in fl || forall k :: k in c.args ==> Linked(es, inner, k) {
      forall i | 0 <= i < |c.args| ensures Lookup(l + r, c.args[i]) == Lookup(l + q, c.args[i]) {
        if c !in fl {
          LinkedValue(es, inner, l, r, q, c.args[i]);
        }
      }
      assert ValuesOf(c, l + r) == ValuesOf(c, l + q);
      SatValues(h, c, l + r);
      SatValues(h, c, l + q);
    } else {
      var d :| d in fr && Twin(es, c, d);
      assert d in SemiOn(rs, fl, fr);
      TwinHolds(h, es, c, d, l + r);
      TwinHolds(h, es, c, d, l + q);
    }
  }

  lemma {:induction false} WhereDecided<K(!new)>(h: Meaning, inner: iset<K>, l: map<K, Val>, r: map<K, Val>,
                                                 q: map<K, Val>, rs: Clauses<K>, fl: Clauses<K>, fr: Clauses<K>)
    requires Sides(inner, [l], [r, q], fl, fr) && Sql(h, fr + (rs + fl)) && AllDecided(inner, rs, fl, fr)
    requires SatAll(h, SemiOn(rs, fl, fr), l + r) && SatAll(h, SemiOn(rs, fl, fr), l + q)
    ensures SatAll(h, Equalities(rs + fl, false), l + r) == SatAll(h, Equalities(rs + fl, false), l + q)
  {
    var where := Equalities(rs + fl, false);
    forall i | 0 <= i < |where| ensures Sat(h, where[i], l + r) == Sat(h, where[i], l + q) {
      assert where[i] in rs + fl;
      ClauseDecided(h, inner, l, r, q, rs, fl, fr, where[i]);
    }
  }

  lemma {:induction false} SemiMatch<K(!new)>(h: Meaning, inner: iset<K>, l: map<K, Val>, r: map<K, Val>,
                                              rs: Clauses<K>, fl: Clauses<K>, fr: Clauses<K>)
    requires Sides(inner, [l], [r], fl, fr)
    ensures SatAll(h, SemiOn(rs, fl, fr), l + r) && SatAll(h, Equalities(rs + fl, false), l + r) <==>
            SatAll(h, fr, r) && SatAll(h, rs, l + r) && SatAll(h, fl, l)
  {
    SatConcat(h, fr, Equalities(rs + fl, true), l + r);
    SplitAll(h, rs + fl, l + r);
    SatConcat(h, rs, fl, l + r);
    SatRight(h, fr, l, r);
    SatLeft(h, fl, l, r);
  }

  /** One outer row. */
  lemma {:induction false} SemiPair<K(!new)>(h: Meaning, inner: iset<K>, l: map<K, Val>, right: Rows<K>,
                                             rs: Clauses<K>, fl: Clauses<K>, fr: Clauses<K>)
    requires Sides(inner, [l], right, fl, fr) && Sql(h, fr + (rs + fl)) && AllDecided(inner, rs, fl, fr)
    ensures var m := Matches(h, l, right, SemiOn(rs, fl, fr));
            (m != [] && SatAll(h, Equalities(rs + fl, false), m[0])) <==>
            SatAll(h, fl, l) && Matches(h, l, Filter(h, fr, right), rs) != []
  {
    if right != [] {
      var r, rest, on := right[0], right[1..], SemiOn(rs, fl, fr);
      assert right == [r] + rest && r in right && Sides(inner, [l], rest, fl, fr);
      SemiPair(h, inner, l, rest, rs, fl, fr);
      SemiMatch(h, inner, l, r, rs, fl, fr);
      MatchesCons(h, l, r, rest, on);
      FilterCons(h, fr, r, rest);
      if SatAll(h, fr, r) {
        MatchesCons(h, l, r, Filter(h, fr, rest), rs);
      }
      if SatAll(h, on, l + r) && Matches(h, l, rest, on) != [] {
        var m := Matches(h, l, rest, on)[0];
        MatchesExtend(h, l, rest, on, m);
        var q :| q in rest && m == l + q;
        WhereDecided(h, inner, l, r, q, rs, fl, fr);
      }
    }
  }

  lemma {:induction false} SemiPull<K(!new)>(h: Meaning, inner: iset<K>, left: Rows<K>, right: Rows<K>,
                                             rs: Clauses<K>, fl: Clauses<K>, fr: Clauses<K>)
    requires Sides(inner, left, right, fl, fr) && Sql(h, fr + (rs + fl)) && AllDecided(inner, rs, fl, fr)
    ensures SemiSent(h, left, right, rs, fl, fr) == SemiPlan(h, left, right, rs, fl, fr)
  {
    if left != [] {
      var l, tail := left[0], left[1..];
      assert l in left && left == [l] + tail && Sides(inner, [l], right, fl, fr) && Sides(inner, tail, right, fl, fr);
      SemiPull(h, inner, tail, right, rs, fl, fr);
      SemiPair(h, inner, l, right, rs, fl, fr);
      FilterCons(h, fl, l, tail);
      if SatAll(h, fl, l) {
        assert ([l] + Filter(h, fl, tail))[1..] == Filter(h, fl, tail);
      }
    }
  }

  /** A SEMI join is pushed down correctly for all data exactly when ON decides every condition that stays in WHERE: any
      other is tested on one match instead of on some match. */
  lemma {:induction false} SemiExactly<K(!new)>(inner: iset<K>, rs: Clauses<K>, fl: Clauses<K>, fr: Clauses<K>)
    requires Typed(fr + (rs + fl)) && OwnSides(inner, fl, fr)
    ensures AllDecided(inner, rs, fl, fr) <==>
            (forall h, left, right :: Sql(h, fr + (rs + fl)) && Sides(inner, left, right, fl, fr) ==>
              SemiSent(h, left, right, rs, fl, fr) == SemiPlan(h, left, right, rs, fl, fr))
  {
    if AllDecided(inner, rs, fl, fr) {
      forall h, left, right | Sql(h, fr + (rs + fl)) && Sides(inner, left, right, fl, fr)
        ensures SemiSent(h, left, right, rs, fl, fr) == SemiPlan(h, left, right, rs, fl, fr)
      {
        SemiPull(h, inner, left, right, rs, fl, fr);
      }
    } else {
      var c :| c in rs && !c.simpleEq && !Decided(Links(rs, fl, fr), inner, fr, c);
      var k :| k in c.args && !Linked(Links(rs, fl, fr), inner, k);
      var h, left, right := SemiTestsOneMatch(inner, rs, fl, fr, c, k);
    }
  }

  // ---------- SEMI: an undecided condition gives a counterexample ----------

  /** Every column of the clauses. */
  function Columns<K(!new)>(cs: Clauses<K>): (ks: seq<K>)
    ensures forall c, k :: c in cs && k in c.args ==> k in ks
  {
    if cs == [] then [] else Columns(cs[..|cs| - 1]) + cs[|cs| - 1].args
  }

  ghost function Index<K(!new)>(ks: seq<K>, k: K): (i: nat)
    ensures k in ks ==> i < |ks| && ks[i] == k
  {
    if ks == [] || ks[0] == k then 0 else 1 + Index(ks[1..], k)
  }

  /** Linked columns share a value and others do not; moved gives the columns linked with k a value of their own. */
  ghost function Value<K(!new)>(es: Clauses<K>, ks: seq<K>, k: K, moved: bool, x: K): Val {
    if moved && Rep(es, x) == Rep(es, k) then Num(-1) else Num(Index(ks, Rep(es, x)))
  }

  ghost function OneSide<K(!new)>(es: Clauses<K>, ks: seq<K>, k: K, moved: bool, inner: iset<K>, side: bool)
    : map<K, Val>
  {
    map x | x in ks && (x in inner) == side :: Value(es, ks, k, moved, x)
  }

  /** The row holds these values for all columns of c. */
  ghost predicate Valued<K(!new)>(es: Clauses<K>, ks: seq<K>, k: K, moved: bool, c: Clause<K>, row: map<K, Val>) {
    forall x :: x in c.args ==> Lookup(row, x) == Value(es, ks, k, moved, x)
  }

  /** What the counterexample is built from: all clauses, the equalities of ON, and an unlinked column k of c. */
  ghost predicate Undecided<K(!new)>(all: Clauses<K>, es: Clauses<K>, inner: iset<K>, c: Clause<K>, k: K) {
    Typed(all) && c in all && !c.simpleEq && k in c.args && !Linked(es, inner, k) && es == Equalities(all, true)
  }

  lemma {:induction false} ValuesApart<K(!new)>(all: Clauses<K>, es: Clauses<K>, x: K, y: K)
    requires es == Equalities(all, true) && x in Columns(all) && y in Columns(all)
    ensures Index(Columns(all), Rep(es, x)) == Index(Columns(all), Rep(es, y)) ==> Rep(es, x) == Rep(es, y)
  {
    RepAmong(es, Columns(all), x);
    RepAmong(es, Columns(all), y);
  }

  lemma {:induction false} EqualitiesHold<K(!new)>(all: Clauses<K>, es: Clauses<K>, inner: iset<K>, c: Clause<K>, k: K,
                                                   bad: seq<Val>, moved: bool, d: Clause<K>, row: map<K, Val>)
    requires Undecided(all, es, inner, c, k) && d in all && d.simpleEq
    requires Valued(es, Columns(all), k, moved, d, row)
    ensures Sat(AllBut(all, c.pred, bad), d, row)
  {
    RepJoins(es, d);
    SatValues(AllBut(all, c.pred, bad), d, row);
    AllButIsSql(all, c.pred, bad);
    assert d.args[0] in d.args && d.args[1] in d.args;
  }

  /** With the class of k moved, every clause holds. */
  lemma {:induction false} MovedHolds<K(!new)>(all: Clauses<K>, es: Clauses<K>, inner: iset<K>, c: Clause<K>, k: K,
                                               bad: seq<Val>, d: Clause<K>, row: map<K, Val>)
    requires Undecided(all, es, inner, c, k) && d in all && Valued(es, Columns(all), k, true, d, row)
    requires Num(Index(Columns(all), Rep(es, k))) in bad
    ensures Sat(AllBut(all, c.pred, bad), d, row)
  {
    var h := AllBut(all, c.pred, bad);
    if d.simpleEq {
      EqualitiesHold(all, es, inner, c, k, bad, true, d, row);
    } else {
      SatValues(h, d, row);
      AllButIsSql(all, c.pred, bad);
      var at :| 0 <= at < |bad| && bad[at] == Num(Index(Columns(all), Rep(es, k)));
      if at < |d.args| {
        var x := d.args[at];
        assert x in d.args;
        ValuesApart(all, es, x, k);
      }
      assert ValuesOf(d, row) != bad;
    }
  }

  /** Before the move only the twins of c fail. */
  lemma {:induction false} UnmovedHolds<K(!new)>(all: Clauses<K>, es: Clauses<K>, inner: iset<K>, c: Clause<K>, k: K,
                                                 d: Clause<K>, row: map<K, Val>, base: map<K, Val>)
    requires Undecided(all, es, inner, c, k) && d in all && Valued(es, Columns(all), k, false, d, row)
    requires Valued(es, Columns(all), k, false, c, base)
    ensures Sat(AllBut(all, c.pred, ValuesOf(c, base)), d, row) || Twin(es, c, d)
  {
    var bad := ValuesOf(c, base);
    var h := AllBut(all, c.pred, bad);
    if d.simpleEq {
      EqualitiesHold(all, es, inner, c, k, bad, false, d, row);
    } else {
      SatValues(h, d, row);
      AllButIsSql(all, c.pred, bad);
      if ValuesOf(d, row) == bad && d.pred == c.pred {
        forall i | 0 <= i < |c.args| ensures Rep(es, c.args[i]) == Rep(es, d.args[i]) {
          assert c.args[i] in c.args && d.args[i] in d.args;
          assert ValuesOf(d, row)[i] == bad[i];
          ValuesApart(all, es, c.args[i], d.args[i]);
        }
      }
    }
  }

  /** An outer row and two inner rows that differ only in the columns linked with k. */
  lemma {:induction false} TwoRows<K(!new)>(es: Clauses<K>, ks: seq<K>, k: K, moved: bool, inner: iset<K>, d: Clause<K>)
    requires !Linked(es, inner, k) && forall x :: x in d.args ==> x in ks
    ensures var l, r := OneSide(es, ks, k, false, inner, false), OneSide(es, ks, k, moved, inner, true);
            Valued(es, ks, k, moved, d, l + r) &&
            ((forall x :: x in d.args ==> x !in inner) ==> Valued(es, ks, k, moved, d, l)) &&
            ((forall x :: x in d.args ==> x in inner) ==> Valued(es, ks, k, moved, d, r))
  {
    forall x | x !in inner ensures Value(es, ks, k, moved, x) == Value(es, ks, k, false, x) {
      assert Rep(es, x) != Rep(es, k);
    }
  }

  lemma {:induction false} SemiTestsOneMatch<K(!new)>(inner: iset<K>, rs: Clauses<K>, fl: Clauses<K>, fr: Clauses<K>,
                                                      c: Clause<K>, k: K)
    returns (h: Meaning, left: Rows<K>, right: Rows<K>)
    requires Typed(fr + (rs + fl)) && OwnSides(inner, fl, fr) && c in rs && !c.simpleEq && k in c.args
    requires !Linked(Links(rs, fl, fr), inner, k) && forall d :: d in fr ==> !Twin(Links(rs, fl, fr), c, d)
    ensures Sql(h, fr + (rs + fl)) && Sides(inner, left, right, fl, fr)
    ensures SemiSent(h, left, right, rs, fl, fr) != SemiPlan(h, left, right, rs, fl, fr)
  {
    var all, es := fr + (rs + fl), Links(rs, fl, fr);
    var ks := Columns(all);
    var l := OneSide(es, ks, k, false, inner, false);
    var r0, r1 := OneSide(es, ks, k, false, inner, true), OneSide(es, ks, k, true, inner, true);
    assert c in all && Undecided(all, es, inner, c, k);
    var bad := ValuesOf(c, l + r0);
    h, left, right := AllBut(all, c.pred, bad), [l], [r0, r1];
    AllButIsSql(all, c.pred, bad);
    TwoRows(es, ks, k, false, inner, c);
    BadMentions(es, ks, k, c, l + r0);
    assert !Sat(h, c, l + r0) by {
      SatValues(h, c, l + r0);
    }
    OnHolds(inner, rs, fl, fr, c, k);
    MovedSides(inner, rs, fl, fr, c, k, bad);
    FirstMatchFails(h, l, r0, r1, rs, fl, fr, c);
    SomeMatchHolds(h, l, r0, r1, rs, fl, fr);
  }

  lemma {:induction false} BadMentions<K(!new)>(es: Clauses<K>, ks: seq<K>, k: K, c: Clause<K>, row: map<K, Val>)
    requires k in c.args && Valued(es, ks, k, false, c, row)
    ensures Num(Index(ks, Rep(es, k))) in ValuesOf(c, row)
  {
    var i :| 0 <= i < |c.args| && c.args[i] == k;
    assert ValuesOf(c, row)[i] == Num(Index(ks, Rep(es, k)));
  }

  /** ON holds of the unmoved pair, since no condition of the inner relation is a twin of c. */
  lemma {:induction false} OnHolds<K(!new)>(inner: iset<K>, rs: Clauses<K>, fl: Clauses<K>, fr: Clauses<K>,
                                            c: Clause<K>, k: K)
    requires OwnSides(inner, fl, fr) && c in rs && forall d :: d in fr ==> !Twin(Links(rs, fl, fr), c, d)
    requires Undecided(fr + (rs + fl), Links(rs, fl, fr), inner, c, k)
    ensures var all, es := fr + (rs + fl), Links(rs, fl, fr);
            var l, r := OneSide(es, Columns(all), k, false, inner, false),
              OneSide(es, Columns(all), k, false, inner, true);
            SatAll(AllBut(all, c.pred, ValuesOf(c, l + r)), SemiOn(rs, fl, fr), l + r)
  {
    var all, es := fr + (rs + fl), Links(rs, fl, fr);
    var ks, on := Columns(all), SemiOn(rs, fl, fr);
    var l, r := OneSide(es, ks, k, false, inner, false), OneSide(es, ks, k, false, inner, true);
    TwoRows(es, ks, k, false, inner, c);
    forall i | 0 <= i < |on| ensures Sat(AllBut(all, c.pred, ValuesOf(c, l + r)), on[i], l + r) {
      var d := on[i];
      assert d in fr || d in Equalities(rs + fl, true);
      assert d in all;
      TwoRows(es, ks, k, false, inner, d);
      if d.simpleEq {
        EqualitiesHold(all, es, inner, c, k, ValuesOf(c, l + r), false, d, l + r);
      } else {
        UnmovedHolds(all, es, inner, c, k, d, l + r, l + r);
      }
    }
  }

  /** The moved inner row satisfies everything with l. */
  lemma {:induction false} MovedSides<K(!new)>(inner: iset<K>, rs: Clauses<K>, fl: Clauses<K>, fr: Clauses<K>,
                                               c: Clause<K>, k: K, bad: seq<Val>)
    requires OwnSides(inner, fl, fr) && Undecided(fr + (rs + fl), Links(rs, fl, fr), inner, c, k)
    requires Num(Index(Columns(fr + (rs + fl)), Rep(Links(rs, fl, fr), k))) in bad
    ensures var all, es := fr + (rs + fl), Links(rs, fl, fr);
            var l := OneSide(es, Columns(all), k, false, inner, false);
            var r := OneSide(es, Columns(all), k, true, inner, true);
            var h := AllBut(all, c.pred, bad);
            SatAll(h, fl, l) && SatAll(h, fr, r) && SatAll(h, rs, l + r)
  {
    var all, es := fr + (rs + fl), Links(rs, fl, fr);
    var ks, h := Columns(all), AllBut(all, c.pred, bad);
    var l, r := OneSide(es, ks, k, false, inner, false), OneSide(es, ks, k, true, inner, true);
    forall i | 0 <= i < |fl| ensures Sat(h, fl[i], l) {
      assert fl[i] in all;
      TwoRows(es, ks, k, true, inner, fl[i]);
      MovedHolds(all, es, inner, c, k, bad, fl[i], l);
    }
    forall i | 0 <= i < |fr| ensures Sat(h, fr[i], r) {
      assert fr[i] in all;
      TwoRows(es, ks, k, true, inner, fr[i]);
      MovedHolds(all, es, inner, c, k, bad, fr[i], r);
    }
    forall i | 0 <= i < |rs| ensures Sat(h, rs[i], l + r) {
      assert rs[i] in all;
      TwoRows(es, ks, k, true, inner, rs[i]);
      MovedHolds(all, es, inner, c, k, bad, rs[i], l + r);
    }
  }

  lemma {:induction false} FirstMatchFails<K(!new)>(h: Meaning, l: map<K, Val>, r0: map<K, Val>, r1: map<K, Val>,
                                                    rs: Clauses<K>, fl: Clauses<K>, fr: Clauses<K>, c: Clause<K>)
    requires c in rs && !c.simpleEq && !Sat(h, c, l + r0) && SatAll(h, SemiOn(rs, fl, fr), l + r0)
    ensures SemiSent(h, [l], [r0, r1], rs, fl, fr) == []
  {
    var on, where := SemiOn(rs, fl, fr), Equalities(rs + fl, false);
    assert [r0, r1] == [r0] + [r1];
    MatchesCons(h, l, r0, [r1], on);
    assert c in where;
    assert !SatAll(h, where, l + r0);
    SemiOne(h, l, [r0, r1], on, where);
  }

  lemma {:induction false} SemiOne<K(!new)>(h: Meaning, l: map<K, Val>, right: Rows<K>, on: Clauses<K>,
                                            where: Clauses<K>)
    ensures var m := Matches(h, l, right, on);
            SemiRows(h, [l], right, on, where) == if m != [] && SatAll(h, where, m[0]) then [l] else []
  {
    assert [l][1..] == [];
  }

  lemma {:induction false} SomeMatchHolds<K(!new)>(h: Meaning, l: map<K, Val>, r0: map<K, Val>, r1: map<K, Val>,
                                                   rs: Clauses<K>, fl: Clauses<K>, fr: Clauses<K>)
    requires SatAll(h, fl, l) && SatAll(h, fr, r1) && SatAll(h, rs, l + r1)
    ensures SemiPlan(h, [l], [r0, r1], rs, fl, fr) == [l]
  {
    FilterOne(h, fl, l);
    FilterOne(h, fr, r1);
    assert [r0, r1] == [r0] + [r1] && [r1] == [r1] + [];
    FilterCons(h, fr, r0, [r1]);
    MatchesCons(h, l, r1, [], rs);
    MatchesCons(h, l, r0, [r1], rs);
    SemiOne(h, l, Filter(h, fr, [r0, r1]), rs, []);
  }
}
