/** SEMI joins over whole join trees, and ANTI joins, as the top relation of a pushed-down query. */
module SemiTree {
  import opened Relational
  import opened Joins
  import opened JoinFlattening
  import opened SemiAnti

  // ---------- names keep what makes a condition decided ----------

  lemma {:induction false} EqualitiesSnoc<K(!new)>(cs: Clauses<K>, c: Clause<K>, simple: bool)
    ensures Equalities(cs + [c], simple) ==
            if c.simpleEq == simple then Equalities(cs, simple) + [c] else Equalities(cs, simple)
  {
    assert (cs + [c])[..|cs|] == cs;
  }

  lemma {:induction false} NamedSnoc(t: Rel, cs: Clauses<Ref>, c: Clause<Ref>)
    ensures NameAll(t, cs + [c]) == NameAll(t, cs) + [NameClause(t, c)]
  {
  }

  lemma {:induction false} NamedEqualities(t: Rel, cs: Clauses<Ref>, simple: bool)
    ensures Equalities(NameAll(t, cs), simple) == NameAll(t, Equalities(cs, simple))
  {
    if cs != [] {
      var init, c := cs[..|cs| - 1], cs[|cs| - 1];
      assert cs == init + [c];
      NamedEqualities(t, init, simple);
      NamedSnoc(t, init, c);
      EqualitiesSnoc(init, c, simple);
      EqualitiesSnoc(NameAll(t, init), NameClause(t, c), simple);
      NamedSnoc(t, Equalities(init, simple), c);
    }
  }

  lemma {:induction false} NamedMember(t: Rel, cs: Clauses<Ref>, n: Clause<Name>)
    requires n in NameAll(t, cs)
    ensures exists c :: c in cs && NameClause(t, c) == n
  {
    var i :| 0 <= i < |cs| && NameAll(t, cs)[i] == n;
    assert cs[i] in cs;
  }

  lemma {:induction false} MemberNamed(t: Rel, cs: Clauses<Ref>, c: Clause<Ref>)
    requires c in cs
    ensures NameClause(t, c) in NameAll(t, cs)
  {
    var i :| 0 <= i < |cs| && cs[i] == c;
    assert NameAll(t, cs)[i] == NameClause(t, c);
  }

  /** Linked references have linked names. */
  lemma {:induction false} NamedRep(t: Rel, es: Clauses<Ref>, all: Clauses<Ref>, k: Ref)
    requires forall e :: e in es ==> e in all
    ensures SemiAnti.Rep(NameAll(t, all), NameAt(t, k)) == SemiAnti.Rep(NameAll(t, all), NameAt(t, SemiAnti.Rep(es, k)))
  {
    if es != [] {
      var init, e := es[..|es| - 1], es[|es| - 1];
      assert e in es;
      NamedRep(t, init, all, k);
      if |e.args| == 2 {
        NamedRep(t, init, all, e.args[0]);
        NamedRep(t, init, all, e.args[1]);
        MemberNamed(t, all, e);
        RepJoins(NameAll(t, all), NameClause(t, e));
      }
    }
  }

  /** A reference outside the equalities is linked to itself only. */
  lemma {:induction false} RepOutside(es: Clauses<Ref>, j: Ref)
    requires forall e :: e in es ==> j !in e.args
    ensures SemiAnti.Rep(es, j) == j
    ensures forall k :: k != j ==> SemiAnti.Rep(es, k) != j
  {
    if es != [] {
      var init, e := es[..|es| - 1], es[|es| - 1];
      assert e in es;
      RepOutside(init, j);
    }
  }

  ghost function InnerRefs(t: Rel): iset<Ref>
    requires t.Join?
  {
    iset v: Ref | v.v.rel in Relids(t.inner)
  }

  ghost function InnerNames(t: Rel): iset<Name>
    requires t.Join?
  {
    iset n: Name | NameIn(t.inner, n)
  }

  lemma {:induction false} NamedSide(t: Rel, v: Ref)
    requires WellFormed(t) && t.Join? && Nameable(t, v)
    ensures NameAt(t, v) in InnerNames(t) <==> v in InnerRefs(t)
  {
    NameFromSide(t, v);
  }

  lemma {:induction false} NamedLinked(t: Rel, es: Clauses<Ref>, k: Ref)
    requires WellFormed(t) && t.Join? && AllNameable(t, es) && Nameable(t, k) && Linked(es, InnerRefs(t), k)
    ensures Linked(NameAll(t, es), InnerNames(t), NameAt(t, k))
  {
    var j :| j !in InnerRefs(t) && SemiAnti.Rep(es, j) == SemiAnti.Rep(es, k);
    if j != k && forall e :: e in es ==> j !in e.args {
      RepOutside(es, j);
    }
    assert Nameable(t, j);
    NamedSide(t, j);
    NamedRep(t, es, es, j);
    NamedRep(t, es, es, k);
  }

  lemma {:induction false} NamedTwin(t: Rel, es: Clauses<Ref>, c: Clause<Ref>, d: Clause<Ref>)
    requires Twin(es, c, d)
    ensures Twin(NameAll(t, es), NameClause(t, c), NameClause(t, d))
  {
    forall i | 0 <= i < |c.args|
      ensures SemiAnti.Rep(NameAll(t, es), NameAt(t, c.args[i])) == SemiAnti.Rep(NameAll(t, es), NameAt(t, d.args[i]))
    {
      NamedRep(t, es, es, c.args[i]);
      NamedRep(t, es, es, d.args[i]);
    }
  }

  lemma {:induction false} NamedDecided(t: Rel, es: Clauses<Ref>, fr: Clauses<Ref>, c: Clause<Ref>)
    requires WellFormed(t) && t.Join? && AllNameable(t, es) && AllNameable(t, [c])
    requires Decided(es, InnerRefs(t), fr, c)
    ensures Decided(NameAll(t, es), InnerNames(t), NameAll(t, fr), NameClause(t, c))
  {
    if d :| d in fr && Twin(es, c, d) {
      NamedTwin(t, es, c, d);
      MemberNamed(t, fr, d);
    } else {
      var n := NameClause(t, c);
      forall k | k in n.args ensures Linked(NameAll(t, es), InnerNames(t), k) {
        var i :| 0 <= i < |n.args| && n.args[i] == k;
        assert c.args[i] in c.args && c in [c];
        NamedLinked(t, es, c.args[i]);
      }
    }
  }

  // ---------- SEMI ----------

  /** A SEMI join is named like an inner join of the same inputs: neither input is wrapped. rs are its conditions. */
  function Own(t: Rel): Clauses<Ref>
    requires t.Join?
  {
    RestClauses(t.kind, t.restrict, true)
  }

  /** The query that is sent: FROM outer LEFT SEMI JOIN inner ON .. WHERE .. */
  function SemiSentRows(t: Rel, h: Meaning, db: Db): Rows<Name>
    requires t.Join?
  {
    var rs, fl, fr := Own(t), InfoOf(t.outer).remote, InfoOf(t.inner).remote;
    SemiRows(h, EvalFrom(FromOf(t.outer), h, db), EvalFrom(FromOf(t.inner), h, db),
             NameAll(t, SemiOn(rs, fl, fr)), NameAll(t, Equalities(rs + fl, false)))
  }

  /** PostgreSQL's plan: the outer rows that some inner row matches. */
  function SemiPlanRows(t: Rel, h: Meaning, db: Db): Rows<Var>
    requires t.Join?
  {
    SemiRows(h, PlanRemote(t.outer, h, db), PlanRemote(t.inner, h, db), PlainAll(Own(t)), [])
  }

  lemma {:induction false} SentIsNamed(t: Rel, h: Meaning, db: Db)
    requires t.Join?
    ensures var rs, fl, fr := Own(t), InfoOf(t.outer).remote, InfoOf(t.inner).remote;
            SemiSentRows(t, h, db) ==
            SemiSent(h, EvalFrom(FromOf(t.outer), h, db), EvalFrom(FromOf(t.inner), h, db),
                     NameAll(t, rs), NameAll(t, fl), NameAll(t, fr))
  {
    var rs, fl, fr := Own(t), InfoOf(t.outer).remote, InfoOf(t.inner).remote;
    NamesConcat(t, rs, fl);
    NamedEqualities(t, rs + fl, true);
    NamedEqualities(t, rs + fl, false);
    NamesConcat(t, fr, Equalities(rs + fl, true));
  }

  lemma {:induction false} NamedSql(t: Rel, h: Meaning, cs: Clauses<Ref>)
    requires Sql(h, cs)
    ensures Sql(h, NameAll(t, cs))
  {
    forall n, vs | n in NameAll(t, cs) && n.simpleEq ensures h(n.pred, vs) == Equal(vs) {
      NamedMember(t, cs, n);
      var c :| c in cs && NameClause(t, c) == n;
      assert h(c.pred, vs) == Equal(vs);
    }
  }

  /** All the conditions of a SEMI join are found. */
  lemma {:induction false} AllFound(t: Rel)
    requires WellFormed(t) && t.Join? && t.kind == Inner && FoundBody(t)
    ensures AllNameable(t, Own(t)) && AllNameable(t, InfoOf(t.outer).remote) && AllNameable(t, InfoOf(t.inner).remote)
  {
    var f := InfoOf(t);
    var all := Own(t) + InfoOf(t.inner).remote + InfoOf(t.outer).remote;
    assert forall c :: c in all ==> c in f.remote || c in f.joinclauses;
    assert forall c :: c in Own(t) || c in InfoOf(t.outer).remote || c in InfoOf(t.inner).remote ==> c in all;
  }

  lemma {:induction false} NamedSides(t: Rel, h: Meaning, db: Db)
    requires WellFormed(t) && t.Join? && DbOk(db)
    requires AllNameable(t, InfoOf(t.outer).remote) && AllNameable(t, InfoOf(t.inner).remote)
    ensures Sides(InnerNames(t), EvalFrom(FromOf(t.outer), h, db), EvalFrom(FromOf(t.inner), h, db),
                  NameAll(t, InfoOf(t.outer).remote), NameAll(t, InfoOf(t.inner).remote))
  {
    FromKeys(t.outer, false, h, db);
    FromKeys(t.inner, false, h, db);
    forall l, k | l in EvalFrom(FromOf(t.outer), h, db) && k in l ensures k !in InnerNames(t) {
      assert NameIn(t.outer, k);
    }
    NamedOwnSides(t);
  }

  lemma {:induction false} NamedOwnSides(t: Rel)
    requires WellFormed(t) && t.Join?
    requires AllNameable(t, InfoOf(t.outer).remote) && AllNameable(t, InfoOf(t.inner).remote)
    ensures OwnSides(InnerNames(t), NameAll(t, InfoOf(t.outer).remote), NameAll(t, InfoOf(t.inner).remote))
  {
    RemoteRels(t.outer);
    RemoteRels(t.inner);
    forall outer, n, k | n in NameAll(t, InfoOf(Side(t, outer)).remote) && k in n.args
      ensures k in InnerNames(t) <==> !outer
    {
      NamedMember(t, InfoOf(Side(t, outer)).remote, n);
      var c :| c in InfoOf(Side(t, outer)).remote && NameClause(t, c) == n;
      var i :| 0 <= i < |n.args| && n.args[i] == k;
      assert c.args[i] in c.args;
      NamedSide(t, c.args[i]);
    }
    assert Side(t, true) == t.outer && Side(t, false) == t.inner;
  }

  lemma {:induction false} NamedAllDecided(t: Rel)
    requires WellFormed(t) && t.Join? && AllNameable(t, Own(t))
    requires AllNameable(t, InfoOf(t.outer).remote) && AllNameable(t, InfoOf(t.inner).remote)
    requires AllDecided(InnerRefs(t), Own(t), InfoOf(t.outer).remote, InfoOf(t.inner).remote)
    ensures AllDecided(InnerNames(t), NameAll(t, Own(t)), NameAll(t, InfoOf(t.outer).remote),
                       NameAll(t, InfoOf(t.inner).remote))
  {
    var rs, fl, fr := Own(t), InfoOf(t.outer).remote, InfoOf(t.inner).remote;
    var es := Links(rs, fl, fr);
    NamedLinks(t, rs, fl, fr);
    forall n | n in NameAll(t, rs) && !n.simpleEq
      ensures Decided(NameAll(t, es), InnerNames(t), NameAll(t, fr), n)
    {
      NamedMember(t, rs, n);
      var c :| c in rs && NameClause(t, c) == n;
      NamedDecided(t, es, fr, c);
    }
  }

  lemma {:induction false} NamedLinks(t: Rel, rs: Clauses<Ref>, fl: Clauses<Ref>, fr: Clauses<Ref>)
    ensures Links(NameAll(t, rs), NameAll(t, fl), NameAll(t, fr)) == NameAll(t, Links(rs, fl, fr))
  {
    NamesConcat(t, rs, fl);
    NamesConcat(t, fr, rs + fl);
    NamedEqualities(t, fr + (rs + fl), true);
  }

  /** The outer rows kept, row by row. */
  lemma {:induction false} SemiRep(t: Rel, h: Meaning, ls: Rows<Var>, cls: Rows<Name>, ps: Rows<Var>, cs: Rows<Name>,
                                   on: Clauses<Ref>)
    requires WellFormed(t) && t.Join? && !SideWrapped(t, true) && AllNameable(t, on)
    requires SideRepAll(t, true, ls, cls) && SideRepAll(t, false, ps, cs)
    ensures RepAll(t.outer, false, SemiRows(h, ls, ps, PlainAll(on), []), SemiRows(h, cls, cs, NameAll(t, on), []))
  {
    if ls != [] {
      MatchesRep(t, true, h, ls[0], cls[0], ps, cs, on);
      SemiRep(t, h, ls[1..], cls[1..], ps, cs, on);
    }
  }

  /** A SEMI join over any two join trees, with every condition that stays in WHERE decided by ON and every reference
      found, returns the outer rows of PostgreSQL's plan, in order. */
  lemma {:induction false} SemiPushdown(t: Rel, h: Meaning, db: Db)
    requires WellFormed(t) && t.Join? && t.kind == Inner && FoundBody(t) && DbOk(db)
    requires var rs, fl, fr := Own(t), InfoOf(t.outer).remote, InfoOf(t.inner).remote;
             Sql(h, fr + (rs + fl)) && AllDecided(InnerRefs(t), rs, fl, fr)
    ensures RepAll(t.outer, false, SemiPlanRows(t, h, db), SemiSentRows(t, h, db))
  {
    var rs, fl, fr := Own(t), InfoOf(t.outer).remote, InfoOf(t.inner).remote;
    var L, R := EvalFrom(FromOf(t.outer), h, db), EvalFrom(FromOf(t.inner), h, db);
    AllFound(t);
    NamedSides(t, h, db);
    NamedAllDecided(t);
    NamedSql(t, h, fr + (rs + fl));
    NamesConcat(t, rs, fl);
    NamesConcat(t, fr, rs + fl);
    SemiPull(h, InnerNames(t), L, R, NameAll(t, rs), NameAll(t, fl), NameAll(t, fr));
    SentIsNamed(t, h, db);
    InputsRep(t, h, db);
    SemiRep(t, h, PlanRemote(t.outer, h, db), Filter(h, NameAll(t, fl), L),
            PlanRemote(t.inner, h, db), Filter(h, NameAll(t, fr), R), rs);
  }

  lemma {:induction false} InputsRep(t: Rel, h: Meaning, db: Db)
    requires WellFormed(t) && t.Join? && t.kind != Full && FoundBody(t) && DbOk(db)
    ensures SideRepAll(t, true, PlanRemote(t.outer, h, db),
                       Filter(h, NameAll(t, InfoOf(t.outer).remote), EvalFrom(FromOf(t.outer), h, db)))
    ensures SideRepAll(t, false, PlanRemote(t.inner, h, db),
                       Filter(h, NameAll(t, InfoOf(t.inner).remote), EvalFrom(FromOf(t.inner), h, db)))
  {
    FoundBelow(t, true);
    FoundBelow(t, false);
    Flattened(t.outer, h, db);
    Flattened(t.inner, h, db);
    InputRep(t, true, h, db);
    InputRep(t, false, h, db);
  }

  // ---------- ANTI ----------

  /** An ANTI join is named like a left join of the same inputs. */
  function AntiSentRows(t: Rel, h: Meaning, db: Db): Rows<Name>
    requires t.Join?
  {
    var on, rest := OnClauses(t.kind, t.restrict), Own(t);
    var fl, fr := InfoOf(t.outer).remote, InfoOf(t.inner).remote;
    Filter(h, NameAll(t, Equalities(rest + fl, false)),
           AntiRows(h, EvalFrom(FromOf(t.outer), h, db), EvalFrom(FromOf(t.inner), h, db),
                    NameAll(t, on + fr + Equalities(rest + fl, true))))
  }

  function AntiPlanRows(t: Rel, h: Meaning, db: Db): Rows<Var>
    requires t.Join?
  {
    Filter(h, PlainAll(Own(t)),
           AntiRows(h, PlanRemote(t.outer, h, db), PlanRemote(t.inner, h, db), PlainAll(OnClauses(t.kind, t.restrict))))
  }

  lemma {:induction false} AntiRep(t: Rel, h: Meaning, ls: Rows<Var>, cls: Rows<Name>, ps: Rows<Var>, cs: Rows<Name>,
                                   on: Clauses<Ref>)
    requires WellFormed(t) && t.Join? && AllNameable(t, on)
    requires SideRepAll(t, true, ls, cls) && SideRepAll(t, false, ps, cs)
    ensures RepAll(t, false, AntiRows(h, ls, ps, PlainAll(on)), AntiRows(h, cls, cs, NameAll(t, on)))
  {
    if ls != [] {
      MatchesRep(t, true, h, ls[0], cls[0], ps, cs, on);
      AloneRep(t, true, ls[0], cls[0]);
      AntiRep(t, h, ls[1..], cls[1..], ps, cs, on);
    }
  }

  /** An ANTI join that moves no condition into ON, with every reference found, returns the rows of the plan. */
  lemma {:induction false} AntiPushdown(t: Rel, h: Meaning, db: Db)
    requires WellFormed(t) && t.Join? && t.kind == Left && FoundBody(t) && DbOk(db)
    requires forall c :: c in Own(t) + InfoOf(t.outer).remote ==> !c.simpleEq
    ensures RepAll(t, false, AntiPlanRows(t, h, db), AntiSentRows(t, h, db))
  {
    var on, rest := OnClauses(t.kind, t.restrict), Own(t);
    var fl, fr := InfoOf(t.outer).remote, InfoOf(t.inner).remote;
    var L, R := EvalFrom(FromOf(t.outer), h, db), EvalFrom(FromOf(t.inner), h, db);
    SplitNone(rest + fl);
    assert on + fr + [] == on + fr;
    NamesConcat(t, rest, fl);
    NamesConcat(t, on, fr);
    AntiFound(t);
    NamedSides(t, h, db);
    AntiPull(h, InnerNames(t), L, R, NameAll(t, on), NameAll(t, rest), NameAll(t, fl), NameAll(t, fr));
    InputsRep(t, h, db);
    var ls, cls := PlanRemote(t.outer, h, db), Filter(h, NameAll(t, fl), L);
    var ps, cs := PlanRemote(t.inner, h, db), Filter(h, NameAll(t, fr), R);
    AntiRep(t, h, ls, cls, ps, cs, on);
    FilterRep(t, h, rest, AntiRows(h, ls, ps, PlainAll(on)), AntiRows(h, cls, cs, NameAll(t, on)));
  }

  lemma {:induction false} AntiFound(t: Rel)
    requires WellFormed(t) && t.Join? && t.kind == Left && FoundBody(t)
    ensures AllNameable(t, OnClauses(t.kind, t.restrict)) && AllNameable(t, Own(t))
    ensures AllNameable(t, InfoOf(t.outer).remote) && AllNameable(t, InfoOf(t.inner).remote)
  {
  }
}
