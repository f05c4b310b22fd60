/** What foreign_join_ok decides about a join tree, said of the tree alone: which conditions pass a join upwards, which
    inputs are wrapped, and which trees are sent. */
module JoinInputs {
  import opened Relational
  import opened Joins
  import opened JoinFlattening
  import opened JoinAliases
  import opened JoinNulling

  // ---------- where a join's own clauses go ----------

  /** The ON clauses of an outer join are those that were not pushed down to it from above. */
  lemma {:induction false} OnClausesExactly(kind: JoinType, rs: seq<Restrict>, c: Clause<Ref>)
    ensures c in OnClauses(kind, rs) <==> exists r :: r in rs && r.clause == c && kind != Inner && !r.pushedDown
  {
    if rs != [] {
      OnClausesExactly(kind, rs[..|rs| - 1], c);
      Snoc(rs);
    }
  }

  /** The others are filters, sent if they can be. */
  lemma {:induction false} RestClausesExactly(kind: JoinType, rs: seq<Restrict>, remote: bool, c: Clause<Ref>)
    ensures c in RestClauses(kind, rs, remote) <==>
            exists r :: r in rs && r.clause == c && (kind == Inner || r.pushedDown) && r.remote == remote
  {
    if rs != [] {
      RestClausesExactly(kind, rs[..|rs| - 1], remote, c);
      Snoc(rs);
    }
  }

  lemma {:induction false} Snoc(rs: seq<Restrict>)
    requires rs != []
    ensures forall r :: r in rs <==> r in rs[..|rs| - 1] || r == rs[|rs| - 1]
  {
  }

  // ---------- which inputs are wrapped ----------

  /** PostgreSQL's plan applies c to the rows of t when they are complete, and not while joining them: a base relation's
      own conditions, a join's filters, and those of a preserved input. An inner join takes equalities into ON. */
  ghost predicate Filters(t: Rel, c: Clause<Ref>) {
    match t
    case Base(_, conds, _, _) => c in conds
    case Join(_, kind, outer, inner, restrict, _) =>
      match kind
      case Inner => !c.simpleEq && (c in RestClauses(kind, restrict, true) || Filters(outer, c) || Filters(inner, c))
      case Left => c in RestClauses(kind, restrict, true) || Filters(outer, c)
      case Right => c in RestClauses(kind, restrict, true) || Filters(inner, c)
      case Full => c in RestClauses(kind, restrict, true)
  }

  ghost predicate Filtered(t: Rel) {
    exists c :: Filters(t, c)
  }

  lemma {:induction false} FiltersExactly(t: Rel, c: Clause<Ref>)
    ensures c in InfoOf(t).remote <==> Filters(t, c)
  {
    if t.Join? {
      FiltersExactly(t.outer, c);
      FiltersExactly(t.inner, c);
      if t.kind == Inner {
        var all := RestClauses(t.kind, t.restrict, true) + InfoOf(t.inner).remote + InfoOf(t.outer).remote;
        assert c in all <==> c in RestClauses(t.kind, t.restrict, true) || Filters(t.outer, c) || Filters(t.inner, c);
      }
    }
  }

  lemma {:induction false} FilteredExactly(t: Rel)
    ensures InfoOf(t).remote != [] <==> Filtered(t)
  {
    if InfoOf(t).remote != [] {
      assert InfoOf(t).remote[0] in InfoOf(t).remote;
      FiltersExactly(t, InfoOf(t).remote[0]);
    }
    if c :| Filters(t, c) {
      FiltersExactly(t, c);
    }
  }

  /** An input is wrapped exactly if it is a filtered input of a FULL join. */
  lemma {:induction false} WrappedExactly(t: Rel)
    requires t.Join?
    ensures InfoOf(t).makeOuter <==> t.kind == Full && Filtered(t.outer)
    ensures InfoOf(t).makeInner <==> t.kind == Full && Filtered(t.inner)
  {
    FilteredExactly(t.outer);
    FilteredExactly(t.inner);
  }

  /** No FULL join in t has a filtered input. */
  ghost predicate NothingToWrap(t: Rel) {
    t.Join? ==>
      NothingToWrap(t.outer) && NothingToWrap(t.inner) &&
      (t.kind == Full ==> !Filtered(t.outer) && !Filtered(t.inner))
  }

  lemma {:induction false} HasRelation(t: Rel)
    ensures Relids(t) != {}
  {
    if t.Join? {
      HasRelation(t.outer);
    }
  }

  lemma {:induction false} UnwrappedExactly(t: Rel)
    ensures InfoOf(t).lower == {} <==> NothingToWrap(t)
  {
    if t.Join? {
      UnwrappedExactly(t.outer);
      UnwrappedExactly(t.inner);
      WrappedExactly(t);
      HasRelation(t.outer);
      HasRelation(t.inner);
    }
  }

  lemma {:induction false} ClearUnwrapped(t: Rel)
    requires NothingToWrap(t)
    ensures Clear(t) && ClearFrom(t)
  {
    UnwrappedExactly(t);
    if t.Join? {
      WrappedExactly(t);
      ClearUnwrapped(t.outer);
      ClearUnwrapped(t.inner);
    }
  }

  /** Then every entry of the FROM clause is a table, and marks or no marks, every reference finds its column. */
  lemma {:induction false} UnwrappedFound(t: Rel)
    requires WellFormed(t) && (Marked(t) || Unmarked(t)) && NothingToWrap(t)
    ensures Found(t) && forall e :: e in Entries(t) ==> !e.wrapped
  {
    UnwrappedExactly(t);
    if Unmarked(t) {
      UnmarkedFound(t);
    } else {
      ClearUnwrapped(t);
      FoundExactly(t);
    }
    LowerExactly(t);
    forall e | e in Entries(t) ensures !e.wrapped {
      HasRelation(e.rel);
      var r :| r in Relids(e.rel);
      assert !Hidden(Entries(t), r);
    }
  }

  /** Outer joins of relations without conditions, and nothing above them to filter. */
  ghost predicate Unfiltered(t: Rel) {
    match t
    case Base(_, conds, _, _) => conds == []
    case Join(_, kind, outer, inner, restrict, _) =>
      kind != Inner && Unfiltered(outer) && Unfiltered(inner) && forall r :: r in restrict ==> !r.pushedDown
  }

  lemma {:induction false} UnfilteredInputs(t: Rel)
    requires Unfiltered(t)
    ensures NothingToWrap(t) && !Filtered(t)
  {
    if t.Join? {
      UnfilteredInputs(t.outer);
      UnfilteredInputs(t.inner);
      NoRestClauses(t.kind, t.restrict);
      forall c ensures !Filters(t, c) {
        assert !Filters(t.outer, c) && !Filters(t.inner, c);
      }
    }
  }

  lemma {:induction false} NoRestClauses(kind: JoinType, rs: seq<Restrict>)
    requires kind != Inner && forall r :: r in rs ==> !r.pushedDown
    ensures RestClauses(kind, rs, true) == []
  {
    if rs != [] {
      assert rs[|rs| - 1] in rs;
      NoRestClauses(kind, rs[..|rs| - 1]);
    }
  }

  /** SELECT a.x FROM (SELECT * FROM a WHERE cs) a FULL JOIN b ON true, as PostgreSQL marks it from version 16 on, or
      before. */
  function FullJoin(cs: Clauses<Ref>, x: Var, marked: bool): Rel {
    Join(3, Full, Base(1, cs, [], [Ref(x, {})]), Base(2, [], [], []), [], [Ref(x, if marked then {3} else {})])
  }

  /** From version 16 on it raises exactly if there are conditions. Without them its column goes by its own name. */
  lemma {:induction false} FullJoinExactly(cs: Clauses<Ref>, x: Var, t: Rel)
    requires t == FullJoin(cs, x, true) && x.rel == 1 && forall c :: c in cs ==> c.args == [Ref(x, {})]
    ensures WellFormed(t) && Marked(t) && InfoOf(t).ok && (Found(t) <==> cs == [])
    ensures SubqueryVar(Ref(x, {3}), t) == if cs == [] then NotSubquery else Missing
  {
    FullJoinMarked(cs, x, t);
    if cs == [] {
      UnfilteredInputs(t);
      UnwrappedFound(t);
    } else {
      FoundExactly(t);
    }
  }

  lemma {:induction false} FullJoinMarked(cs: Clauses<Ref>, x: Var, t: Rel)
    requires t == FullJoin(cs, x, true) && x.rel == 1 && forall c :: c in cs ==> c.args == [Ref(x, {})]
    ensures WellFormed(t) && Marked(t) && InfoOf(t).ok
    ensures Ref(x, {3}) in t.target && Ref(x, {3}) !in t.outer.target && InfoOf(t).lower == if cs == [] then {} else {1}
  {
    assert t.outer.target[0].v == x && HasColumn(t.outer.target, x) && t.target[0] in t.target;
    assert Marked(t.outer) && Marked(t.inner);
  }

  /** Before, it never raises. */
  lemma {:induction false} FullJoinBefore(cs: Clauses<Ref>, x: Var, t: Rel)
    requires t == FullJoin(cs, x, false) && x.rel == 1 && forall c :: c in cs ==> c.args == [Ref(x, {})]
    ensures WellFormed(t) && InfoOf(t).ok && Found(t)
  {
    assert t.outer.target[0].v == x && HasColumn(t.outer.target, x);
    assert Unmarked(t.outer) && Unmarked(t.inner);
    UnmarkedFound(t);
  }

  // ---------- which trees are sent ----------

  /** Everything in t can be sent. */
  predicate AllRemote(t: Rel) {
    match t
    case Base(_, _, local, _) => local == []
    case Join(_, _, outer, inner, restrict, _) =>
      AllRemote(outer) && AllRemote(inner) && forall r :: r in restrict ==> r.remote
  }

  lemma {:induction false} NoLocalClauses(kind: JoinType, rs: seq<Restrict>)
    ensures OnShippable(kind, rs) && RestClauses(kind, rs, false) == [] <==> forall r :: r in rs ==> r.remote
  {
    if rs != [] {
      var n := |rs| - 1;
      NoLocalClauses(kind, rs[..n]);
      assert OnShippable(kind, rs) <==> OnShippable(kind, rs[..n]) && (IsOn(kind, rs[n]) ==> rs[n].remote);
      Snoc(rs);
    }
  }

  lemma {:induction false} AllRemoteExactly(t: Rel)
    ensures AllRemote(t) <==> InfoOf(t).ok && InfoOf(t).local == []
  {
    if t.Join? {
      AllRemoteExactly(t.outer);
      AllRemoteExactly(t.inner);
      NoLocalClauses(t.kind, t.restrict);
    }
  }

  /** A join is pushed down exactly if everything below it can be sent, and its own ON clauses; its filters may stay. */
  lemma {:induction false} PushdownExactly(t: Rel)
    requires t.Join?
    ensures InfoOf(t).ok <==>
            AllRemote(t.outer) && AllRemote(t.inner) && forall r :: r in t.restrict && IsOn(t.kind, r) ==> r.remote
  {
    AllRemoteExactly(t.outer);
    AllRemoteExactly(t.inner);
  }
}
