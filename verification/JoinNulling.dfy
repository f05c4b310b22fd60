/** When every reference finds its column. A wrapped input's columns are looked up as whole references, and from
    PostgreSQL 16 a reference above an outer join says that the join may have nulled it. */
module JoinNulling {
  import opened Relational
  import opened Joins
  import opened JoinFlattening
  import opened JoinAliases

  /** The outer joins of t that may null a column of base relation r. */
  function Nulls(t: Rel, r: nat): set<nat> {
    match t
    case Base(_, _, _, _) => {}
    case Join(number, kind, outer, inner, _, _) =>
      if r in Relids(outer) then Nulls(outer, r) + (if kind == Right || kind == Full then {number} else {})
      else Nulls(inner, r) + if kind == Left || kind == Full then {number} else {}
  }

  /** The same for the inputs only, as an ON clause sees them. */
  function NullsBelow(t: Rel, r: nat): set<nat>
    requires t.Join?
  {
    if r in Relids(t.outer) then Nulls(t.outer, r) else Nulls(t.inner, r)
  }

  lemma {:induction false} NullsWithin(t: Rel, r: nat)
    ensures Nulls(t, r) <= Indexes(t)
  {
    if t.Join? {
      NullsWithin(t.outer, r);
      NullsWithin(t.inner, r);
    }
  }

  // ---------- before PostgreSQL 16 ----------

  ghost predicate NoMarks(cs: Clauses<Ref>) {
    forall c, v :: c in cs && v in c.args ==> v.nulling == {}
  }

  /** No reference says anything about nulling. */
  ghost predicate Unmarked(t: Rel) {
    (forall v :: v in t.target ==> v.nulling == {}) &&
    match t
    case Base(_, conds, _, _) => NoMarks(conds)
    case Join(_, _, outer, inner, restrict, _) =>
      Unmarked(outer) && Unmarked(inner) && forall r :: r in restrict ==> NoMarks([r.clause])
  }

  lemma {:induction false} TargetHas(target: seq<Ref>, v: Ref)
    requires HasColumn(target, v.v) && forall u :: u in target && u.v == v.v ==> u.nulling == v.nulling
    ensures v in target
  {
    var i :| 0 <= i < |target| && target[i].v == v.v;
    assert target[i] in target && target[i] == v;
  }

  lemma {:induction false} UnmarkedNameable(t: Rel, v: Ref)
    requires WellFormed(t) && Unmarked(t) && HasColumn(t.target, v.v) && v.nulling == {}
    ensures Nameable(t, v)
    decreases t, 1
  {
    TargetRels(t, v.v);
    var i :| 0 <= i < |t.target| && t.target[i].v == v.v;
    assert t.target[i] in t.target;
    if t.Join? {
      UnmarkedBelow(t, v);
    }
  }

  lemma {:induction false} UnmarkedBelow(t: Rel, v: Ref)
    requires t.Join? && WellFormed(t) && Unmarked(t.outer) && Unmarked(t.inner) && v.nulling == {}
    requires HasColumn(t.outer.target, v.v) || HasColumn(t.inner.target, v.v)
    ensures Nameable(t, v)
    decreases t, 0
  {
    if HasColumn(t.outer.target, v.v) {
      TargetRels(t.outer, v.v);
      TargetHas(t.outer.target, v);
      UnmarkedNameable(t.outer, v);
    } else {
      TargetRels(t.inner, v.v);
      TargetHas(t.inner.target, v);
      UnmarkedNameable(t.inner, v);
    }
  }

  /** Then every reference finds its column. */
  lemma {:induction false} UnmarkedFound(t: Rel)
    requires WellFormed(t) && Unmarked(t)
    ensures Found(t)
  {
    forall v | v in t.target ensures Nameable(t, v) {
      UnmarkedNameable(t, v);
    }
    if t.Join? {
      UnmarkedFound(t.outer);
      UnmarkedFound(t.inner);
      UnmarkedClauses(t);
    }
  }

  lemma {:induction false} UnmarkedClauses(t: Rel)
    requires WellFormed(t) && Unmarked(t) && t.Join? && Found(t.outer) && Found(t.inner)
    ensures AllNameable(t, InfoOf(t).remote) && AllNameable(t, InfoOf(t).joinclauses)
  {
    forall c, v | c in InfoOf(t).remote + InfoOf(t).joinclauses && v in c.args ensures Nameable(t, v) {
      ClauseSources(t, c);
      if r :| r in t.restrict && r.clause == c {
        assert c in [r.clause];
        UnmarkedBelow(t, v);
      } else {
        LiftNameable(t, v);
      }
    }
  }

  /** A clause that a join sends is its own or pulled up from an input that is not wrapped. */
  lemma {:induction false} ClauseSources(t: Rel, c: Clause<Ref>)
    requires t.Join? && c in InfoOf(t).remote + InfoOf(t).joinclauses
    ensures (exists r :: r in t.restrict && r.clause == c) ||
            (!InfoOf(t).makeOuter && c in InfoOf(t.outer).remote) ||
            (!InfoOf(t).makeInner && c in InfoOf(t.inner).remote)
  {
    if t.kind == Inner {
      var all := RestClauses(t.kind, t.restrict, true) + InfoOf(t.inner).remote + InfoOf(t.outer).remote;
      assert c in all;
    }
  }

  // ---------- from PostgreSQL 16 ----------

  ghost predicate MarkedAs(t: Rel, cs: Clauses<Ref>) {
    forall c, v :: c in cs && v in c.args ==> v.nulling == Nulls(t, v.v.rel)
  }

  ghost predicate MarkedBelow(t: Rel, cs: Clauses<Ref>)
    requires t.Join?
  {
    forall c, v :: c in cs && v in c.args ==> v.nulling == NullsBelow(t, v.v.rel)
  }

  /** Every reference names the outer joins below the place where it is evaluated. */
  ghost predicate Marked(t: Rel) {
    (forall v :: v in t.target ==> v.nulling == Nulls(t, v.v.rel)) &&
    match t
    case Base(_, conds, _, _) => MarkedAs(t, conds)
    case Join(_, kind, outer, inner, restrict, _) =>
      Marked(outer) && Marked(inner) && MarkedBelow(t, OnClauses(kind, restrict)) &&
      MarkedAs(t, RestClauses(kind, restrict, true))
  }

  /** The lookup finds a column of a wrapped input exactly for the reference that the input itself outputs. */
  lemma {:induction false} AliasFoundExactly(t: Rel, v: Ref, e: Entry)
    requires WellFormed(t) && e in Entries(t) && e.wrapped && v.v.rel in Relids(e.rel) && Marked(e.rel)
    ensures SubqueryVar(v, t) != Missing <==> HasColumn(e.rel.target, v.v) && v.nulling == Nulls(e.rel, v.v.rel)
  {
    AliasOfEntry(t, v, e);
    if v in e.rel.target {
      var i :| 0 <= i < |e.rel.target| && e.rel.target[i] == v;
      assert e.rel.target[i].v == v.v;
    } else if HasColumn(e.rel.target, v.v) && v.nulling == Nulls(e.rel, v.v.rel) {
      TargetHas(e.rel.target, v);
    }
  }

  /** Pulling a condition up does not take it across a join that may null its columns. */
  lemma {:induction false} RemoteMarked(t: Rel)
    requires WellFormed(t) && Marked(t)
    ensures MarkedAs(t, InfoOf(t).remote)
  {
    if t.Join? {
      RemoteMarked(t.outer);
      RemoteMarked(t.inner);
      RemoteRels(t.outer);
      RemoteRels(t.inner);
      forall c, v | c in InfoOf(t).remote && v in c.args ensures v.nulling == Nulls(t, v.v.rel) {
        if c !in RestClauses(t.kind, t.restrict, true) {
          RemotePreserved(t, c);
        }
      }
    }
  }

  /** Only the preserved side of an outer join passes its conditions on to WHERE. */
  lemma {:induction false} RemotePreserved(t: Rel, c: Clause<Ref>)
    requires t.Join? && c in InfoOf(t).remote && c !in RestClauses(t.kind, t.restrict, true)
    ensures (c in InfoOf(t.outer).remote && (t.kind == Inner || t.kind == Left)) ||
            (c in InfoOf(t.inner).remote && (t.kind == Inner || t.kind == Right))
  {
    if t.kind == Inner {
      var all := RestClauses(t.kind, t.restrict, true) + InfoOf(t.inner).remote + InfoOf(t.outer).remote;
      assert c in all;
    }
  }

  lemma {:induction false} JoinclausesMarked(t: Rel)
    requires WellFormed(t) && Marked(t) && t.Join?
    ensures MarkedBelow(t, InfoOf(t).joinclauses)
  {
    RemoteMarked(t.outer);
    RemoteMarked(t.inner);
    RemoteRels(t.outer);
    RemoteRels(t.inner);
    forall c, v | c in InfoOf(t).joinclauses && v in c.args ensures v.nulling == NullsBelow(t, v.v.rel) {
      if t.kind == Inner {
        var all := RestClauses(t.kind, t.restrict, true) + InfoOf(t.inner).remote + InfoOf(t.outer).remote;
        assert c in all;
        assert Nulls(t, v.v.rel) == NullsBelow(t, v.v.rel);
      }
    }
  }

  /** A reference above the FULL join that wraps its relation is not found. */
  lemma {:induction false} AboveMissing(t: Rel, v: Ref)
    requires WellFormed(t) && Marked(t) && v.v.rel in InfoOf(t).lower && Nulls(t, v.v.rel) <= v.nulling
    ensures !Nameable(t, v)
  {
    LowerExactly(t);
    LowerExactly(t.outer);
    LowerExactly(t.inner);
    var f, r := InfoOf(t), v.v.rel;
    if r in Relids(t.outer) {
      NullsWithin(t.outer, r);
      if !f.makeOuter {
        AboveMissing(t.outer, v);
      }
    } else {
      NullsWithin(t.inner, r);
      if !f.makeInner {
        AboveMissing(t.inner, v);
      }
    }
  }

  // ---------- the condition ----------

  /** No reference of these clauses is to a column of a wrapped input. */
  ghost predicate Avoids(t: Rel, cs: Clauses<Ref>) {
    forall c, v :: c in cs && v in c.args ==> v.v.rel !in InfoOf(t).lower
  }

  /** Except, in the ON clause of a FULL join, to one that this join itself wraps. */
  ghost predicate AvoidsBelow(t: Rel, cs: Clauses<Ref>)
    requires t.Join?
  {
    forall c, v :: c in cs && v in c.args ==>
                     v.v.rel !in InfoOf(t).lower || SideWrapped(t, v.v.rel in Relids(t.outer))
  }

  ghost predicate ClearFrom(t: Rel)
    decreases t, 0
  {
    t.Join? ==>
      AvoidsBelow(t, InfoOf(t).joinclauses) &&
      (if InfoOf(t).makeOuter then Clear(t.outer) else ClearFrom(t.outer)) &&
      (if InfoOf(t).makeInner then Clear(t.inner) else ClearFrom(t.inner))
  }

  /** No column of a wrapped input is mentioned outside the ON clause of the FULL join that wraps it. */
  ghost predicate Clear(t: Rel)
    decreases t, 1
  {
    (forall v :: v in t.target ==> v.v.rel !in InfoOf(t).lower) && Avoids(t, InfoOf(t).remote) && ClearFrom(t)
  }

  lemma {:induction false} AvoidsExactly(t: Rel, cs: Clauses<Ref>)
    requires WellFormed(t) && Marked(t) && MarkedAs(t, cs)
    requires forall c, v :: c in cs && v in c.args ==> v.v.rel in Relids(t)
    ensures AllNameable(t, cs) <==> Avoids(t, cs)
  {
    forall c, v | c in cs && v in c.args ensures Nameable(t, v) <==> v.v.rel !in InfoOf(t).lower {
      RefExactly(t, v);
    }
  }

  lemma {:induction false} RefExactly(t: Rel, v: Ref)
    requires WellFormed(t) && Marked(t) && v.v.rel in Relids(t) && Nulls(t, v.v.rel) <= v.nulling
    ensures Nameable(t, v) <==> v.v.rel !in InfoOf(t).lower
  {
    if v.v.rel in InfoOf(t).lower {
      AboveMissing(t, v);
    } else {
      PlainBelow(t, v);
    }
  }

  /** A reference in an ON clause. */
  lemma {:induction false} OnRefExactly(t: Rel, v: Ref)
    requires WellFormed(t) && Marked(t) && t.Join? && v.v.rel in Relids(t) && v.nulling == NullsBelow(t, v.v.rel)
    requires SideWrapped(t, v.v.rel in Relids(t.outer)) ==> HasColumn(Side(t, v.v.rel in Relids(t.outer)).target, v.v)
    ensures Nameable(t, v) <==> v.v.rel !in InfoOf(t).lower || SideWrapped(t, v.v.rel in Relids(t.outer))
  {
    var outer := v.v.rel in Relids(t.outer);
    if SideWrapped(t, outer) {
      TargetHas(Side(t, outer).target, v);
    } else {
      RefExactly(Side(t, outer), v);
      LowerFromSide(t, v.v.rel);
    }
  }

  /** Below an input that is not wrapped, what is wrapped is what that input wraps. */
  lemma {:induction false} LowerFromSide(t: Rel, r: nat)
    requires WellFormed(t) && t.Join? && r in Relids(t) && !SideWrapped(t, r in Relids(t.outer))
    ensures r in InfoOf(t).lower <==> r in InfoOf(Side(t, r in Relids(t.outer))).lower
  {
    LowerExactly(t.outer);
    LowerExactly(t.inner);
  }

  lemma {:induction false} OnExactly(t: Rel)
    requires WellFormed(t) && Marked(t) && t.Join?
    ensures AllNameable(t, InfoOf(t).joinclauses) <==> AvoidsBelow(t, InfoOf(t).joinclauses)
  {
    JoinclausesMarked(t);
    forall c, v | c in InfoOf(t).joinclauses && v in c.args
      ensures Nameable(t, v) <==> v.v.rel !in InfoOf(t).lower || SideWrapped(t, v.v.rel in Relids(t.outer))
    {
      OnColumns(t, c, v);
      OnRefExactly(t, v);
    }
  }

  /** What an ON clause mentions belongs to the join, and a wrapped input outputs it. */
  lemma {:induction false} OnColumns(t: Rel, c: Clause<Ref>, v: Ref)
    requires WellFormed(t) && t.Join? && c in InfoOf(t).joinclauses && v in c.args
    ensures v.v.rel in Relids(t)
    ensures SideWrapped(t, v.v.rel in Relids(t.outer)) ==> HasColumn(Side(t, v.v.rel in Relids(t.outer)).target, v.v)
  {
    ClauseSources(t, c);
    RestrictRels(t);
    RemoteRels(t.outer);
    RemoteRels(t.inner);
    if HasColumn(t.outer.target, v.v) {
      TargetRels(t.outer, v.v);
    }
    if HasColumn(t.inner.target, v.v) {
      TargetRels(t.inner, v.v);
    }
  }

  /** So deparsing a join tree raises no error exactly when no column of a wrapped input is mentioned outside the ON
      clause of the FULL join that wraps it. */
  lemma {:induction false} FoundExactly(t: Rel)
    requires WellFormed(t) && Marked(t)
    ensures Found(t) <==> Clear(t)
    decreases t, 1
  {
    RemoteMarked(t);
    RemoteRels(t);
    AvoidsExactly(t, InfoOf(t).remote);
    forall v | v in t.target ensures Nameable(t, v) <==> v.v.rel !in InfoOf(t).lower {
      var i :| 0 <= i < |t.target| && t.target[i] == v;
      assert t.target[i].v == v.v && HasColumn(t.target, v.v);
      TargetRels(t, v.v);
      RefExactly(t, v);
    }
    FromExactly(t);
  }

  lemma {:induction false} FromExactly(t: Rel)
    requires WellFormed(t) && Marked(t)
    ensures FoundFrom(t) <==> ClearFrom(t)
    decreases t, 0
  {
    if t.Join? {
      OnExactly(t);
      FoundExactly(t.outer);
      FromExactly(t.outer);
      FoundExactly(t.inner);
      FromExactly(t.inner);
    }
  }
}
