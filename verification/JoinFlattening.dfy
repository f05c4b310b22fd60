/** The flattened query returns PostgreSQL's rows, each column under the name the deparser gives it. */
module JoinFlattening {
  import opened Values
  import opened Relational
  import opened Joins

  // ---------- names ----------

  /** A name that belongs to the FROM entry of t. */
  predicate NameIn(t: Rel, n: Name) {
    match n
    case R(v) => v.rel in Relids(t)
    case S(alias, _) => alias in Indexes(t)
  }

  lemma {:induction false} NamedWithin(t: Rel, v: Ref)
    requires Nameable(t, v)
    ensures v.v.rel in Relids(t) && NameIn(t, NameAt(t, v))
  {
    if t.Join? {
      if v.v.rel in Relids(t.outer) {
        if !InfoOf(t).makeOuter {
          NamedWithin(t.outer, v);
        }
      } else if !InfoOf(t).makeInner {
        NamedWithin(t.inner, v);
      }
    }
  }

  lemma {:induction false} RangeNamedWithin(t: Rel, sub: bool, v: Ref)
    requires RangeNameable(t, sub, v)
    ensures v.v.rel in Relids(t) && NameIn(t, RangeName(t, sub, v))
  {
    if !sub {
      NamedWithin(t, v);
    }
  }

  /** The columns of a target, and of a join's restrictions, are columns of its base relations. */
  lemma {:induction false} TargetRels(t: Rel, v: Var)
    requires WellFormed(t) && HasColumn(t.target, v)
    ensures v.rel in Relids(t)
  {
    var i :| 0 <= i < |t.target| && t.target[i].v == v;
    assert t.target[i] in t.target;
    if t.Join? {
      if HasColumn(t.outer.target, v) {
        TargetRels(t.outer, v);
      } else {
        TargetRels(t.inner, v);
      }
    }
  }

  lemma {:induction false} RestrictRels(t: Rel)
    requires WellFormed(t) && t.Join?
    ensures forall r, v :: r in t.restrict && v in r.clause.args ==> v.v.rel in Relids(t)
  {
    forall r, v | r in t.restrict && v in r.clause.args ensures v.v.rel in Relids(t) {
      if HasColumn(t.outer.target, v.v) {
        TargetRels(t.outer, v.v);
      } else {
        TargetRels(t.inner, v.v);
      }
    }
  }

  /** A remote condition of a join is its own or pulled up from an input that is not wrapped. */
  lemma {:induction false} RemoteSources(t: Rel, c: Clause<Ref>)
    requires t.Join? && c in InfoOf(t).remote
    ensures c in RestClauses(t.kind, t.restrict, true) ||
            (!InfoOf(t).makeOuter && c in InfoOf(t.outer).remote) ||
            (!InfoOf(t).makeInner && c in InfoOf(t.inner).remote)
  {
    if t.kind == Inner {
      var all := RestClauses(t.kind, t.restrict, true) + InfoOf(t.inner).remote + InfoOf(t.outer).remote;
      assert c in all;
    }
  }

  lemma {:induction false} RemoteRels(t: Rel)
    requires WellFormed(t)
    ensures forall c, v :: c in InfoOf(t).remote && v in c.args ==> v.v.rel in Relids(t)
  {
    if t.Join? {
      RestrictRels(t);
      RemoteRels(t.outer);
      RemoteRels(t.inner);
      forall c, v | c in InfoOf(t).remote && v in c.args ensures v.v.rel in Relids(t) {
        RemoteSources(t, c);
      }
    }
  }

  lemma {:induction false} LiftNameable(t: Rel, v: Ref)
    requires WellFormed(t) && t.Join?
    requires (!InfoOf(t).makeOuter && Nameable(t.outer, v)) || (!InfoOf(t).makeInner && Nameable(t.inner, v))
    ensures Nameable(t, v)
  {
    if Nameable(t.outer, v) {
      NamedWithin(t.outer, v);
    }
    if Nameable(t.inner, v) {
      NamedWithin(t.inner, v);
    }
  }

  /** Where the conditions of an input that is not wrapped end up. */
  lemma {:induction false} PulledUp(t: Rel, outer: bool, c: Clause<Ref>)
    requires t.Join? && !SideWrapped(t, outer) && c in InfoOf(Side(t, outer)).remote
    ensures c in InfoOf(t).remote || c in InfoOf(t).joinclauses
  {
    if t.kind == Inner {
      var all := RestClauses(t.kind, t.restrict, true) + InfoOf(t.inner).remote + InfoOf(t.outer).remote;
      assert c in all;
    }
  }

  /** What is found in a join is found in its inputs. */
  lemma {:induction false} FoundBelow(t: Rel, outer: bool)
    requires WellFormed(t) && t.Join? && FoundBody(t)
    ensures FoundBody(Side(t, outer)) && (SideWrapped(t, outer) ==> Found(Side(t, outer)))
  {
    SideFound(t, outer);
    if !SideWrapped(t, outer) {
      RemoteFound(t, outer);
    }
  }

  lemma {:induction false} SideFound(t: Rel, outer: bool)
    requires t.Join? && FoundFrom(t)
    ensures if SideWrapped(t, outer) then Found(Side(t, outer)) else FoundFrom(Side(t, outer))
  {
  }

  lemma {:induction false} RemoteFound(t: Rel, outer: bool)
    requires WellFormed(t) && t.Join? && !SideWrapped(t, outer)
    requires AllNameable(t, InfoOf(t).remote) && AllNameable(t, InfoOf(t).joinclauses)
    ensures AllNameable(Side(t, outer), InfoOf(Side(t, outer)).remote)
  {
    var side := Side(t, outer);
    RemoteRels(side);
    forall c, v | c in InfoOf(side).remote && v in c.args ensures Nameable(side, v) {
      PulledUp(t, outer, c);
      DropNameable(t, outer, v);
    }
  }

  lemma {:induction false} DropNameable(t: Rel, outer: bool, v: Ref)
    requires WellFormed(t) && t.Join? && !SideWrapped(t, outer) && Nameable(t, v) && v.v.rel in Relids(Side(t, outer))
    ensures Nameable(Side(t, outer), v)
  {
  }

  /** A join's own clauses are among those it sends. */
  lemma {:induction false} OwnFound(t: Rel)
    requires WellFormed(t) && t.Join? && FoundBody(t)
    ensures AllNameable(t, OnClauses(t.kind, t.restrict)) && AllNameable(t, RestClauses(t.kind, t.restrict, true))
  {
    if t.kind == Inner {
      NoOnClauses(t.restrict);
      var rest := RestClauses(t.kind, t.restrict, true);
      var all := rest + InfoOf(t.inner).remote + InfoOf(t.outer).remote;
      assert forall c :: c in rest ==> c in all;
    }
  }

  /** One side of a join: its relation, and whether it is wrapped. */
  function Side(t: Rel, outer: bool): Rel
    requires t.Join?
  {
    if outer then t.outer else t.inner
  }

  function SideWrapped(t: Rel, outer: bool): bool
    requires t.Join?
  {
    if outer then InfoOf(t).makeOuter else InfoOf(t).makeInner
  }

  // ---------- rows ----------

  ghost predicate KeysIn(t: Rel, p: map<Var, Val>, c: map<Name, Val>) {
    (forall v :: v in p ==> v.rel in Relids(t)) && (forall n :: n in c ==> NameIn(t, n))
  }

  /** c holds, under the names of t's FROM entry, what p holds. */
  ghost predicate Rep(t: Rel, sub: bool, p: map<Var, Val>, c: map<Name, Val>) {
    KeysIn(t, p, c) && forall v :: RangeNameable(t, sub, v) ==> Lookup(c, RangeName(t, sub, v)) == Lookup(p, v.v)
  }

  ghost predicate RepAll(t: Rel, sub: bool, ps: Rows<Var>, cs: Rows<Name>) {
    |ps| == |cs| && forall k :: 0 <= k < |ps| ==> Rep(t, sub, ps[k], cs[k])
  }

  lemma {:induction false} SatRep(t: Rel, h: Meaning, cs: Clauses<Ref>, p: map<Var, Val>, c: map<Name, Val>)
    requires Rep(t, false, p, c) && AllNameable(t, cs)
    ensures SatAll(h, PlainAll(cs), p) <==> SatAll(h, NameAll(t, cs), c)
  {
    forall i | 0 <= i < |cs| ensures Sat(h, PlainAll(cs)[i], p) == Sat(h, NameAll(t, cs)[i], c) {
      var k, q, n := cs[i], Plain(cs[i]), NameClause(t, cs[i]);
      assert k in cs;
      forall j | 0 <= j < |k.args| ensures Lookup(p, q.args[j]) == Lookup(c, n.args[j]) {
        assert k.args[j] in k.args;
        assert RangeNameable(t, false, k.args[j]);
      }
      assert seq(|q.args|, j requires 0 <= j < |q.args| => Lookup(p, q.args[j])) ==
             seq(|n.args|, j requires 0 <= j < |n.args| => Lookup(c, n.args[j]));
    }
  }

  lemma {:induction false} FilterRep(t: Rel, h: Meaning, cs: Clauses<Ref>, ps: Rows<Var>,
                                     rs: Rows<Name>)
    requires RepAll(t, false, ps, rs) && AllNameable(t, cs)
    ensures RepAll(t, false, Filter(h, PlainAll(cs), ps), Filter(h, NameAll(t, cs), rs))
  {
    if ps != [] {
      SatRep(t, h, cs, ps[0], rs[0]);
      FilterRep(t, h, cs, ps[1..], rs[1..]);
    }
  }

  ghost predicate SideRep(t: Rel, outer: bool, p: map<Var, Val>, c: map<Name, Val>)
    requires t.Join?
  {
    Rep(Side(t, outer), SideWrapped(t, outer), p, c)
  }

  ghost predicate SideRepAll(t: Rel, outer: bool, ps: Rows<Var>, cs: Rows<Name>)
    requires t.Join?
  {
    |ps| == |cs| && forall k :: 0 <= k < |ps| ==> SideRep(t, outer, ps[k], cs[k])
  }

  /** A column nameable in the join comes from one side, under the same name. */
  lemma {:induction false} NameFromSide(t: Rel, v: Ref)
    requires WellFormed(t) && t.Join? && Nameable(t, v)
    ensures var outer := v.v.rel in Relids(t.outer);
            RangeNameable(Side(t, outer), SideWrapped(t, outer), v) &&
            NameAt(t, v) == RangeName(Side(t, outer), SideWrapped(t, outer), v) &&
            NameIn(Side(t, outer), NameAt(t, v)) && !NameIn(Side(t, !outer), NameAt(t, v)) &&
            v.v.rel in Relids(Side(t, outer)) && v.v.rel !in Relids(Side(t, !outer))
  {
    var outer := v.v.rel in Relids(t.outer);
    RangeNamedWithin(Side(t, outer), SideWrapped(t, outer), v);
  }

  /** A null-extended row of one side. */
  lemma {:induction false} AloneRep(t: Rel, outer: bool, p: map<Var, Val>, c: map<Name, Val>)
    requires WellFormed(t) && t.Join? && SideRep(t, outer, p, c)
    ensures Rep(t, false, p, c)
  {
    forall n | n in c ensures NameIn(t, n) {
    }
    forall v | Nameable(t, v) ensures Lookup(c, NameAt(t, v)) == Lookup(p, v.v) {
      NameFromSide(t, v);
    }
  }

  lemma {:induction false} MergeRep(t: Rel, outer: bool, pa: map<Var, Val>, ca: map<Name, Val>, pb: map<Var, Val>,
                                    cb: map<Name, Val>)
    requires WellFormed(t) && t.Join? && SideRep(t, outer, pa, ca) && SideRep(t, !outer, pb, cb)
    ensures Rep(t, false, pa + pb, ca + cb)
  {
    AloneRep(t, outer, pa, ca);
    AloneRep(t, !outer, pb, cb);
    forall v | Nameable(t, v) ensures Lookup(ca + cb, NameAt(t, v)) == Lookup(pa + pb, v.v) {
      NameFromSide(t, v);
      assert RangeNameable(t, false, v);
    }
  }

  lemma {:induction false} MatchesRep(t: Rel, outer: bool, h: Meaning, p: map<Var, Val>, c: map<Name, Val>,
                                      ps: Rows<Var>, cs: Rows<Name>, on: Clauses<Ref>)
    requires WellFormed(t) && t.Join? && AllNameable(t, on)
    requires SideRep(t, outer, p, c) && SideRepAll(t, !outer, ps, cs)
    ensures RepAll(t, false, Matches(h, p, ps, PlainAll(on)), Matches(h, c, cs, NameAll(t, on)))
  {
    if ps != [] {
      MergeRep(t, outer, p, c, ps[0], cs[0]);
      SatRep(t, h, on, p + ps[0], c + cs[0]);
      MatchesRep(t, outer, h, p, c, ps[1..], cs[1..], on);
    }
  }

  lemma {:induction false} InnerRep(t: Rel, h: Meaning, ls: Rows<Var>, cls: Rows<Name>,
                                    ps: Rows<Var>, cs: Rows<Name>, on: Clauses<Ref>)
    requires WellFormed(t) && t.Join? && AllNameable(t, on)
    requires SideRepAll(t, true, ls, cls) && SideRepAll(t, false, ps, cs)
    ensures RepAll(t, false, InnerRows(h, ls, ps, PlainAll(on)), InnerRows(h, cls, cs, NameAll(t, on)))
  {
    if ls != [] {
      MatchesRep(t, true, h, ls[0], cls[0], ps, cs, on);
      InnerRep(t, h, ls[1..], cls[1..], ps, cs, on);
    }
  }

  lemma {:induction false} LeftRep(t: Rel, outer: bool, h: Meaning, ls: Rows<Var>, cls: Rows<Name>,
                                   ps: Rows<Var>, cs: Rows<Name>, on: Clauses<Ref>)
    requires WellFormed(t) && t.Join? && AllNameable(t, on)
    requires SideRepAll(t, outer, ls, cls) && SideRepAll(t, !outer, ps, cs)
    ensures RepAll(t, false, LeftRows(h, ls, ps, PlainAll(on)), LeftRows(h, cls, cs, NameAll(t, on)))
  {
    if ls != [] {
      MatchesRep(t, outer, h, ls[0], cls[0], ps, cs, on);
      AloneRep(t, outer, ls[0], cls[0]);
      LeftRep(t, outer, h, ls[1..], cls[1..], ps, cs, on);
    }
  }

  lemma {:induction false} UnmatchedRep(t: Rel, h: Meaning, ls: Rows<Var>, cls: Rows<Name>,
                                        ps: Rows<Var>, cs: Rows<Name>, on: Clauses<Ref>)
    requires WellFormed(t) && t.Join? && AllNameable(t, on)
    requires SideRepAll(t, true, ls, cls) && SideRepAll(t, false, ps, cs)
    ensures RepAll(t, false, Unmatched(h, ls, ps, PlainAll(on)), Unmatched(h, cls, cs, NameAll(t, on)))
  {
    if ps != [] {
      MatchesRep(t, false, h, ps[0], cs[0], ls, cls, on);
      AloneRep(t, false, ps[0], cs[0]);
      UnmatchedRep(t, h, ls, cls, ps[1..], cs[1..], on);
    }
  }

  lemma {:induction false} JoinRep(t: Rel, h: Meaning, ls: Rows<Var>, cls: Rows<Name>,
                                   ps: Rows<Var>, cs: Rows<Name>, on: Clauses<Ref>)
    requires WellFormed(t) && t.Join? && AllNameable(t, on)
    requires SideRepAll(t, true, ls, cls) && SideRepAll(t, false, ps, cs)
    ensures RepAll(t, false, JoinRows(h, t.kind, ls, ps, PlainAll(on)), JoinRows(h, t.kind, cls, cs, NameAll(t, on)))
  {
    match t.kind
    case Inner => InnerRep(t, h, ls, cls, ps, cs, on);
    case Left => LeftRep(t, true, h, ls, cls, ps, cs, on);
    case Right => LeftRep(t, false, h, ps, cs, ls, cls, on);
    case Full =>
      LeftRep(t, true, h, ls, cls, ps, cs, on);
      UnmatchedRep(t, h, ls, cls, ps, cs, on);
  }

  /** Wrapping renames the columns to c1, c2, .. and keeps those of the target. */
  lemma {:induction false} WrappedRep(t: Rel, ps: Rows<Var>, cs: Rows<Name>)
    requires WellFormed(t) && Found(t) && RepAll(t, false, ps, cs)
    ensures RepAll(t, true, ps, ProjectAll(RangeOf(t, true).cols, Index(t), cs))
  {
    var cols := RangeOf(t, true).cols;
    forall k | 0 <= k < |ps| ensures Rep(t, true, ps[k], Project(cols, Index(t), cs[k])) {
      var row := Project(cols, Index(t), cs[k]);
      forall v | RangeNameable(t, true, v) ensures Lookup(row, RangeName(t, true, v)) == Lookup(ps[k], v.v) {
        var i := Position(t.target, v) - 1;
        assert RangeNameable(t, false, v) && cols[i] == NameAt(t, v);
        assert S(Index(t), i + 1) in row;
      }
    }
  }

  // ---------- the theorem ----------

  /** The rows that one input contributes: wrapped, or its FROM rows filtered by the conditions pulled up. */
  function InputRows(t: Rel, outer: bool, h: Meaning, db: Db): Rows<Name>
    requires t.Join?
  {
    var rows := EvalFrom(RangeOf(Side(t, outer), SideWrapped(t, outer)), h, db);
    if SideWrapped(t, outer) then rows else Filter(h, NameAll(t, InfoOf(Side(t, outer)).remote), rows)
  }

  /** Below an unwrapped input the names do not change. */
  lemma {:induction false} SameNames(t: Rel, outer: bool, cs: Clauses<Ref>)
    requires WellFormed(t) && t.Join? && !SideWrapped(t, outer) && AllNameable(Side(t, outer), cs)
    ensures NameAll(t, cs) == NameAll(Side(t, outer), cs)
  {
    forall i | 0 <= i < |cs| ensures NameClause(t, cs[i]) == NameClause(Side(t, outer), cs[i]) {
      forall j | 0 <= j < |cs[i].args| ensures NameAt(t, cs[i].args[j]) == NameAt(Side(t, outer), cs[i].args[j]) {
        assert cs[i] in cs && cs[i].args[j] in cs[i].args;
        NamedWithin(Side(t, outer), cs[i].args[j]);
      }
    }
  }

  lemma {:induction false} InputRep(t: Rel, outer: bool, h: Meaning, db: Db)
    requires WellFormed(t) && t.Join? && FoundBody(t)
    requires RepAll(Side(t, outer), false, PlanRemote(Side(t, outer), h, db), SentRows(Side(t, outer), h, db))
    ensures SideRepAll(t, outer, PlanRemote(Side(t, outer), h, db), InputRows(t, outer, h, db))
  {
    var side := Side(t, outer);
    FoundBelow(t, outer);
    if SideWrapped(t, outer) {
      WrappedRep(side, PlanRemote(side, h, db), SentRows(side, h, db));
    } else {
      SameNames(t, outer, InfoOf(side).remote);
    }
  }

  lemma {:induction false} NamesConcat(t: Rel, a: Clauses<Ref>, b: Clauses<Ref>)
    ensures NameAll(t, a + b) == NameAll(t, a) + NameAll(t, b)
  {
  }

  /** The names in a FROM entry's rows. */
  lemma {:induction false} FromKeys(t: Rel, sub: bool, h: Meaning, db: Db)
    requires WellFormed(t) && DbOk(db)
    ensures forall c, n :: c in EvalFrom(RangeOf(t, sub), h, db) && n in c ==> NameIn(t, n)
    decreases t, sub
  {
    if sub {
      var rows := EvalFrom(RangeOf(t, true), h, db);
      forall c, n | c in rows && n in c ensures NameIn(t, n) {
        var i :| 0 <= i < |rows| && rows[i] == c;
      }
    } else if t.Join? {
      var f := InfoOf(t);
      FromKeys(t.outer, f.makeOuter, h, db);
      FromKeys(t.inner, f.makeInner, h, db);
      JoinKeys(h, t.kind, EvalFrom(RangeOf(t.outer, f.makeOuter), h, db),
        EvalFrom(RangeOf(t.inner, f.makeInner), h, db),
               NameAll(t, f.joinclauses));
    }
  }

  function RangeRows(t: Rel, outer: bool, h: Meaning, db: Db): Rows<Name>
    requires t.Join?
  {
    EvalFrom(RangeOf(Side(t, outer), SideWrapped(t, outer)), h, db)
  }

  /** Conditions pulled up from one input do not mention the other. */
  lemma {:induction false} PulledIsForeign(t: Rel, outer: bool, h: Meaning, db: Db)
    requires WellFormed(t) && t.Join? && FoundBody(t) && DbOk(db) && !SideWrapped(t, outer)
    ensures Foreign(NameAll(t, InfoOf(Side(t, outer)).remote), RangeRows(t, !outer, h, db))
  {
    var side, cs := Side(t, outer), InfoOf(Side(t, outer)).remote;
    FoundBelow(t, outer);
    FromKeys(Side(t, !outer), SideWrapped(t, !outer), h, db);
    forall c, k, r | c in NameAll(t, cs) && k in c.args && r in RangeRows(t, !outer, h, db) ensures k !in r {
      var i :| 0 <= i < |cs| && NameClause(t, cs[i]) == c;
      var j :| 0 <= j < |c.args| && c.args[j] == k;
      var v := cs[i].args[j];
      assert cs[i] in cs && v in cs[i].args && k == NameAt(t, v);
      NamedWithin(side, v);
      LiftNameable(t, v);
      NameFromSide(t, v);
    }
  }

  lemma {:induction false} NamedMembers(t: Rel, a: Clauses<Ref>, b: Clauses<Ref>)
    requires forall c :: c in a <==> c in b
    ensures forall c :: c in NameAll(t, a) <==> c in NameAll(t, b)
  {
    forall c | c in NameAll(t, a) ensures c in NameAll(t, b) {
      var i :| 0 <= i < |a| && NameClause(t, a[i]) == c;
      assert a[i] in b;
      var j :| 0 <= j < |b| && b[j] == a[i];
      assert NameAll(t, b)[j] == c;
    }
    forall c | c in NameAll(t, b) ensures c in NameAll(t, a) {
      var i :| 0 <= i < |b| && NameClause(t, b[i]) == c;
      assert b[i] in a;
      var j :| 0 <= j < |a| && a[j] == b[i];
      assert NameAll(t, a)[j] == c;
    }
  }

  /** The heart of foreign_join_ok: moving the inputs' conditions into ON and WHERE, or wrapping the inputs,
      gives what filtering them before the join would give. */
  lemma {:induction false} PullUp(t: Rel, h: Meaning, db: Db)
    requires WellFormed(t) && t.Join? && FoundBody(t) && DbOk(db)
    ensures SentRows(t, h, db) ==
            Filter(h, NameAll(t, RestClauses(t.kind, t.restrict, true)),
                   JoinRows(h, t.kind, InputRows(t, true, h, db), InputRows(t, false, h, db), NameAll(t,
                     OnClauses(t.kind, t.restrict))))
  {
    var L, R := RangeRows(t, true, h, db), RangeRows(t, false, h, db);
    var o, i := InfoOf(t.outer).remote, InfoOf(t.inner).remote;
    var rest, on := RestClauses(t.kind, t.restrict, true), OnClauses(t.kind, t.restrict);
    match t.kind
    case Inner =>
      PulledIsForeign(t, true, h, db);
      PulledIsForeign(t, false, h, db);
      InnerSplit(t);
      InnerPull(h, L, R, NameAll(t, InfoOf(t).remote), NameAll(t, InfoOf(t).joinclauses), NameAll(t, rest),
        NameAll(t, o), NameAll(t, i));
      NoOnClauses(t.restrict);
    case Left =>
      PulledIsForeign(t, true, h, db);
      PulledIsForeign(t, false, h, db);
      NamesConcat(t, rest, o);
      NamesConcat(t, on, i);
      LeftPull(h, L, R, NameAll(t, on), NameAll(t, rest), NameAll(t, o), NameAll(t, i));
    case Right =>
      PulledIsForeign(t, true, h, db);
      PulledIsForeign(t, false, h, db);
      NamesConcat(t, rest, i);
      NamesConcat(t, on, o);
      LeftPull(h, R, L, NameAll(t, on), NameAll(t, rest), NameAll(t, i), NameAll(t, o));
    case Full =>
      FilterElements(h, NameAll(t, o), L);
      FilterElements(h, NameAll(t, i), R);
  }

  /** ON and WHERE of an inner join together hold exactly the conditions of the join and of its inputs. */
  lemma {:induction false} InnerSplit(t: Rel)
    requires t.Join? && t.kind == Inner
    ensures var rest, o, i := RestClauses(t.kind, t.restrict, true), InfoOf(t.outer).remote, InfoOf(t.inner).remote;
            forall c :: c in NameAll(t, InfoOf(t).remote) + NameAll(t, InfoOf(t).joinclauses) <==>
                        c in NameAll(t, rest) + NameAll(t, i) + NameAll(t, o)
  {
    var rest, o, i := RestClauses(t.kind, t.restrict, true), InfoOf(t.outer).remote, InfoOf(t.inner).remote;
    var f, all := InfoOf(t), rest + i + o;
    assert f.remote == Equalities(all, false) && f.joinclauses == Equalities(all, true);
    NamedMembers(t, f.remote + f.joinclauses, all);
    NamesConcat(t, f.remote, f.joinclauses);
    NamesConcat(t, rest, i);
    NamesConcat(t, rest + i, o);
  }

  /** The flattened query returns, row for row and in order, what joining the filtered inputs bottom-up returns. */
  lemma {:induction false} Flattened(t: Rel, h: Meaning, db: Db)
    requires WellFormed(t) && FoundBody(t) && DbOk(db)
    ensures RepAll(t, false, PlanRemote(t, h, db), SentRows(t, h, db))
  {
    if t.Base? {
      FilterRep(t, h, t.conds, if t.relid in db then db[t.relid] else [], EvalFrom(FromOf(t), h, db));
    } else {
      FoundBelow(t, true);
      FoundBelow(t, false);
      Flattened(t.outer, h, db);
      Flattened(t.inner, h, db);
      InputRep(t, true, h, db);
      InputRep(t, false, h, db);
      OwnFound(t);
      PullUp(t, h, db);
      var on, rest := OnClauses(t.kind, t.restrict), RestClauses(t.kind, t.restrict, true);
      var ps, qs := PlanRemote(t.outer, h, db), PlanRemote(t.inner, h, db);
      JoinRep(t, h, ps, InputRows(t, true, h, db), qs, InputRows(t, false, h, db), on);
      FilterRep(t, h, rest, JoinRows(h, t.kind, ps, qs, PlainAll(on)),
                JoinRows(h, t.kind, InputRows(t, true, h, db), InputRows(t, false, h, db), NameAll(t, on)));
    }
  }

  // ---------- conditions that stay local ----------

  /** All filters above a join, in the order of its restriction list. */
  function AboveJoin(kind: JoinType, rs: seq<Restrict>): (cs: Clauses<Ref>)
    ensures forall c :: c in cs <==> c in RestClauses(kind, rs, true) + RestClauses(kind, rs, false)
  {
    if rs == [] then []
    else AboveJoin(kind, rs[..|rs| - 1]) + if IsOn(kind, rs[|rs| - 1]) then [] else [rs[|rs| - 1].clause]
  }

  /** PostgreSQL's plan with every condition, remote or not. */
  function Plan(t: Rel, h: Meaning, db: Db): Rows<Var> {
    match t
    case Base(relid, conds, local, _) => Filter(h, PlainAll(conds + local), if relid in db then db[relid] else [])
    case Join(_, kind, outer, inner, restrict, _) =>
      Filter(h, PlainAll(AboveJoin(kind, restrict)),
             JoinRows(h, kind, Plan(outer, h, db), Plan(inner, h, db), PlainAll(OnClauses(kind, restrict))))
  }

  lemma {:induction false} FilterSame(h: Meaning, a: Clauses<Ref>, b: Clauses<Ref>, rows: Rows<Var>)
    requires forall c :: c in a <==> c in b
    ensures Filter(h, PlainAll(a), rows) == Filter(h, PlainAll(b), rows)
  {
    PlainMembers(a, b);
    PlainMembers(b, a);
    if rows != [] {
      SameClauses(h, PlainAll(a), PlainAll(b), rows[0]);
      FilterSame(h, a, b, rows[1..]);
    }
  }

  lemma {:induction false} PlainMembers(a: Clauses<Ref>, b: Clauses<Ref>)
    requires forall c :: c in a ==> c in b
    ensures forall c :: c in PlainAll(a) ==> c in PlainAll(b)
  {
    forall c | c in PlainAll(a) ensures c in PlainAll(b) {
      var i :| 0 <= i < |a| && Plain(a[i]) == c;
      assert a[i] in b;
      var j :| 0 <= j < |b| && b[j] == a[i];
      assert PlainAll(b)[j] == c;
    }
  }

  lemma {:induction false} PlainConcat(a: Clauses<Ref>, b: Clauses<Ref>)
    ensures PlainAll(a + b) == PlainAll(a) + PlainAll(b)
  {
  }

  lemma {:induction false} PlanSplits(t: Rel, h: Meaning, db: Db)
    requires InfoOf(t).ok
    ensures Plan(t, h, db) == Filter(h, PlainAll(InfoOf(t).local), PlanRemote(t, h, db))
  {
    if t.Base? {
      PlainConcat(t.conds, t.local);
      FilterTwice(h, PlainAll(t.conds), PlainAll(t.local), if t.relid in db then db[t.relid] else []);
    } else {
      PlanSplits(t.outer, h, db);
      PlanSplits(t.inner, h, db);
      FilterElements(h, [], PlanRemote(t.outer, h, db));
      FilterElements(h, [], PlanRemote(t.inner, h, db));
      var on := PlainAll(OnClauses(t.kind, t.restrict));
      var rows := JoinRows(h, t.kind, Plan(t.outer, h, db), Plan(t.inner, h, db), on);
      var remote, local := RestClauses(t.kind, t.restrict, true), RestClauses(t.kind, t.restrict, false);
      FilterSame(h, AboveJoin(t.kind, t.restrict), remote + local, rows);
      PlainConcat(remote, local);
      FilterTwice(h, PlainAll(remote), PlainAll(local), rows);
    }
  }

  /** A join tree judged safe, all of whose references find their column: the rows sent back, filtered by the conditions
      kept local, are the plan's rows. */
  lemma {:induction false} JoinPushdown(t: Rel, h: Meaning, db: Db)
    requires WellFormed(t) && Found(t) && DbOk(db) && InfoOf(t).ok
    ensures exists rows ::
              RepAll(t, false, rows, SentRows(t, h, db)) && Plan(t, h, db) == Filter(h, PlainAll(InfoOf(t).local), rows)
  {
    Flattened(t, h, db);
    PlanSplits(t, h, db);
  }
}
