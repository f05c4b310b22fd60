/** foreign_join_ok as it runs: it fills the fields of the join's CHFdwRelationInfo step by step. */
module FpInfo {
  import opened Relational
  import opened Joins

  class RelationInfo {
    var pushdownSafe: bool
    var remoteConds: Clauses<Ref>
    var localConds: Clauses<Ref>
    var joinclauses: Clauses<Ref>
    var makeOuter: bool
    var makeInner: bool
    var lower: set<nat>

    constructor ()
      ensures !pushdownSafe && remoteConds == localConds == joinclauses == []
    {
      pushdownSafe, remoteConds, localConds, joinclauses := false, [], [], [];
      makeOuter, makeInner, lower := false, false, {};
    }

    ghost predicate Describes(t: Rel)
      reads this
    {
      Info(pushdownSafe, remoteConds, localConds, joinclauses, makeOuter, makeInner, lower) == InfoOf(t)
    }
  }

  /** extract_join_equals: moves the equalities of two columns to `to`, keeps the rest, both in order. */
  method ExtractJoinEquals(conds: Clauses<Ref>, to: Clauses<Ref>) returns (rest: Clauses<Ref>,
                           moved: Clauses<Ref>)
    ensures rest == Equalities(conds, false)
    ensures moved == to + Equalities(conds, true)
  {
    rest, moved := [], to;
    for k := 0 to |conds|
      invariant rest == Equalities(conds[..k], false)
      invariant moved == to + Equalities(conds[..k], true)
    {
      assert conds[..k + 1][..k] == conds[..k];
      if conds[k].simpleEq {
        moved := moved + [conds[k]];
      } else {
        rest := rest + [conds[k]];
      }
    }
    assert conds[..|conds|] == conds;
  }

  /** Sorts the restriction list into ON clauses, remote and local conditions; fails on an ON clause that cannot be
      sent. */
  method SplitRestrictions(kind: JoinType, rs: seq<Restrict>, fp: RelationInfo) returns (ok: bool, on: Clauses<Ref>)
    requires fp.remoteConds == fp.localConds == []
    modifies fp`remoteConds, fp`localConds
    ensures ok == OnShippable(kind, rs)
    ensures ok ==> on == OnClauses(kind, rs)
    ensures ok ==> fp.remoteConds == RestClauses(kind, rs, true) && fp.localConds == RestClauses(kind, rs, false)
  {
    on := [];
    for k := 0 to |rs|
      invariant OnShippable(kind, rs[..k])
      invariant on == OnClauses(kind, rs[..k])
      invariant fp.remoteConds == RestClauses(kind, rs[..k], true)
      invariant fp.localConds == RestClauses(kind, rs[..k], false)
    {
      assert rs[..k + 1][..k] == rs[..k];
      if kind != Inner && !rs[k].pushedDown {
        if !rs[k].remote {
          return false, on;
        }
        on := on + [rs[k].clause];
      } else if rs[k].remote {
        fp.remoteConds := fp.remoteConds + [rs[k].clause];
      } else {
        fp.localConds := fp.localConds + [rs[k].clause];
      }
    }
    assert rs[..|rs|] == rs;
    return true, on;
  }

  method ForeignJoinOk(t: Rel, fpo: RelationInfo, fpi: RelationInfo, fp: RelationInfo) returns (ok: bool)
    requires t.Join? && fp != fpo && fp != fpi
    requires fpo.pushdownSafe == InfoOf(t.outer).ok && (fpo.pushdownSafe ==> fpo.Describes(t.outer))
    requires fpi.pushdownSafe == InfoOf(t.inner).ok && (fpi.pushdownSafe ==> fpi.Describes(t.inner))
    requires !fp.pushdownSafe && fp.remoteConds == fp.localConds == fp.joinclauses == []
    modifies fp
    ensures ok == InfoOf(t).ok == fp.pushdownSafe
    ensures ok ==> fp.Describes(t)
  {
    if !fpo.pushdownSafe || !fpi.pushdownSafe {
      return false;
    }
    if fpo.localConds != [] || fpi.localConds != [] {
      return false;
    }
    var shippable, on := SplitRestrictions(t.kind, t.restrict, fp);
    if !shippable {
      return false;
    }
    fp.joinclauses := on;
    fp.makeOuter, fp.makeInner := false, false;
    fp.lower := fpo.lower + fpi.lower;
    PullUpConditions(t, fpo, fpi, fp);
    fp.pushdownSafe := true;
    return true;
  }

  /** The switch on the join type: conditions of the inputs move up, or the input becomes a subquery. */
  method PullUpConditions(t: Rel, fpo: RelationInfo, fpi: RelationInfo, fp: RelationInfo)
    requires t.Join? && fp != fpo && fp != fpi && fpo.Describes(t.outer) && fpi.Describes(t.inner)
    requires fp.remoteConds == RestClauses(t.kind, t.restrict, true) && fp.joinclauses == OnClauses(t.kind, t.restrict)
    requires !fp.makeOuter && !fp.makeInner && fp.lower == fpo.lower + fpi.lower
    modifies fp`remoteConds, fp`joinclauses, fp`makeOuter, fp`makeInner, fp`lower
    ensures fp.remoteConds == InfoOf(t).remote && fp.joinclauses == InfoOf(t).joinclauses
    ensures fp.makeOuter == InfoOf(t).makeOuter && fp.makeInner == InfoOf(t).makeInner && fp.lower == InfoOf(t).lower
  {
    match t.kind {
      case Inner =>
        NoOnClauses(t.restrict);
        PullInner(fp, fpo.remoteConds, fpi.remoteConds);
      case Left =>
        fp.joinclauses := fp.joinclauses + fpi.remoteConds;
        fp.remoteConds := fp.remoteConds + fpo.remoteConds;
      case Right =>
        fp.joinclauses := fp.joinclauses + fpo.remoteConds;
        fp.remoteConds := fp.remoteConds + fpi.remoteConds;
      case Full =>
        WrapInputs(fp, fpo.remoteConds != [], fpi.remoteConds != [], Relids(t.outer), Relids(t.inner));
    }
  }

  /** Its case for inner joins. */
  method PullInner(fp: RelationInfo, outer: Clauses<Ref>, inner: Clauses<Ref>)
    requires fp.joinclauses == []
    modifies fp`remoteConds, fp`joinclauses
    ensures fp.remoteConds == Equalities(old(fp.remoteConds) + inner + outer, false)
    ensures fp.joinclauses == Equalities(old(fp.remoteConds) + inner + outer, true)
  {
    fp.remoteConds := fp.remoteConds + inner;
    fp.remoteConds := fp.remoteConds + outer;
    var rest, moved := ExtractJoinEquals(fp.remoteConds, fp.joinclauses);
    fp.remoteConds, fp.joinclauses := rest, moved;
  }

  /** Its case for full joins: an input with conditions of its own is wrapped. */
  method WrapInputs(fp: RelationInfo, wrapOuter: bool, wrapInner: bool, outer: set<nat>, inner: set<nat>)
    requires !fp.makeOuter && !fp.makeInner
    modifies fp`makeOuter, fp`makeInner, fp`lower
    ensures fp.makeOuter == wrapOuter && fp.makeInner == wrapInner
    ensures fp.lower == old(fp.lower) + (if wrapOuter then outer else {}) + (if wrapInner then inner else {})
  {
    if wrapOuter {
      fp.makeOuter := true;
      fp.lower := fp.lower + outer;
    }
    if wrapInner {
      fp.makeInner := true;
      fp.lower := fp.lower + inner;
    }
  }
}
