/** Finding the alias of a column that a wrapped input outputs (src/deparse.c is_subquery_var). */
module JoinAliases {
  import opened Joins

  /** Missing is the "unexpected expression in subquery output" error. */
  datatype Alias = NotSubquery | Alias(relno: nat, colno: nat) | Missing

  /** get_relation_column_alias_ids, which compares whole references. */
  function ColumnAlias(v: Ref, t: Rel): Alias {
    if v in t.target then Alias(Index(t), Position(t.target, v)) else Missing
  }

  /** is_subquery_var, guided by lower_subquery_rels. */
  function SubqueryVar(v: Ref, t: Rel): Alias {
    if t.Base? || v.v.rel !in InfoOf(t).lower then NotSubquery
    else if v.v.rel in Relids(t.outer) then
      if InfoOf(t).makeOuter then ColumnAlias(v, t.outer) else SubqueryVar(v, t.outer)
    else
      if InfoOf(t).makeInner then ColumnAlias(v, t.inner) else SubqueryVar(v, t.inner)
  }

  datatype Entry = Entry(rel: Rel, wrapped: bool)

  /** The entries that t's FROM clause joins: tables, and wrapped inputs that hide whatever they wrap. */
  function Entries(t: Rel): seq<Entry>
    decreases t, 0
  {
    if t.Base? then [Entry(t, false)]
    else SideEntries(t.outer, InfoOf(t).makeOuter) + SideEntries(t.inner, InfoOf(t).makeInner)
  }

  function SideEntries(t: Rel, wrapped: bool): seq<Entry>
    decreases t, 1
  {
    if wrapped then [Entry(t, true)] else Entries(t)
  }

  lemma {:induction false} EntriesCover(t: Rel)
    ensures forall e :: e in Entries(t) ==> Relids(e.rel) <= Relids(t)
    ensures forall r :: r in Relids(t) ==> exists e :: e in Entries(t) && r in Relids(e.rel)
  {
    if t.Join? {
      EntriesCover(t.outer);
      EntriesCover(t.inner);
      var left, right := SideEntries(t.outer, InfoOf(t).makeOuter), SideEntries(t.inner, InfoOf(t).makeInner);
      assert Entries(t) == left + right;
      assert Relids(t) == Relids(t.outer) + Relids(t.inner);
      forall e | e in Entries(t) ensures Relids(e.rel) <= Relids(t) {
        assert e in left || e in right;
      }
      forall r | r in Relids(t) ensures exists e :: e in Entries(t) && r in Relids(e.rel) {
        if r in Relids(t.outer) {
          var e :| e in left && r in Relids(e.rel);
          assert e in Entries(t);
        } else {
          var e :| e in right && r in Relids(e.rel);
          assert e in Entries(t);
        }
      }
    } else {
      assert Entries(t) == [Entry(t, false)] && Entry(t, false) in Entries(t);
    }
  }

  /** lower_subquery_rels holds exactly the base relations below a wrapped entry. */
  lemma {:induction false} LowerExactly(t: Rel)
    ensures InfoOf(t).lower <= Relids(t)
    ensures forall r :: r in InfoOf(t).lower <==> Hidden(Entries(t), r)
  {
    if t.Join? {
      LowerExactly(t.outer);
      LowerExactly(t.inner);
      var f := InfoOf(t);
      LowerOfSide(t.outer, f.makeOuter);
      LowerOfSide(t.inner, f.makeInner);
      assert f.lower == SideLower(t.outer, f.makeOuter) + SideLower(t.inner, f.makeInner);
      forall r ensures r in f.lower <==> Hidden(Entries(t), r) {
        HiddenConcat(SideEntries(t.outer, f.makeOuter), SideEntries(t.inner, f.makeInner), r);
      }
    }
  }

  /** r lies below a wrapped entry. */
  ghost predicate Hidden(es: seq<Entry>, r: nat) {
    exists e :: e in es && e.wrapped && r in Relids(e.rel)
  }

  lemma {:induction false} HiddenConcat(a: seq<Entry>, b: seq<Entry>, r: nat)
    ensures Hidden(a + b, r) <==> Hidden(a, r) || Hidden(b, r)
  {
    if e :| e in a + b && e.wrapped && r in Relids(e.rel) {
      assert e in a || e in b;
    }
    if e :| e in a && e.wrapped && r in Relids(e.rel) {
      assert e in a + b;
    }
    if e :| e in b && e.wrapped && r in Relids(e.rel) {
      assert e in a + b;
    }
  }

  function SideLower(t: Rel, wrapped: bool): set<nat> {
    if wrapped then Relids(t) else InfoOf(t).lower
  }

  lemma {:induction false} LowerOfSide(t: Rel, wrapped: bool)
    requires InfoOf(t).lower <= Relids(t) && forall r :: r in InfoOf(t).lower <==> Hidden(Entries(t), r)
    ensures InfoOf(t).lower <= SideLower(t, wrapped) <= Relids(t)
    ensures forall r :: r in SideLower(t, wrapped) <==> Hidden(SideEntries(t, wrapped), r)
  {
    if wrapped {
      forall r ensures r in Relids(t) <==> Hidden([Entry(t, true)], r) {
        assert Entry(t, true) in [Entry(t, true)];
      }
    }
  }

  /** The answer for the one entry that a column belongs to: its own name if the entry is a table, else the alias
      of that entry and the column's position in it, or an error if the entry does not output the column. */
  lemma {:induction false} AliasOfEntry(t: Rel, v: Ref, e: Entry)
    requires WellFormed(t) && e in Entries(t) && v.v.rel in Relids(e.rel)
    ensures SubqueryVar(v, t) == if e.wrapped then ColumnAlias(v, e.rel) else NotSubquery
  {
    LowerExactly(t);
    if t.Join? {
      EntriesCover(t.outer);
      EntriesCover(t.inner);
      LowerExactly(t.outer);
      LowerExactly(t.inner);
      var f := InfoOf(t);
      if v.v.rel in Relids(t.outer) {
        if !f.makeOuter {
          AliasOfEntry(t.outer, v, e);
        }
      } else if !f.makeInner {
        AliasOfEntry(t.inner, v, e);
      }
    }
  }

  /** The deparser's name for a column is the one under which the query's rows hold it. */
  lemma {:induction false} AliasIsName(t: Rel, v: Ref)
    requires WellFormed(t) && v.v.rel in Relids(t)
    ensures SubqueryVar(v, t) == Missing <==> !Nameable(t, v)
    ensures Nameable(t, v) ==> NameAt(t, v) == match SubqueryVar(v, t)
                                               case Alias(relno, colno) => S(relno, colno)
                                               case _ => R(v.v)
  {
    if v.v.rel !in InfoOf(t).lower {
      PlainBelow(t, v);
    } else if t.Join? {
      if v.v.rel in Relids(t.outer) {
        if !InfoOf(t).makeOuter {
          AliasIsName(t.outer, v);
        }
      } else if !InfoOf(t).makeInner {
        AliasIsName(t.inner, v);
      }
    }
  }

  lemma {:induction false} PlainBelow(t: Rel, v: Ref)
    requires v.v.rel in Relids(t) && v.v.rel !in InfoOf(t).lower
    ensures SubqueryVar(v, t) == NotSubquery && Nameable(t, v) && NameAt(t, v) == R(v.v)
  {
    if t.Join? {
      if v.v.rel in Relids(t.outer) {
        PlainBelow(t.outer, v);
      } else {
        PlainBelow(t.inner, v);
      }
    }
  }
}
