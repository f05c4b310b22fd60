# A Dafny model of pg_clickhouse

pg_clickhouse is a PostgreSQL foreign data wrapper for ClickHouse. It decides which parts of a query ClickHouse can
evaluate, writes them as ClickHouse SQL, and reads the answer back over HTTP or the native protocol. This project models
the parts where a mistake would silently change a query's result or leave a connection in the wrong state, and proves
what those parts promise.

`dafny verify dfyconfig.toml` checks everything.

## The components

**The pushdown compiler (src/deparse.c).** `Postgres` and `ClickHouse` give each system's expressions and subqueries a
meaning: three-valued logic and element-by-element `ANY`/`ALL` loops on one side; a two-valued `IN`, and `has` and
`countEqual` that match NULL with NULL, on the other. They share the stored tables and the functions that are shippable;
of what ClickHouse does with any other function, a system column, a bare column name among several relations, or a
subquery it cannot run, nothing is assumed. `Walker` is `foreign_expr_walker` with its three contexts (only truth
matters, truth under one NOT, exact value) and the static proofs that a value is never NULL. `Deparser` is
`deparseExpr`, with its choice of native, cheap and guarded forms. `InFamily`, `Pushdown`, `Scopes`, `Bodies` and
`Correctness` prove that an accepted expression means the same on both sides, by induction over expressions and
correlated subquery bodies together. `Conditions` carries this to whole WHERE clauses and treats the shapes that are
accepted although they may differ. `DeparseState` is the deparser as it runs, with one `truth_ctx` flag set and
restored by hand.

**Join flattening (src/fdw.c, src/deparse.c).** `Relational` has lists of rows, joins and filters. `Joins` is what
`foreign_join_ok` computes for a tree of joins and the FROM clause that is sent for it. `JoinFlattening` proves that the
flattened query returns the plan's rows in the plan's order, hence the same multiset, if every column reference finds its
column. `JoinAliases` is the lookup of `s{N}.c{M}` aliases and `JoinNulling` says exactly when it finds them all.
`JoinInputs` says of the tree alone which conditions move up, which inputs are wrapped and which trees are sent, and
`FpInfo` is the fields that `foreign_join_ok` fills in place. `SemiAnti` has the exact condition under which SEMI and ANTI joins
are preserved, and `SemiTree` carries it to SEMI joins over join trees. `PushedQuery` puts both halves together: a
flattened query whose conditions the deparser wrote returns PostgreSQL's rows.

**Connections (src/connection.c, src/binary/).** `Leases` is the state machine of cached and private connections,
`ConnectionCache` the code that takes its steps. `Packets` has the steps of the native protocol on one connection, and
`BinaryDriver` the code that takes them, with its linked list of open INSERTs. `WireLease` is leases over connections
that take those same steps as they are used. `Lists` is what the two unlinking loops share.

**Settings (src/option.c, src/kv_list.c, src/settings.c, both drivers).** `OptionGrammar` says how a settings string
reads, `OptionParser` is the in-place tokenizer, `KvList` the packed list and its iterator, `SettingLayers` overlaying,
merging and version filtering, `DriverSettings` what each driver sends.

**Bytes and arithmetic (src/http.c, src/pglink.c, src/binary/select.c, src/deparse.c).** `HttpStream` is the response
buffer with its tail, `Escaping` the two layers of string quoting, `PartialStats` the partial aggregate states.

## What does not hold, and exactly when it does

- `EXISTS (SELECT count(*) FROM t WHERE t.x = o.x)` is sent as `EXISTS (SELECT 1 FROM t WHERE t.x = o.x)`, because the
  select list of an EXISTS body is replaced by a constant while the walker does not refuse an aggregate in it. Where no
  row of `t` matches, PostgreSQL says TRUE and ClickHouse FALSE (`Conditions.CountExistsDiverges`). An accepted EXISTS
  agrees on all data exactly when it is not over an aggregate without GROUP BY and HAVING (`Conditions.ExistsExactly`).
  Only correlated subqueries are at issue: the planner hands over an uncorrelated one as a Param
  (test/expected/subplan_pushdown.out:55-75).
- A scalar aggregate subquery with a HAVING that drops its only row has no row. The comment at src/deparse.c:1450-1470
  argues that a scalar aggregate always has one. The two sides agree exactly when HAVING holds of all the body's rows
  together, or ClickHouse answers NULL for no row (`Conditions.ScalarExactly`, `Conditions.ScalarHavingDiverges`).
- `x <> ALL (b.arr)` above an outer join that null-extends `b` is NULL on PostgreSQL, and TRUE on ClickHouse, which has
  no NULL array and reads an empty one. An operator over an array column agrees on all rows exactly when its relation
  cannot be null-extended, or when it is ANY in a context where NULL and FALSE are the same
  (`Conditions.ArrayColumnExactly`).
- A null-extended array column in the select list comes back as an empty array (`PushedQuery.DeliveredExactly`).
- A FULL join with a condition on one of its inputs wraps that input as a subquery, and the columns of the subquery are
  looked up by comparing whole Var nodes (src/deparse.c:6989-6990). From PostgreSQL 16 a Var above an outer join carries
  that join in `varnullingrels`, while the wrapped input's own target list does not, so that `SELECT a.x FROM (SELECT *
  FROM a WHERE ..) a FULL JOIN b ON ..` raises "unexpected expression in subquery output"
  (`JoinInputs.FullJoinExactly`). On PostgreSQL 14 and 15 every reference is found (`JoinNulling.UnmarkedFound`). From 16
  on a tree is deparsed without that error exactly when no column of a wrapped input is mentioned outside the ON clause
  of the FULL join that wraps it (`JoinNulling.FoundExactly`).
- An ANTI join is preserved for all data exactly when none of the conditions meant for WHERE is an equality of two
  columns, since those are moved into ON without a look at which side they are about (`SemiAnti.AntiExactly`).
- A SEMI join is preserved for all data exactly when ON decides every condition that stays in WHERE: the equalities in
  ON link each of its inner columns to an outer one, as `i.x` in `o.x = i.x AND o.y < i.x`, or a condition of the inner
  relation already asks the same (`SemiAnti.SemiExactly`). Both hold under SQL equality for the join keys and any
  meaning of the other operators.
- In a settings string, a blank between an unquoted value and its comma makes the comma the head of the next name
  (`OptionGrammar.BareSeparatorExactly`, `OptionGrammar.SwallowedComma`). The format described at src/option.c:404-416
  does not mention it.
- Over HTTP, a setting whose `name=value` has 512 bytes or more is cut without an error, and a name that holds `=`, which
  the tokenizer accepts, is split at it: `a=b 1` arrives as `a` with value `b=1` (`DriverSettings.FitsExactly`). Such a
  name also slips past the test for the driver's own settings (`DriverSettings.EqualsSlips`). The driver's own settings
  win, and each name arrives once, exactly when no user setting that is sent is of either kind
  (`DriverSettings.HttpOwnWins`).
- An explicit lease release outside the lease's transaction, or with a query still in flight, breaks the invariant in
  exactly the cases that `Leases.ReleaseSafeExactly` and `WireLease.ReleaseQuietExactly` name; the end of a transaction
  in those of `WireLease.EndQuietExactly`.

## Model

| member | source | states |
|---|---|---|
| `InFamily.LoopByCounts` | src/deparse.c:5551-5600 | PostgreSQL's loop over array elements, with its early exit and its NULL memory, is decided by three counts: deciding elements, NULL elements, length |
| `InFamily.ScalarByCounts` | src/deparse.c:5551-5600 | the same for the whole operator, NULL probe included |
| `InFamily.MatchCountDecides` | src/deparse.c:5479-5512 | the number the guarded form tests is positive exactly when some element decides |
| `InFamily.GuardedArrayOpExact` | src/deparse.c:5513-5549 | the guarded CASE equals PostgreSQL's value for all four operators, every probe and every array, NULLs included |
| `InFamily.CheapArrayOpExact` | src/deparse.c:5643-5690 | the cheap form is exact whenever the array is empty, or array and probe hold no NULL |
| `InFamily.NativeInExact` | src/deparse.c:5630-5650 | native IN and NOT IN are exact on NULL-free lists; with a NULL in the list IN is still TRUE-equivalent for = ANY, while NOT IN is TRUE where <> ALL is NULL |
| `InFamily.InRowsCases` | src/deparse.c:3877-3899 | x IN rows is TRUE, FALSE or NULL in exactly the listed cases of match, emptiness and NULLs |
| `InFamily.GuardedNotInTruth` | src/deparse.c:3900-3930 | the CASE / NOT IN / NOT EXISTS form is TRUE exactly when PostgreSQL's NOT (x IN S) is, in all four combinations of dropped guards |
| `Pushdown.NeverNullSound` | src/deparse.c:569-737 | an expression proved never NULL evaluates to a value on every row that keeps the declared constraints |
| `Pushdown.NeverNullExactly` | src/deparse.c:569-737 | among columns of the scan, constants and operators over them, the proof finds exactly the expressions that no two systems with these constraints make NULL |
| `Pushdown.NeverNullMonotone` | src/deparse.c:569-628 | the proof survives when the deparser runs it with more relations than the walker did |
| `Pushdown.CrossHolds` | src/deparse.c:3755-3796 | NOT NULL columns hold values in every row of a subquery's FROM list |
| `Pushdown.BodyRowsOk` | src/deparse.c:3755-3796 | so the body's rows meet what the never-NULL proof assumes |
| `Scopes.OuterStable` | src/deparse.c:3561-3571 | an outer expression inlined into a body means the same whatever the body's row |
| `Scopes.QueryStable` | src/deparse.c:3798-3875 | a subquery's answer does not depend on an enclosing subquery row |
| `Scopes.DeparsedOuterOnly` | src/deparse.c:2985-3025 | what is deparsed in the outer scope names outer columns only |
| `Bodies.RowsAgree` | src/deparse.c:3698-3717 | equal quals keep equal rows of the FROM list |
| `Bodies.GroupsAgree` | src/deparse.c:3798-3875 | equal keys and HAVING give equal groups, in order |
| `Bodies.OutputsAgree` | src/deparse.c:3798-3875 | and an equal target gives equal output lists |
| `Bodies.NullProbeAsks` | src/deparse.c:3877-3899 | the null-probe query has a row exactly when the body outputs a NULL |
| `Correctness.Correct` | src/deparse.c:917-1415 | for every expression, row and context, over two systems that share nothing but the shippable functions and aggregates and the stored tables: accepted as exact, the deparsed form has PostgreSQL's value; accepted for truth, one is TRUE exactly when the other is |
| `Correctness.CorrectNot` | src/deparse.c:5704-5755 | NOT is right in every context, in particular over an operand accepted only as negated, where the guarded form may be used |
| `Correctness.CorrectNotIn` | src/deparse.c:3900-3930 | where the guarded form is chosen, it is TRUE on the deparsed body exactly when PostgreSQL's NOT IN is |
| `Correctness.CorrectAny` | src/deparse.c:3649-3697 | x IN (SELECT ..) is TRUE-equivalent in a truth context and exact where the plain form was demanded |
| `Correctness.CorrectSubPlan` | src/deparse.c:1544-1735 | EXISTS, scalar and IN subqueries that pass the shippability test agree, and the server that is sent them can run them |
| `Correctness.CorrectCase` | src/deparse.c:6464-6525 | CASE takes the same branch from every position on, whatever NULLs its conditions give |
| `Correctness.CorrectArrayOp` | src/deparse.c:5602-5690 | whichever of the three forms is chosen agrees in the context it was accepted in, null-extended array columns under ANY included |
| `Correctness.CorrectAgg` | src/deparse.c:6056-6180 | an accepted aggregate over a group sees the same inputs, FILTER included, and is one that ClickHouse has |
| `Correctness.QueryAgrees` | src/deparse.c:3798-3875 | a correlated body returns the same list of values on both sides |
| `Correctness.BodyParamAgrees` | src/deparse.c:3540-3571 | a Param of the body, replaced by the outer expression it stands for, has the executor's value |
| `Correctness.NullProbeAgrees` | src/deparse.c:3798-3875 | the null probe of a deparsed body finds a row exactly when the body outputs a NULL on PostgreSQL |
| `Correctness.ArrNullsSound` | src/deparse.c:740-783 | an array classified as empty is empty, and one classified as NULL-free is not NULL and holds no NULL |
| `Correctness.OutputHasNoNull` | src/deparse.c:813-852 | a body whose output is proved never NULL outputs no NULL |
| `Correctness.PlainStaysPlain` | src/deparse.c:855-886 | where the walker settled on plain NOT IN, the deparser settles on it too |
| `Correctness.ScalarRow` | src/deparse.c:1450-1470 | an aggregate without GROUP BY outputs one row, or none if HAVING fails on all its rows together |
| `Conditions.WhereKeepsRows` | src/deparse.c:2281-2312 | a pushed-down list of conditions, over one relation or several, keeps a row exactly when PostgreSQL's does, also when a condition was accepted for one input of a join and sent with the join; bare column names are used only where they tell columns apart |
| `Conditions.NotInAcceptedExactly` | src/deparse.c:1711-1719 | an IN test is accepted where its value is observable exactly if neither side can be NULL, and NOT IN in a truth context also if the body has one output per row |
| `Conditions.BareExistsAnswers` | src/deparse.c:3718-3730 | EXISTS over a bare aggregate is TRUE on PostgreSQL, and on ClickHouse exactly if some row passes the quals |
| `Conditions.ExistsExactly` | src/deparse.c:1544-1600 | an accepted EXISTS agrees on all data exactly when its body is not an aggregate without GROUP BY and HAVING |
| `Conditions.ScalarExactly` | src/deparse.c:1544-1600 | a scalar aggregate agrees exactly when HAVING holds of all its rows together, or ClickHouse answers NULL for no row |
| `Conditions.CountAccepted` | src/deparse.c:1544-1600 | the walker accepts both diverging queries, correlated as the planner leaves them, even where the exact value is seen |
| `Conditions.CountExistsDiverges` | src/deparse.c:3718-3730 | the EXISTS query differs when no row matches |
| `Conditions.ScalarHavingDiverges` | src/deparse.c:1450-1470 | the scalar query with HAVING is NULL on PostgreSQL and not on ClickHouse when no row matches and ClickHouse has another answer for none |
| `Conditions.ExtendedArrayAnswers` | src/deparse.c:5513-5549 | on a null-extended array column the operator is NULL on PostgreSQL, and FALSE for ANY and TRUE for ALL on ClickHouse |
| `Conditions.ArrayColumnExactly` | src/deparse.c:5602-5690 | an accepted operator over an array column agrees on all rows exactly when the relation cannot be null-extended, or for ANY in a truth context |
| `DeparseState.GuardedOnlyWhereNegated` | src/deparse.c:5717-5742 | the guarded NOT IN is chosen only where the walker visited the subquery as negated |
| `DeparseState.Context.DeparseExpr` | src/deparse.c:2870-2975 | leaves the flag as it found it, has it up only where the walker was in the truth context, and emits what the pure translation emits |
| `DeparseState.Context.DeparseNot` | src/deparse.c:5704-5755 | the same for NOT, including its look at the operand before lowering the flag |
| `DeparseState.Context.DeparseCase` | src/deparse.c:6464-6525 | the same for CASE, whose conditions raise the flag and whose results restore it |
| `DeparseState.Context.DeparseArrayOp` | src/deparse.c:5602-5690 | the same for array operators, which read the flag before lowering it |
| `DeparseState.Context.DeparseSubPlanQuery` | src/deparse.c:3798-3875 | the same for a subquery body, whose quals and HAVING raise the flag |
| `DeparseState.Context.DeparseGuardedNotIn` | src/deparse.c:3900-3930 | the same for the guarded NOT IN |
| `Relational.InnerPull` | src/fdw.c:2215-2230 | conditions on either input of an inner join may all be tested in ON or WHERE |
| `Relational.LeftPull` | src/fdw.c:2231-2247 | for an outer join, those of the nullable side in ON and those of the preserved side in WHERE |
| `JoinFlattening.PullUp` | src/fdw.c:2180-2247 | one join whose references are found, for all of INNER, LEFT, RIGHT and FULL: the flattened form equals the join of the filtered inputs |
| `JoinFlattening.WrappedRep` | src/deparse.c:2613-2689 | an input wrapped as a subquery holds the same values under its s{N}.c{M} names |
| `JoinFlattening.FoundBelow` | src/deparse.c:6916-6972 | if every reference of a join is found, so is every reference of its inputs, pulled-up conditions included |
| `JoinFlattening.Flattened` | src/fdw.c:2277-2297 | for every tree whose references are found, the query that is sent returns the plan's remote rows, in order, column by column under their names |
| `JoinFlattening.PlanSplits` | src/fdw.c:2137-2155 | the plan's own filters split into those sent and those kept local |
| `JoinFlattening.JoinPushdown` | src/deparse.c:2429-2607 | so an accepted tree that is deparsed without error, with local conditions applied to what comes back, yields the plan's rows |
| `JoinAliases.LowerExactly` | src/fdw.c:2287-2296 | lower_subquery_rels holds exactly the base relations below a wrapped input |
| `JoinAliases.EntriesCover` | src/deparse.c:2429-2607 | the entries of the flattened FROM clause cover the base relations, and no others |
| `JoinAliases.AliasOfEntry` | src/deparse.c:6916-6972 | a column below a wrapped input gets the outermost wrapping subquery's number and the position of that very reference in its target list, or an error |
| `JoinAliases.AliasIsName` | src/deparse.c:6974-6999 | the alias found is the name under which the query's rows hold the column, and none is found exactly if the reference cannot be named |
| `JoinNulling.AliasFoundExactly` | src/deparse.c:6989-6990 | with the target list marked as PostgreSQL 16 marks it, the lookup succeeds exactly for a column that the wrapped input outputs, referenced with the nulling joins of that input |
| `JoinNulling.UnmarkedFound` | src/deparse.c:6974-6999 | without nulling marks, as before version 16, every reference of every tree is found |
| `JoinNulling.RemoteMarked` | src/fdw.c:2215-2247 | pulling a condition up takes it across no join that nulls its columns, so its marks stay right |
| `JoinNulling.AboveMissing` | src/deparse.c:6916-6972 | a reference above the FULL join that wraps its relation is not found |
| `JoinNulling.FoundExactly` | src/deparse.c:6974-6999 | with nulling marks, every reference is found exactly when no column of a wrapped input is mentioned outside the ON clause of the FULL join that wraps it |
| `JoinInputs.FiltersExactly` | src/fdw.c:2215-2297 | the conditions that a relation passes upwards are those that PostgreSQL's plan applies to its complete rows, said of the tree alone |
| `JoinInputs.WrappedExactly` | src/fdw.c:2287-2296 | an input is wrapped exactly if it is an input of a FULL join and the plan filters it |
| `JoinInputs.UnwrappedExactly` | src/fdw.c:2287-2296 | no relation is below a wrapped input exactly if no FULL join of the tree has a filtered input |
| `JoinInputs.UnwrappedFound` | src/deparse.c:6974-6999 | then no entry is wrapped and every reference is found, with nulling marks or without |
| `JoinInputs.UnfilteredInputs` | src/fdw.c:2277-2297 | as for outer joins of relations without conditions and without restrictions pushed down |
| `JoinInputs.FullJoinExactly` | src/fdw.c:2277-2297 | a FULL join with one output column is accepted, and from version 16 on raises exactly if its first input has conditions |
| `JoinInputs.FullJoinBefore` | src/fdw.c:2277-2297 | before, it never raises |
| `JoinInputs.OnClausesExactly` | src/fdw.c:2137-2155 | the ON clauses are the restrictions of an outer join that were not pushed down to it |
| `JoinInputs.RestClausesExactly` | src/fdw.c:2137-2155 | the others are filters, split by whether they can be sent |
| `JoinInputs.PushdownExactly` | src/fdw.c:2100-2155 | a join is pushed down exactly if everything below it and its own ON clauses can be sent |
| `FpInfo.ExtractJoinEquals` | src/fdw.c:1977-1992 | the loop moves exactly the simple equalities, each list in order |
| `FpInfo.SplitRestrictions` | src/fdw.c:2137-2155 | the loop sorts clauses into ON, remote and local, or refuses the join |
| `FpInfo.ForeignJoinOk` | src/fdw.c:2039-2300 | the fields it fills are the ones that the flattening theorem and the exact statements of JoinInputs are about |
| `FpInfo.PullUpConditions` | src/fdw.c:2215-2247 | the same for its switch on the join type |
| `SemiAnti.AntiPull` | src/fdw.c:2249-2275 | an ANTI join that moves no condition into ON is preserved |
| `SemiAnti.AntiExactly` | src/fdw.c:1959-1975 | under SQL equality, an ANTI join is preserved for all data exactly when it moves none |
| `SemiAnti.AntiKeepsFailing` | src/fdw.c:2249-2275 | otherwise an outer row of NULLs fails the moved equality and is kept |
| `SemiAnti.SemiPull` | src/fdw.c:2249-2275 | a SEMI join is preserved if ON decides every condition left in WHERE |
| `SemiAnti.RepSound` | src/fdw.c:1977-1992 | columns linked through the extracted equalities hold one value in every row that satisfies them |
| `SemiAnti.ClauseDecided` | src/fdw.c:2249-2275 | a condition that ON decides has the same truth on every match of an outer row |
| `SemiAnti.SemiExactly` | src/fdw.c:2249-2275 | under SQL equality, a SEMI join is preserved for all data exactly when ON decides every condition left in WHERE |
| `SemiAnti.SemiTestsOneMatch` | src/fdw.c:2249-2275 | otherwise two inner rows that differ only in the columns linked with an undecided one give a match that fails while another would pass |
| `SemiTree.NamedDecided` | src/deparse.c:2985-3025 | a condition that ON decides is still decided under the names of the flattened query |
| `SemiTree.SemiPushdown` | src/fdw.c:2249-2275 | a SEMI join over any two join trees, its remaining conditions decided and its references found, returns the outer rows of the plan in order |
| `SemiTree.AntiPushdown` | src/fdw.c:2249-2275 | an ANTI join that moves no condition into ON returns the rows of the plan in order |
| `PushedQuery.RowOfLooked` | src/deparse.c:2985-3025 | a condition sees the scalar values of the joined row, in which a relation is null-extended as a whole |
| `PushedQuery.ClauseAgrees` | src/deparse.c:2281-2312 | a deparsed condition, array operators included, has PostgreSQL's truth on every row in which only the relations it is told of are null-extended |
| `PushedQuery.AllNamed` | src/deparse.c:2985-3025 | every condition of the plan is printed in an ON clause, or in the WHERE clause of the query or of a wrapped input, over relations that include those it was accepted for, its columns qualified wherever several relations or a subquery are around |
| `PushedQuery.PlanHeld` | src/deparse.c:569-628 | in every row of the plan a NOT NULL column or an array is missing only where a join below null-extended its relation, and then all of that relation is |
| `PushedQuery.PlanAgrees` | src/fdw.c:2180-2247 | so the plan keeps and joins the same rows whichever side evaluates the pushed-down conditions |
| `PushedQuery.PushedDown` | src/deparse.c:2429-2607 | end to end, for a tree deparsed without error: the query as sent, conditions deparsed and joins flattened, returns the rows of the remote part of the plan in order; with the local conditions on top they are the plan's rows |
| `PushedQuery.DeliveredExactly` | src/deparse.c:2429-2607 | a column comes back as in the plan's row exactly if it is not a null-extended array |
| `Leases.Exclusive` | src/connection.c:229-264 | no two live leases share a connection |
| `Leases.GetLeaseKeeps` | src/connection.c:127-264 | getting a lease keeps the invariant, and what it hands out is open, not broken, made for that user mapping, and not stale |
| `Leases.GetLeaseExactly` | src/connection.c:127-264 | when a lease is granted and on which connection: the cached one if it is idle, unbroken and current, else a new one, private while the cached one is in use |
| `Leases.StaleExactly` | src/connection.c:323-345 | over every run, a connection is stale exactly if an invalidation came with hash 0, with the hash of the server it was made for, or with that of its user mapping |
| `Leases.NoStaleGrant` | src/connection.c:323-345 | so after every run, no lease is granted on a connection made before such an invalidation |
| `Leases.GivenBack` | src/connection.c:266-296 | a cached connection given back is granted to the next lease of its user mapping |
| `Leases.ReleaseCachedKeeps` | src/connection.c:266-296 | releasing a live cached lease keeps it |
| `Leases.ReleasePrivateKeeps` | src/connection.c:266-296 | releasing a live private lease closes its connection once, unlinks its one cell, and keeps it |
| `Leases.ReleaseStaleKeeps` | src/connection.c:56-70 | a stale lease that finds nothing busy releases nothing |
| `Leases.ReleaseSafeExactly` | src/connection.c:266-296 | an explicit release is safe exactly when the lease is current, or private, or its entry is idle |
| `Leases.InvalidateKeeps` | src/connection.c:323-345 | an invalidation keeps the invariant: an entry is flagged exactly if what its connection was made for has been invalidated since |
| `Leases.XactEndKeeps` | src/connection.c:355-388 | after transaction end nothing is private, busy or live, and of the cached connections exactly the stale ones are gone; what it closes was open and has one owner |
| `Leases.StepKeeps` | src/connection.c:127-388 | every step keeps the invariant: one owner per open connection, busy exactly under one live lease, private list equal to the live private leases |
| `Leases.AlwaysInv` | src/connection.c:127-388 | so it holds after every run of enabled steps |
| `Leases.LiveOpen` | src/connection.c:229-264 | the connection of a live lease is open |
| `Leases.LiveExactly` | src/connection.c:266-296 | a live lease ends exactly with its own release, its callback or the transaction |
| `Leases.NoPullOut` | src/connection.c:171-195 | no step but its own release and transaction end closes or changes a live lease's connection |
| `Leases.NeverPulledOut` | src/connection.c:171-195 | the same over whole runs |
| `ConnectionCache.Backend.GetConnectionEntry` | src/connection.c:127-227 | the code takes the machine's step, dropping an idle invalidated or broken connection first |
| `ConnectionCache.Backend.GetScanConnection` | src/connection.c:229-264 | the code takes the machine's step |
| `ConnectionCache.Backend.ReleaseScanConnection` | src/connection.c:266-296 | the code takes the machine's step; the search unlinks the first matching cell |
| `ConnectionCache.Backend.ReleaseLease` | src/connection.c:63-70 | a lease of an earlier transaction does nothing |
| `ConnectionCache.Backend.InvalCallback` | src/connection.c:323-345 | the loop takes the machine's step: it flags the entries that the hash hits, and no others |
| `ConnectionCache.Backend.XactCallback` | src/connection.c:355-388 | both loops close what the machine closes, each connection while open |
| `ConnectionCache.Backend.Perform` | src/connection.c:127-388 | every step of the code on a state that meets the invariant is enabled and keeps it |
| `BinaryDriver.Connection.Drain` | src/binary/binary.c:49-85 | reads the answer to its end; the connection is broken unless that end is END_OF_STREAM |
| `BinaryDriver.Connection.DetachInserts` | src/binary/insert.c:63-69 | every open handle loses its connection, and the list is empty |
| `BinaryDriver.Response.PumpOne` | src/binary/select.c:55-125 | one packet: the connection takes the machine's pump step and breaks exactly on a lost transport, an exception or an invalid block; the error is set exactly then or on a cancel; what was read and not yet handed out is staged |
| `BinaryDriver.Response.PumpUntilBlock` | src/binary/select.c:284-286 | the loop takes pump steps up to a block, an error or the end |
| `BinaryDriver.Response.FetchNextBlock` | src/binary/select.c:337-352 | blocks come out in order; none without an error means that the answer ended cleanly and every block was handed out |
| `BinaryDriver.Response.ReadBlocks` | src/binary/select.c:318-335 | reading to the end yields all blocks, and no error exactly if the query was sent and never canceled and no packet of the answer fails it |
| `BinaryDriver.Response.Free` | src/binary/select.c:143-164 | takes the machine's free step: an unfinished answer is drained, or the connection is broken, and exactly when the cancel was not sent, the drain raised or the answer did not end cleanly |
| `BinaryDriver.SimpleQuery` | src/binary/select.c:264-290 | from a boundary, a query leaves a response in step with the unread answer, or, if it was not sent, an error and a broken connection |
| `BinaryDriver.BeginInsert` | src/binary/insert.c:98-185 | takes the machine's begin step: returns a linked handle exactly if the query was sent, the header came and the writer was built; otherwise it raises, with the connection at a boundary or broken, and says which |
| `BinaryDriver.ReceiveInitialBlock` | src/binary/insert.c:31-61 | stops right behind the header block if one comes before an exception or the end, else breaks the connection |
| `BinaryDriver.InsertHandle.FlushBlock` | src/binary/insert.c:202-217 | fails on a detached handle without touching a connection |
| `BinaryDriver.InsertHandle.Finalize` | src/binary/insert.c:224-260 | takes the machine's finalize step: succeeds exactly if the last block was sent and the answer ended cleanly; runs once |
| `BinaryDriver.ReleaseInsert` | src/binary/insert.c:269-286 | takes the handle, and no other, off its connection's list, and breaks the connection if it was not finalized |
| `BinaryDriver.Unlink` | src/binary/insert.c:278-284 | the pointer walk removes exactly that handle |
| `BinaryDriver.Relink` | src/binary/insert.c:278-284 | rewriting one link keeps the links of the others |
| `WireLease.FreeKeeps` | src/binary/select.c:143-164 | closing a cursor leaves its connection at rest or broken |
| `WireLease.FinalizeKeeps` | src/binary/insert.c:224-260 | finalizing an INSERT keeps the wire invariant |
| `WireLease.ReleaseHandleKeeps` | src/binary/insert.c:269-286 | releasing a handle keeps the list exact; unfinalized, it leaves the connection broken |
| `WireLease.ResyncKeeps` | src/binary/connection.c:377-385 | closing connections detaches their handles, so no handle points at a closed one |
| `WireLease.AdvanceKeeps` | src/binary/select.c:55-164 | every step of leases, SELECTs and INSERTs, as the driver takes them, keeps: nothing in flight means nothing unread; in flight and unbroken means leased; each list is exactly its connection's unreleased handles |
| `WireLease.WireAlways` | src/fdw.c:1394-1402 | so it holds after every run of enabled steps, in which cursors are closed before their lease is released |
| `WireLease.HandoutAtBoundary` | src/connection.c:189-195 | after every such run, a lease is granted on an open, unbroken, current connection with nothing in flight and nothing unread |
| `WireLease.ReleaseQuietExactly` | src/fdw.c:1394-1402 | giving back a cached lease keeps the invariant exactly when nothing is in flight or the connection is broken |
| `WireLease.EndQuietExactly` | src/connection.c:355-388 | transaction end keeps it exactly when every connection that stays open has nothing in flight or is broken |
| `OptionGrammar.ParsePrint` | src/option.c:404-416 | parsing undoes printing, for any mix of quoted and escaped unquoted values and any blanks around commas, given no blank between an unquoted value and its comma |
| `OptionGrammar.ItemThenComma` | src/option.c:459-476 | which text follows a setting after its comma, in every case |
| `OptionGrammar.ItemThenOther` | src/option.c:459-476 | anything but a comma after a closed value is the missing-comma error |
| `OptionGrammar.SeparatorExactly` | src/option.c:535-553 | so the text after a setting is read on exactly if it starts with a comma |
| `OptionGrammar.OpenQuote` | src/option.c:503-533 | a quoted value that is not closed is the unterminated error |
| `OptionGrammar.NoValue` | src/option.c:494-502 | an unquoted value may not be empty |
| `OptionGrammar.LeadingCommaShows` | src/option.c:436-452 | a list with a comma glued to its head never parses like the list without it |
| `OptionGrammar.BareSeparatorExactly` | src/option.c:459-476 | the separator of an unquoted value works exactly when no blank precedes the comma |
| `OptionGrammar.SwallowedComma` | src/option.c:459-476 | `a 1 ,b 2` sets `a` and `,b` |
| `OptionParser.TakeName` | src/option.c:436-452 | the name is terminated in place and the input after it is untouched |
| `OptionParser.TakeBare` | src/option.c:456-502 | an unquoted value is stored in place behind the read cursor, or the comma is missing, as the grammar says |
| `OptionParser.TakeQuoted` | src/option.c:503-533 | the same for a quoted value |
| `OptionParser.ParseOptions` | src/option.c:417-559 | the in-place tokenizer returns what the grammar says of the original string, errors included: the write cursor never overtakes the read cursor |
| `KvList.NewKvList` | src/kv_list.c:39-79 | the size counted is the size filled, and the buffer is the packed list |
| `KvList.Iterator.Next` | src/kv_list.c:92-103 | steps over the pairs in order, each once, and never past the data |
| `KvList.ReadList` | src/settings.c:115-124 | iterating a packed list returns it; a missing list is empty |
| `KvList.RoundTrip` | src/kv_list.c:39-103 | printed, parsed in place, packed and iterated, every list of settings comes back |
| `SettingLayers.Overlay` | src/settings.c:79-100 | the nested loops compute the layered list |
| `SettingLayers.OverlayGet` | src/settings.c:79-100 | the upper layer wins with its last value per name, the lower shows through, and names stay unique |
| `SettingLayers.TableSettings` | src/settings.c:135-141 | a table's list has unique names, each with its last value |
| `SettingLayers.MergeSettings` | src/settings.c:147-168 | the nested loops compute the merged list |
| `SettingLayers.MergeStands` | src/settings.c:147-168 | name by name, merging is the join of a lattice in which a conflict absorbs |
| `SettingLayers.MergeAllStands` | src/settings.c:143-168 | over all tables: absent, agreed or in conflict exactly as the tables set no value, one value or several |
| `SettingLayers.OrderIndependent` | src/settings.c:143-168 | the same tables in any order agree on every name |
| `SettingLayers.DropUnsupported` | src/settings.c:174-225 | the loops keep exactly the settings that the server's version knows, by the table of versions |
| `SettingLayers.SupportedExactly` | src/settings.c:174-225 | a setting is kept exactly if the version is unknown or no row that names it asks for a later one |
| `SettingLayers.VersionOrder` | src/include/server_version.h:22-24 | versions are ordered by major, then minor number |
| `SettingLayers.DefaultsStand` | src/settings.c:54-60 | what a query is sent with where nothing overrides it |
| `SettingLayers.QuerySettings` | src/settings.c:227-280 | names are unique, and each has its session value, else the agreed table value, else the server's, else the default, unless the version does not support it |
| `DriverSettings.QueryParams` | src/http.c:299-321 | the loops send what survives the driver's own settings, then these |
| `DriverSettings.FitsExactly` | src/http.c:291-307 | a setting arrives whole exactly when it fits the buffer and its name holds no `=` |
| `DriverSettings.CutShort` | src/http.c:291-307 | what arrives of a setting that is too long |
| `DriverSettings.SplitName` | src/http.c:304 | what a name with `=` arrives as |
| `DriverSettings.HttpOwnWins` | src/http.c:222-232 | each name arrives once, with the driver's own value if it has one and else the user's, exactly when every user setting that is sent arrives whole |
| `DriverSettings.EqualsSlips` | src/http.c:222-232 | a user setting `t=x` is not taken for the driver's own `t`, and `t` arrives twice |
| `DriverSettings.BinaryQuerySettings` | src/binary/binary.c:92-131 | the array counted first is filled exactly, the driver's own settings last |
| `DriverSettings.OwnExactly` | src/binary/binary.c:98-128 | which settings of its own the driver sends, by version |
| `DriverSettings.BinaryOwnWins` | src/binary/binary.c:87-91 | with the last value deciding, the driver's own wins |
| `Bytes.SuffixSlides` | src/http.c:268-275 | keeping the newest bytes of each write keeps the newest bytes of all |
| `HttpStream.Stream.WriteCallback` | src/http.c:240-281 | every byte received is handed out or pending, in order; the tail is the last 4096 bytes streamed |
| `HttpStream.Stream.Pump` | src/http.c:381-437 | bytes received and still to arrive are conserved, and it fails only where the transfer does |
| `HttpStream.Stream.NextChunk` | src/http.c:440-466 | a chunk is everything pending; an empty one means that the whole body was handed out |
| `HttpStream.ReadBody` | src/http.c:440-466 | reading to the end yields the body, however it arrived, exactly if the transfer does not fail |
| `Escaping.EscapeString` | src/pglink.c:1297-1359 | the escaped string fits 2n + 1 bytes and holds no NUL |
| `Escaping.UnescapeEscape` | src/pglink.c:1297-1359 | unescaping restores every byte string |
| `Escaping.QuoteParameter` | src/binary/select.c:204-253 | the quoted parameter fits 4m + 3 bytes and holds no NUL |
| `Escaping.UnquoteParam` | src/binary/select.c:204-253 | it is read back whole and ends where it was closed |
| `Escaping.TwoLayers` | src/binary/select.c:195-253 | both layers together are undone, NUL bytes included |
| `Escaping.QuoteLiteralInto` | src/pglink.c:1366-1377 | the literal is written within 2n + 2 bytes after what the buffer held |
| `Escaping.UnquoteLiteral` | src/pglink.c:1361-1377 | a literal denotes its bytes and ends where it was meant to, exactly if no quote follows it |
| `Escaping.Fits` | src/pglink.c:1297-1304 | the three allocations are enough |
| `Escaping.NoNulSurvives` | src/pglink.c:1337-1340 | neither layer lets a NUL byte through |
| `Escaping.NoControlSurvives` | src/pglink.c:1297-1359 | nor the first one any control character that has a letter |
| `Escaping.ParamStaysWhole` | src/binary/select.c:204-253 | between its quotes a parameter holds no quote, NUL, backspace, tab or newline |
| `PartialStats.EmittedIsDeviations` | src/deparse.c:5971-5980 | the third slot is the sum of squared deviations from the mean |
| `PartialStats.EmittedIsAccumulated` | src/deparse.c:6015-6040 | the emitted state is what row-by-row accumulation gives |
| `PartialStats.CombineEmitted` | src/deparse.c:484-498 | combining two partitions' states gives the state of both together |
| `PartialStats.CombineAllRows` | src/deparse.c:484-498 | for every split into partitions, empty ones included, the combined state is that of all rows |
| `PartialStats.PartitionwiseIsLocal` | src/deparse.c:5982-6040 | so a partitionwise aggregate finalizes to what a local one would |
| `PartialStats.CombineAvgRows` | src/deparse.c:6001-6013 | the count and sum of two partitions combine to those of the whole |
| `PartialStats.AvgPartitionwiseIsLocal` | src/deparse.c:6001-6013 | over every split, the combined count and sum are what row-by-row accumulation gives |

## Left out

- SQL text: the deparser's output is a tree; parenthesisation, identifier quoting and casts that do not change a value
  are not modelled.
- Functions, operators, aggregates and types: their mapping tables, date, time-zone and regex rewriting are a set of
  shippable ones, whose meaning both systems share.
- CASE x WHEN v: only searched CASE is modelled.
- Grouped (upper) relations at the top level: aggregates appear in subquery bodies only, and window functions, DISTINCT,
  ORDER BY, LIMIT and grouping sets only as bodies that are refused.
- Array operands: one-dimensional constants, ARRAY[..] and columns; a stored array is never NULL.
- Never-NULL proof: the branch for PostgreSQL 16 and later, which reads the nulling relations off the Var; the walk over
  the range table of older versions is not part of the model.
- Correctness.Correct: assumes that a constant array with a NULL has a null bitmap, that NOT NULL constraints hold in
  the stored rows, and that the diverging shapes are absent; `Conditions` says exactly when they agree.
- Joins: placeholder expressions in an input's target list (src/fdw.c:2157-2178) are not modelled; a ClickHouse LEFT SEMI
  join is taken to return the first match.
- SemiAnti.AntiExactly: the necessity half speaks of one join over filtered inputs, not of a tree.
- SemiAnti.SemiExactly: likewise.
- JoinNulling.FoundExactly: takes references as marked by the joins below them in the tree; marks that the planner changes
  when it commutes outer joins are not modelled.
- PushedQuery.PushedDown: array columns are read by array operators only, and the tables that the conditions' subqueries
  read are given apart from the joined ones.
- SettingLayers.QuerySettings: the table of settings by version is a parameter.
- Connections: numbered and never reused, so an address that a new connection takes over from a closed one is not
  modelled; neither is the wrap-around of the 64-bit generation counter.
- BinaryDriver.SimpleQuery: starts behind the sending of settings and parameters; the transport, its deadline and the
  cancel check are inputs.
- WireLease.WireAlways: relies on cursors being closed, and INSERTs finalized or given up, before their lease is released
  and before the transaction ends.
- Settings: names and values are sequences of characters; isspace is that of the C locale; the URL encoding that libcurl
  applies is not modelled.
- HttpStream.Stream.WriteCallback: memory never runs out and sizes do not overflow.
- The search for a late exception in the HTTP tail (src/http.c:468-505), because it is a plain substring search.
- PartialStats.CombineAllRows: over the reals and non-NULL inputs; rounding, infinities and the NULL that ClickHouse
  returns for a sum over no rows of a Nullable column are not modelled.
- Vector types, endpoints, EXPLAIN output, IMPORT FOREIGN SCHEMA, option validation, costs and path creation.
