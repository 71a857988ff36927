/** The promises of row-level security, for every statement over plain tables. */
module RlsTheorems {
  import opened Database
  import opened RowLevelSecurity
  import opened RlsProofs
  import opened RlsJoins

  // ---- The targets ----

  lemma {:induction false} LeavesAreNames(f: From, name: string)
    ensures name in Leaves(f) <==> name in Names(f)
  {
    match f
    case Table(_) =>
    case Join(left, right, _, _) =>
      LeavesAreNames(left, name);
      LeavesAreNames(right, name);
  }

  lemma {:induction false} AllLeavesAreNames(froms: seq<From>, name: string)
    ensures name in AllLeaves(froms) <==> name in RootNames(froms)
  {
    if froms != [] {
      AllLeavesAreNames(froms[..|froms| - 1], name);
      LeavesAreNames(froms[|froms| - 1], name);
    }
  }

  lemma {:induction false} ProtectedOnceIsGuarded(leaves: seq<string>)
    ensures forall name :: name in ProtectedOnce(leaves) <==> name in leaves && name in PROTECTED
    ensures forall i, j | 0 <= i < j < |ProtectedOnce(leaves)| :: ProtectedOnce(leaves)[i] != ProtectedOnce(leaves)[j]
  {
    if leaves != [] {
      ProtectedOnceIsGuarded(leaves[..|leaves| - 1]);
      assert leaves == leaves[..|leaves| - 1] + [leaves[|leaves| - 1]];
    }
  }

  /** The rewrite targets each protected table anywhere in the join trees exactly once. */
  lemma TargetsAreGuarded(froms: seq<From>)
    ensures forall name :: name in ProtectedOnce(AllLeaves(froms)) <==> name in Guarded(RootNames(froms))
    ensures var targets := ProtectedOnce(AllLeaves(froms));
            forall i, j | 0 <= i < j < |targets| :: targets[i] != targets[j]
  {
    ProtectedOnceIsGuarded(AllLeaves(froms));
    forall name ensures name in AllLeaves(froms) <==> name in RootNames(froms) {
      AllLeavesAreNames(froms, name);
    }
  }

  /** A page starts after `offset` rows, takes the rows in order, and ends with them or after `limit`. */
  lemma PageRows(rows: seq<Env>, offset: nat, limit: Option<nat>)
    ensures var page := Page(rows, offset, limit);
            && (forall i | 0 <= i < |page| :: offset + i < |rows| && page[i] == rows[offset + i])
            && (offset + |page| < |rows| ==> limit == Some(|page|))
            && (limit.Some? ==> |page| <= limit.value)
  {
  }

  /** The joined row has a row of the table, and it carries this tenant id. */
  predicate OwnedIn(env: Env, table: string, tenant: string) {
    table in env && "tenant_id" in env[table] && env[table]["tenant_id"] == Str(tenant)
  }

  /** Whatever a tenant's rewritten query finds, every row of datasets and tasks in it is the tenant's own; and a
      query over other tables alone finds what it always found. */
  lemma TenantSeesOwnRows(q: Statement, db: Tables, tenant: string, env: Env)
    requires q.Select?
    ensures env in Matching(Rewrite(q, tenant), db) ==>
              && (Mentions(q, "dataset") ==> OwnedIn(env, "dataset", tenant))
              && (Mentions(q, "task") ==> OwnedIn(env, "task", tenant))
    ensures !HasTenantRows(q) ==> Query(Rewrite(q, tenant), db) == Query(q, db)
  {
    FilteredIff(q);
    var conditions := TenantConditions(Targets(q), tenant);
    if !HasTenantRows(q) {
      assert q.wheres + conditions == q.wheres;
    }
    if env in Matching(Rewrite(q, tenant), db) {
      FilterMember(RootRows(q.froms, db), AllHold(q.wheres + conditions), env);
      AndHolds(q.wheres, conditions, env);
      TenantConditionsHold(Targets(q), tenant, env);
      TargetIffMentioned(q, "dataset");
      TargetIffMentioned(q, "task");
    }
  }

  lemma {:induction false} TenantConditionsHold(targets: seq<string>, tenant: string, env: Env)
    ensures AllHold(TenantConditions(targets, tenant))(env)
            <==> forall n | n in targets :: n in env && InTenant(env[n], tenant)
  {
    if targets != [] {
      var front, last := targets[..|targets| - 1], targets[|targets| - 1];
      TenantConditionsHold(front, tenant, env);
      AndHolds(TenantConditions(front, tenant), [TenantIs(last, tenant)], env);
      assert targets == front + [last];
      assert [TenantIs(last, tenant)][0](env) == TenantIs(last, tenant)(env);
    }
  }

  lemma AndHolds(a: seq<Condition>, b: seq<Condition>, env: Env)
    ensures AllHold(a + b)(env) <==> AllHold(a)(env) && AllHold(b)(env)
  {
    if AllHold(a + b)(env) {
      assert forall i | 0 <= i < |a| :: (a + b)[i] == a[i];
      assert forall i | 0 <= i < |b| :: (a + b)[|a| + i] == b[i];
    }
  }

  lemma RewrittenWhere(froms: seq<From>, wheres: seq<Condition>, tenant: string, env: Env)
    ensures AllHold(wheres + TenantConditions(ProtectedOnce(AllLeaves(froms)), tenant))(env)
            == (BelongsTo(Guarded(RootNames(froms)), tenant)(env) && AllHold(wheres)(env))
  {
    var targets := ProtectedOnce(AllLeaves(froms));
    AndHolds(wheres, TenantConditions(targets, tenant), env);
    TenantConditionsHold(targets, tenant, env);
    TargetsAreGuarded(froms);
  }

  // ---- SELECT ----

  /** The rows a rewritten query works on are the original query's rows on the tenant's slice, less
      those in which an outer join left a protected table without a row.  This is for any mix of inner,
      left and full joins, any conditions and any data. */
  lemma RewriteIsSlice(q: Statement, db: Tables, tenant: string)
    requires q.Select? && ProperRoots(q.froms)
    ensures Matching(Rewrite(q, tenant), db)
            == Filter(Matching(q, Slice(db, tenant)), PresentIn(Guarded(RootNames(q.froms))))
  {
    var g := Guarded(RootNames(q.froms));
    var all, slice := RootRows(q.froms, db), RootRows(q.froms, Slice(db, tenant));
    var rewritten := AllHold(Rewrite(q, tenant).wheres);
    forall env | env in all ensures rewritten(env) == (BelongsTo(g, tenant)(env) && AllHold(q.wheres)(env)) {
      RewrittenWhere(q.froms, q.wheres, tenant, env);
    }
    FilterTwice(all, BelongsTo(g, tenant), AllHold(q.wheres), rewritten);
    SliceOfRoots(q.froms, db, tenant);
    var both := (env: Env) => PresentIn(g)(env) && AllHold(q.wheres)(env);
    FilterTwice(slice, PresentIn(g), AllHold(q.wheres), both);
    FilterTwice(slice, AllHold(q.wheres), PresentIn(g), both);
  }

  /** On one database the rewritten query sees exactly what the original sees on the slice if and only if, on
      the slice, every row the original keeps has a row of each protected table. */
  lemma RewriteExactIff(q: Statement, db: Tables, tenant: string)
    requires q.Select? && ProperRoots(q.froms)
    ensures Matching(Rewrite(q, tenant), db) == Matching(q, Slice(db, tenant))
            <==> forall env | env in Matching(q, Slice(db, tenant)) :: Guarded(RootNames(q.froms)) <= env.Keys
  {
    RewriteIsSlice(q, db, tenant);
    FilterAll(Matching(q, Slice(db, tenant)), PresentIn(Guarded(RootNames(q.froms))));
  }

  /** When no outer join of the tree can extend a protected table with NULLs, the rewritten query, with its
      ordering, offset and limit, gives exactly the original query's result on the tenant's slice: for
      instance over datasets left-joined with their indexes. */
  lemma PreservedQueryOnSlice(q: Statement, db: Tables, tenant: string)
    requires q.Select? && ProperRoots(q.froms) && Guarded(RootNames(q.froms)) <= PreservedRoots(q.froms)
    ensures Query(Rewrite(q, tenant), db) == Query(q, Slice(db, tenant))
  {
    var slice := Slice(db, tenant);
    RootsComplete(q.froms, slice);
    forall env | env in Matching(q, slice) ensures Guarded(RootNames(q.froms)) <= env.Keys {
      FilterMember(RootRows(q.froms, slice), AllHold(q.wheres), env);
    }
    RewriteExactIff(q, db, tenant);
  }

  /** Over inner joins this is always so. */
  lemma InnerQueryOnSlice(q: Statement, db: Tables, tenant: string)
    requires q.Select? && ProperRoots(q.froms) && forall f | f in q.froms :: InnerOnly(f)
    ensures Query(Rewrite(q, tenant), db) == Query(q, Slice(db, tenant))
  {
    InnerRootsPreserveAll(q.froms);
    PreservedQueryOnSlice(q, db, tenant);
  }

  /** The query of everything a tree joins, with every join condition true. */
  function Everything(froms: seq<From>): Statement {
    Select(LoosenedRoots(froms), [], (rows: seq<Env>) => rows, 0, None)
  }

  /** Otherwise some data tell the two apart. */
  lemma SomeDataDiffer(froms: seq<From>, name: string, tenant: string) returns (db: Tables)
    requires ProperRoots(froms) && name in Guarded(RootNames(froms)) - PreservedRoots(froms)
    ensures Query(Rewrite(Everything(froms), tenant), db) != Query(Everything(froms), Slice(db, tenant))
  {
    var q := Everything(froms);
    var full, env := RootsMissing(froms, name, tenant);
    db := Only(full, tenant);
    OnlyIsSlice(full, tenant);
    LoosenedRootsKeep(froms);
    FilterAll(RootRows(q.froms, db), AllHold([]));
    assert env in Matching(q, db);
    RewriteExactIff(q, db, tenant);
  }

  /** The rewrite is right on this data. */
  predicate RightOn(q: Statement, db: Tables, tenant: string)
    requires q.Select?
  {
    Query(Rewrite(q, tenant), db) == Query(q, Slice(db, tenant))
  }

  lemma RightOnAll(q: Statement, tenant: string)
    requires q.Select? && ProperRoots(q.froms) && Guarded(RootNames(q.froms)) <= PreservedRoots(q.froms)
    ensures forall db :: RightOn(q, db, tenant)
  {
    forall db ensures RightOn(q, db, tenant) {
      PreservedQueryOnSlice(q, db, tenant);
    }
  }

  lemma WrongOnSome(froms: seq<From>, tenant: string)
    requires ProperRoots(froms) && !(Guarded(RootNames(froms)) <= PreservedRoots(froms))
    ensures exists db :: !RightOn(Everything(froms), db, tenant)
  {
    var missing := Guarded(RootNames(froms)) - PreservedRoots(froms);
    assert missing != {};
    var name :| name in missing;
    var db := SomeDataDiffer(froms, name, tenant);
    assert !RightOn(Everything(froms), db, tenant);
  }

  /** For every shape of join tree: the rewrite is right on all data if and only if the tree preserves every
      protected table in it. */
  lemma RewriteExactOnTreeIff(froms: seq<From>, q: Statement, tenant: string)
    requires ProperRoots(froms) && q == Everything(froms)
    ensures (forall db :: RightOn(q, db, tenant)) <==> Guarded(RootNames(froms)) <= PreservedRoots(froms)
  {
    LoosenedRootsKeep(froms);
    if Guarded(RootNames(froms)) <= PreservedRoots(froms) {
      RightOnAll(q, tenant);
    } else {
      WrongOnSome(froms, tenant);
    }
  }

  /** Non-interference, outer joins included: two databases that agree on the tenant's rows and on the
      unprotected tables give the same result for every rewritten query. */
  lemma NonInterference(q: Statement, db: Tables, db': Tables, tenant: string)
    requires q.Select? && ProperRoots(q.froms)
    requires Slice(db, tenant) == Slice(db', tenant)
    ensures Query(Rewrite(q, tenant), db) == Query(Rewrite(q, tenant), db')
  {
    RewriteIsSlice(q, db, tenant);
    RewriteIsSlice(q, db', tenant);
  }

  /** With an outer join the two can differ: for a tenant whose one dataset has no task, the datasets
      left-joined with their tasks are one row on the slice and none after the rewrite. */
  lemma OuterJoinLosesUnmatchedRows() returns (q: Statement, db: Tables)
    ensures q.Select? && ProperRoots(q.froms)
    ensures |Matching(q, Slice(db, "a"))| == 1 && Matching(Rewrite(q, "a"), db) == []
  {
    var dataset, task := Table("dataset"), Table("task");
    var tree := Join(dataset, task, LeftOuter, Always());
    q := Select([tree], [], (rows: seq<Env>) => rows, 0, None);
    var row: Row := map["tenant_id" := Str("a")];
    db := map["dataset" := [row], "task" := []];
    var slice := Slice(db, "a");
    assert [tree][..0] == [] && RootNames([]) == {};
    assert Names(tree) == {"dataset", "task"} == RootNames([tree]);
    assert InTenant(row, "a");
    FilterStep([row], OwnRow("a"));
    assert Filter([row], OwnRow("a")) == [row];
    assert TableRows(slice, "dataset") == [row] && TableRows(slice, "task") == [];
    var env: Env := map["dataset" := row];
    assert FromRows(dataset, slice) == Scan("dataset", [row]) == [env] by {
      ScanCons("dataset", row, []);
      assert [row] + [] == [row];
    }
    assert FromRows(task, slice) == Scan("task", []) == [];
    var none: Env := map[];
    assert FromRows(tree, slice) == JoinLeft([env], [], Always(), true) == [env] by {
      JoinLeftCons(env, [], [], Always(), true);
      assert [env] + [] == [env];
    }
    assert RootRows([], slice) == [none];
    assert RootRows([tree], slice) == JoinLeft([none], [env], Always(), false) == [env] by {
      MatchesCons(none, env, [], Always());
      JoinLeftCons(none, [], [env], Always(), false);
      assert [none] + [] == [none] && [env] + [] == [env] && none + env == env;
      assert [tree][..|[tree]| - 1] == [];
    }
    assert Matching(q, slice) == [env] by {
      FilterStep([env], AllHold([]));
      assert [env][1..] == [] && [env] + [] == [env];
    }
    RewriteIsSlice(q, db, "a");
    assert "task" in Guarded(RootNames([tree])) && "task" !in env;
    assert !PresentIn(Guarded(RootNames([tree])))(env);
  }

  // ---- UPDATE and DELETE ----

  /** A statement on a protected table, rewritten, tests the tenant of the row besides its own WHERE. */
  lemma RewrittenWrite(table: string, wheres: seq<Condition>, tenant: string, row: Row)
    requires table in PROTECTED
    ensures AllHold(wheres + TenantConditions(ProtectedOnce([table]), tenant))(map[table := row])
            == (InTenant(row, tenant) && AllHold(wheres)(map[table := row]))
  {
    var env: Env := map[table := row];
    assert [table][..0] == [] && ProtectedOnce([]) == [];
    assert ProtectedOnce([table]) == [table];
    AndHolds(wheres, TenantConditions([table], tenant), env);
    TenantConditionsHold([table], tenant, env);
  }

  /** Position by position: a rewritten UPDATE changes a row of the tenant as the original would, and
      leaves every other row as it is. */
  lemma {:induction false} RewrittenUpdateRows(rows: seq<Row>, table: string, wheres: seq<Condition>,
                                               change: Row -> Row,
                                               tenant: string)
    requires table in PROTECTED
    ensures var guards := wheres + TenantConditions(ProtectedOnce([table]), tenant);
            var after := UpdateRows(rows, table, guards, change);
            && |after| == |rows|
            && forall i | 0 <= i < |rows| ::
                 after[i] == if InTenant(rows[i], tenant) && AllHold(wheres)(map[table := rows[i]]) then change(rows[i])
                             else rows[i]
  {
    if rows != [] {
      RewrittenUpdateRows(rows[1..], table, wheres, change, tenant);
      RewrittenWrite(table, wheres, tenant, rows[0]);
    }
  }

  /** A row that a rewritten UPDATE changes. */
  predicate Touched(row: Row, table: string, wheres: seq<Condition>, tenant: string) {
    InTenant(row, tenant) && AllHold(wheres)(map[table := row])
  }

  /** Of the rows an UPDATE changes, the tenant's stay with it, and none turns up with another tenant. */
  predicate StaysPut(rows: seq<Row>, table: string, wheres: seq<Condition>, change: Row -> Row, tenant: string,
                     other: string) {
    forall row | row in rows && Touched(row, table, wheres, tenant) :: InTenant(change(row), other) == (other == tenant)
  }

  /** The rows of `other` after a rewritten UPDATE, and what they would be were the tenant alone. */
  function RowsAfter(rows: seq<Row>, table: string, wheres: seq<Condition>, change: Row -> Row, tenant: string,
                     other: string): seq<Row> {
    Filter(UpdateRows(rows, table, wheres + TenantConditions(ProtectedOnce([table]), tenant), change), OwnRow(other))
  }

  function RowsAlone(rows: seq<Row>, table: string, wheres: seq<Condition>, change: Row -> Row, tenant: string,
                     other: string): seq<Row> {
    if other == tenant then UpdateRows(Filter(rows, OwnRow(tenant)), table, wheres, change)
    else Filter(rows, OwnRow(other))
  }

  lemma RowsAfterCons(row: Row, rest: seq<Row>, table: string, wheres: seq<Condition>, change: Row -> Row,
                      tenant: string, other: string)
    requires table in PROTECTED
    ensures var updated := if Touched(row, table, wheres, tenant) then change(row) else row;
            RowsAfter([row] + rest, table, wheres, change, tenant, other)
            == (if InTenant(updated, other) then [updated] else [])
              + RowsAfter(rest, table, wheres, change, tenant, other)
  {
    var guards := wheres + TenantConditions(ProtectedOnce([table]), tenant);
    RewrittenWrite(table, wheres, tenant, row);
    var updated := if AllHold(guards)(map[table := row]) then change(row) else row;
    assert ([row] + rest)[1..] == rest;
    FilterCons(updated, UpdateRows(rest, table, guards, change), OwnRow(other));
  }

  lemma RowsAloneCons(row: Row, rest: seq<Row>, table: string, wheres: seq<Condition>, change: Row -> Row,
                      tenant: string, other: string)
    ensures var updated := if Touched(row, table, wheres, tenant) then change(row) else row;
            RowsAlone([row] + rest, table, wheres, change, tenant, other)
            == (if InTenant(row, other) then [updated] else []) + RowsAlone(rest, table, wheres, change, tenant, other)
  {
    FilterCons(row, rest, OwnRow(other));
    if other == tenant && InTenant(row, other) {
      assert Filter([row] + rest, OwnRow(tenant)) == [row] + Filter(rest, OwnRow(tenant));
      UpdateCons(row, Filter(rest, OwnRow(tenant)), table, wheres, change);
    } else if InTenant(row, other) {
      assert !InTenant(row, tenant);
    } else {
      assert Filter([row] + rest, OwnRow(other)) == Filter(rest, OwnRow(other));
      assert [] + RowsAlone(rest, table, wheres, change, tenant, other)
             == RowsAlone(rest, table, wheres, change, tenant, other);
    }
  }

  /** The two agree if and only if every changed row stays put: rows can only leave the tenant, which makes
      its slice shorter, or turn up with another, which makes that one longer. */
  lemma {:induction false} UpdateOnOwnRows(rows: seq<Row>, table: string, wheres: seq<Condition>, change: Row -> Row,
                                           tenant: string, other: string)
    requires table in PROTECTED
    ensures var after, alone := RowsAfter(rows, table, wheres, change, tenant, other),
                                RowsAlone(rows, table, wheres, change, tenant, other);
            && (after == alone <==> StaysPut(rows, table, wheres, change, tenant, other))
            && (if other == tenant then |after| <= |alone| else |after| >= |alone|)
  {
    if rows != [] {
      var row, rest := rows[0], rows[1..];
      assert rows == [row] + rest;
      UpdateOnOwnRows(rest, table, wheres, change, tenant, other);
      RowsAfterCons(row, rest, table, wheres, change, tenant, other);
      RowsAloneCons(row, rest, table, wheres, change, tenant, other);
      StaysPutCons(row, rest, table, wheres, change, tenant, other);
      SameTail(if InTenant(if Touched(row, table, wheres, tenant) then change(row) else row, other)
               then [if Touched(row, table, wheres, tenant) then change(row) else row] else [],
               RowsAfter(rest, table, wheres, change, tenant, other),
               if InTenant(row, other) then [if Touched(row, table, wheres, tenant) then change(row) else row] else [],
               RowsAlone(rest, table, wheres, change, tenant, other));
    }
  }

  lemma StaysPutCons(row: Row, rest: seq<Row>, table: string, wheres: seq<Condition>, change: Row -> Row,
                     tenant: string, other: string)
    ensures StaysPut([row] + rest, table, wheres, change, tenant, other)
            <==> StaysPut(rest, table, wheres, change, tenant, other)
                 && (Touched(row, table, wheres, tenant) ==> InTenant(change(row), other) == (other == tenant))
  {
    assert forall r | r in [row] + rest :: r == row || r in rest;
    assert row in [row] + rest && forall r | r in rest :: r in [row] + rest;
  }

  lemma SameTail(a: seq<Row>, x: seq<Row>, b: seq<Row>, y: seq<Row>)
    requires |a| <= 1 && |b| <= 1
    ensures a == b ==> (a + x == b + y <==> x == y)
    ensures |a + x| == |a| + |x| && |b + y| == |b| + |y|
  {
    if a == b && a + x == b + y {
      assert x == (a + x)[|a|..] == (b + y)[|b|..] == y;
    }
  }

  lemma UpdateCons(row: Row, rest: seq<Row>, table: string, wheres: seq<Condition>, change: Row -> Row)
    ensures UpdateRows([row] + rest, table, wheres, change)
            == [if AllHold(wheres)(map[table := row]) then change(row) else row]
              + UpdateRows(rest, table, wheres, change)
  {
    assert ([row] + rest)[1..] == rest;
  }

  lemma {:induction false} DeleteOnOwnRows(rows: seq<Row>, table: string, wheres: seq<Condition>, tenant: string,
                                           other: string)
    requires table in PROTECTED
    ensures var guards := wheres + TenantConditions(ProtectedOnce([table]), tenant);
            Filter(DeleteRows(rows, table, guards), OwnRow(other))
            == if other == tenant then DeleteRows(Filter(rows, OwnRow(tenant)), table, wheres)
               else Filter(rows, OwnRow(other))
  {
    if rows != [] {
      var row, rest := rows[0], rows[1..];
      var guards := wheres + TenantConditions(ProtectedOnce([table]), tenant);
      DeleteOnOwnRows(rest, table, wheres, tenant, other);
      RewrittenWrite(table, wheres, tenant, row);
      FilterMaybe(!AllHold(guards)(map[table := row]), row, DeleteRows(rest, table, guards), OwnRow(other));
      FilterStep(rows, OwnRow(other));
      DeleteCons(row, Filter(rest, OwnRow(tenant)), table, wheres);
    }
  }

  lemma DeleteCons(row: Row, rest: seq<Row>, table: string, wheres: seq<Condition>)
    ensures DeleteRows([row] + rest, table, wheres)
            == (if AllHold(wheres)(map[table := row]) then [] else [row]) + DeleteRows(rest, table, wheres)
  {
    assert ([row] + rest)[1..] == rest;
  }

  lemma WriteTargets(stmt: Statement)
    requires stmt.Update? || stmt.Delete?
    ensures Targets(stmt) == ProtectedOnce([stmt.table])
  {
    assert [Table(stmt.table)][..0] == [] && AllLeaves([]) == [];
    assert AllLeaves([Table(stmt.table)]) == [stmt.table];
  }

  /** Replacing one protected table replaces its slice and no other table's. */
  lemma SliceOfReplaced(db: Tables, table: string, rows: seq<Row>, tenant: string)
    requires table in db && table in PROTECTED
    ensures Slice(db[table := rows], tenant) == Slice(db, tenant)[table := Filter(rows, OwnRow(tenant))]
  {
  }

  /** What a write does to its table's rows decides what it does to the slices. */
  lemma WriteFromRows(stmt: Statement, db: Tables, tenant: string, other: string, rows: seq<Row>)
    requires (stmt.Update? || stmt.Delete?) && stmt.table in PROTECTED && stmt.table in db
    requires Execute(Rewrite(stmt, tenant), db) == db[stmt.table := rows]
    ensures Slice(Execute(Rewrite(stmt, tenant), db), other)
            == (if other == tenant then Execute(stmt, Slice(db, tenant)) else Slice(db, other))
            <==> Filter(rows, OwnRow(other))
                 == if other == tenant then Execute(stmt, Slice(db, tenant))[stmt.table]
                   else Slice(db, other)[stmt.table]
  {
    SliceOfReplaced(db, stmt.table, rows, other);
    var target := if other == tenant then Execute(stmt, Slice(db, tenant)) else Slice(db, other);
    assert target == Slice(db, other)[stmt.table := target[stmt.table]];
    SameReplacement(Slice(db, other), stmt.table, Filter(rows, OwnRow(other)), target[stmt.table]);
  }

  lemma SameReplacement(db: Tables, table: string, a: seq<Row>, b: seq<Row>)
    ensures db[table := a] == db[table := b] <==> a == b
  {
    assert db[table := a][table] == a && db[table := b][table] == b;
  }

  /** A rewritten DELETE always, and a rewritten UPDATE if and only if the rows it changes stay put, does to
      the tenant's slice what the original does there, and to another tenant's slice nothing.  An UPDATE that
      assigns tenant_id passes the hook, and hands rows to the other tenant. */
  lemma WriteOnSlice(stmt: Statement, db: Tables, tenant: string, other: string)
    requires stmt.Update? || stmt.Delete?
    requires stmt.table in PROTECTED
    ensures Slice(Execute(Rewrite(stmt, tenant), db), other)
            == (if other == tenant then Execute(stmt, Slice(db, tenant)) else Slice(db, other))
            <==> stmt.Update? ==>
                   StaysPut(TableRows(db, stmt.table), stmt.table, stmt.wheres, stmt.change, tenant, other)
  {
    WriteTargets(stmt);
    if stmt.table in db {
      if stmt.Update? {
        UpdateOnSlice(stmt, db, tenant, other);
      } else {
        DeleteOnSlice(stmt, db, tenant, other);
      }
    }
  }

  lemma UpdateOnSlice(stmt: Statement, db: Tables, tenant: string, other: string)
    requires stmt.Update? && stmt.table in PROTECTED && stmt.table in db && Targets(stmt) == ProtectedOnce([stmt.table])
    ensures Slice(Execute(Rewrite(stmt, tenant), db), other)
            == (if other == tenant then Execute(stmt, Slice(db, tenant)) else Slice(db, other))
            <==> StaysPut(db[stmt.table], stmt.table, stmt.wheres, stmt.change, tenant, other)
  {
    var guards := stmt.wheres + TenantConditions(ProtectedOnce([stmt.table]), tenant);
    UpdateOnOwnRows(db[stmt.table], stmt.table, stmt.wheres, stmt.change, tenant, other);
    WriteFromRows(stmt, db, tenant, other, UpdateRows(db[stmt.table], stmt.table, guards, stmt.change));
  }

  lemma DeleteOnSlice(stmt: Statement, db: Tables, tenant: string, other: string)
    requires stmt.Delete? && stmt.table in PROTECTED && stmt.table in db && Targets(stmt) == ProtectedOnce([stmt.table])
    ensures Slice(Execute(Rewrite(stmt, tenant), db), other)
            == if other == tenant then Execute(stmt, Slice(db, tenant)) else Slice(db, other)
  {
    var guards := stmt.wheres + TenantConditions(ProtectedOnce([stmt.table]), tenant);
    DeleteOnOwnRows(db[stmt.table], stmt.table, stmt.wheres, tenant, other);
    WriteFromRows(stmt, db, tenant, other, DeleteRows(db[stmt.table], stmt.table, guards));
  }

  /** A statement that hands rows over: tenant "a" assigns tenant_id "b" to all datasets it can see. */
  const HAND_OVER := Update("dataset", [], (row: Row) => row["tenant_id" := Str("b")])

  const ONE_DATASET: Tables := map["dataset" := [map["tenant_id" := Str("a")]]]

  /** Rewritten for tenant "a", it gives tenant "b" a dataset it did not have. */
  lemma TenantUpdateHandsOver()
    ensures Slice(Execute(Rewrite(HAND_OVER, "a"), ONE_DATASET), "b") != Slice(ONE_DATASET, "b")
  {
    var row: Row := map["tenant_id" := Str("a")];
    assert row in TableRows(ONE_DATASET, "dataset") && Touched(row, "dataset", [], "a");
    assert InTenant(HAND_OVER.change(row), "b");
    WriteOnSlice(HAND_OVER, ONE_DATASET, "a", "b");
  }
}
