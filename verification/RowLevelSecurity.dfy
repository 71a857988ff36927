/** lcp.db.rls: the hook that rewrites SELECT, UPDATE and DELETE statements so that they only touch
    the caller's rows, and what statements mean. */
module RowLevelSecurity {
  import opened Database

  // ---- Statements ----

  datatype Value = Null | Str(s: string) | Num(n: int)

  type Row = map<string, Value>

  type Tables = map<string, seq<Row>>

  /** One row of a joined FROM clause: the row each table contributes.  A table that an outer join
      extended with NULLs contributes none. */
  type Env = map<string, Row>

  type Condition = Env -> bool

  datatype JoinKind = Inner | LeftOuter | FullOuter

  datatype From = Table(name: string) | Join(left: From, right: From, kind: JoinKind, on: Condition)

  /** `order` stands for any ordering, grouping or projection of the rows that passed WHERE. */
  datatype Statement =
    | Select(froms: seq<From>, wheres: seq<Condition>, order: seq<Env> -> seq<Env>, offset: nat, limit: Option<nat>)
    | Update(table: string, wheres: seq<Condition>, change: Row -> Row)
    | Delete(table: string, wheres: seq<Condition>)
    | Other

  // ---- The rewrite ----

  const PROTECTED: set<string> := {"dataset", "task"}

  function Leaves(f: From): seq<string> {
    match f
    case Table(name) => [name]
    case Join(left, right, _, _) => Leaves(left) + Leaves(right)
  }

  function AllLeaves(froms: seq<From>): seq<string> {
    if froms == [] then [] else AllLeaves(froms[..|froms| - 1]) + Leaves(froms[|froms| - 1])
  }

  /** The protected names of a list, each at its first occurrence. */
  function ProtectedOnce(leaves: seq<string>): seq<string> {
    if leaves == [] then []
    else
      var earlier, leaf := ProtectedOnce(leaves[..|leaves| - 1]), leaves[|leaves| - 1];
      if leaf in PROTECTED && leaf !in earlier then earlier + [leaf] else earlier
  }

  /** What a statement reads from or writes to. */
  function Roots(stmt: Statement): seq<From> {
    match stmt
    case Select(froms, _, _, _, _) => froms
    case Update(table, _, _) => [Table(table)]
    case Delete(table, _) => [Table(table)]
    case Other => []
  }

  function Targets(stmt: Statement): seq<string> {
    ProtectedOnce(AllLeaves(Roots(stmt)))
  }

  /** SQL truth of `<name>.tenant_id = :tenant`; comparing with NULL is not true. */
  predicate InTenant(row: Row, tenant: string) {
    "tenant_id" in row && row["tenant_id"] == Str(tenant)
  }

  function TenantIs(name: string, tenant: string): Condition {
    (env: Env) => name in env && InTenant(env[name], tenant)
  }

  function TenantConditions(targets: seq<string>, tenant: string): seq<Condition> {
    if targets == [] then []
    else TenantConditions(targets[..|targets| - 1], tenant) + [TenantIs(targets[|targets| - 1], tenant)]
  }

  function AndWhere(stmt: Statement, conditions: seq<Condition>): Statement {
    match stmt
    case Select(froms, wheres, order, offset, limit) => Select(froms, wheres + conditions, order, offset, limit)
    case Update(table, wheres, change) => Update(table, wheres + conditions, change)
    case Delete(table, wheres) => Delete(table, wheres + conditions)
    case Other => stmt
  }

  function Rewrite(stmt: Statement, tenant: string): Statement {
    AndWhere(stmt, TenantConditions(Targets(stmt), tenant))
  }

  datatype Verdict = Run(stmt: Statement) | PermissionError

  // ---- The hook ----

  /** The table stands somewhere in the join tree. */
  predicate InTree(f: From, table: string) {
    match f
    case Table(name) => name == table
    case Join(left, right, _, _) => InTree(left, table) || InTree(right, table)
  }

  /** The statement reads from the table or writes to it. */
  predicate Mentions(stmt: Statement, table: string) {
    match stmt
    case Select(froms, _, _, _, _) => exists i | 0 <= i < |froms| :: InTree(froms[i], table)
    case Update(name, _, _) => name == table
    case Delete(name, _) => name == table
    case Other => false
  }

  /** Rows of datasets and tasks belong to a tenant; no other table has a column that says so. */
  predicate HasTenantRows(stmt: Statement) {
    Mentions(stmt, "dataset") || Mentions(stmt, "task")
  }

  lemma {:induction false} LeafInTree(f: From, table: string)
    ensures table in Leaves(f) <==> InTree(f, table)
  {
    match f
    case Table(_) =>
    case Join(left, right, _, _) =>
      LeafInTree(left, table);
      LeafInTree(right, table);
  }

  lemma {:induction false} LeafInSomeTree(froms: seq<From>, table: string)
    ensures table in AllLeaves(froms) <==> exists i | 0 <= i < |froms| :: InTree(froms[i], table)
  {
    if froms != [] {
      var n := |froms| - 1;
      LeafInSomeTree(froms[..n], table);
      LeafInTree(froms[n], table);
      assert forall i | 0 <= i < n :: froms[..n][i] == froms[i];
    }
  }

  lemma {:induction false} OnceIffIn(leaves: seq<string>, table: string)
    ensures table in ProtectedOnce(leaves) <==> table in leaves && table in PROTECTED
  {
    if leaves != [] {
      OnceIffIn(leaves[..|leaves| - 1], table);
    }
  }

  /** The targets are the two tables with tenant rows, each when the statement mentions it. */
  lemma TargetIffMentioned(stmt: Statement, table: string)
    ensures table in Targets(stmt) <==> (table == "dataset" || table == "task") && Mentions(stmt, table)
  {
    OnceIffIn(AllLeaves(Roots(stmt)), table);
    LeafInSomeTree(Roots(stmt), table);
    match stmt
    case Select(froms, _, _, _, _) =>
    case Update(name, _, _) => assert Roots(stmt)[0] == Table(name);
    case Delete(name, _) => assert Roots(stmt)[0] == Table(name);
    case Other =>
  }

  lemma {:induction false} OneConditionEach(targets: seq<string>, tenant: string)
    ensures |TenantConditions(targets, tenant)| == |targets|
  {
    if targets != [] {
      OneConditionEach(targets[..|targets| - 1], tenant);
    }
  }

  lemma AddsConditions(stmt: Statement, tenant: string)
    ensures Targets(stmt) != [] ==> Rewrite(stmt, tenant) != stmt
  {
    OneConditionEach(Targets(stmt), tenant);
    if !stmt.Other? {
      assert |Rewrite(stmt, tenant).wheres| == |stmt.wheres| + |Targets(stmt)|;
    }
  }

  /** There is something to filter exactly when the statement mentions a table with tenant rows. */
  lemma FilteredIff(stmt: Statement)
    ensures Targets(stmt) != [] <==> HasTenantRows(stmt)
  {
    TargetIffMentioned(stmt, "dataset");
    TargetIffMentioned(stmt, "task");
    if Targets(stmt) != [] {
      TargetIffMentioned(stmt, Targets(stmt)[0]);
      assert Targets(stmt)[0] in Targets(stmt);
    }
  }

  method FindRlsTargets(stmt: Statement) returns (targets: seq<string>)
    ensures targets == Targets(stmt)
  {
    var roots: seq<From> := [];
    match stmt {
      case Select(froms, _, _, _, _) =>
        if froms == [] {
          return [];
        }
        roots := froms;
      case Update(table, _, _) => roots := [Table(table)];
      case Delete(table, _) => roots := [Table(table)];
      case Other =>
    }
    var leaves: seq<string> := [];
    for i := 0 to |roots|
      invariant leaves == AllLeaves(roots[..i])
    {
      assert roots[..i + 1][..i] == roots[..i];
      leaves := leaves + Leaves(roots[i]);
    }
    assert roots[..|roots|] == roots;
    targets := [];
    var seen: set<string> := {};
    for i := 0 to |leaves|
      invariant targets == ProtectedOnce(leaves[..i])
      invariant forall name :: name in seen <==> name in targets
    {
      assert leaves[..i + 1][..i] == leaves[..i];
      var leaf := leaves[i];
      if leaf in PROTECTED {
        if leaf !in seen {
          seen := seen + {leaf};
          targets := targets + [leaf];
        }
      }
    }
    assert leaves[..|leaves|] == leaves;
  }

  method InjectTenantFilter(stmt: Statement, targets: seq<string>, tenant: string) returns (rewritten: Statement)
    ensures rewritten == AndWhere(stmt, TenantConditions(targets, tenant))
  {
    rewritten := stmt;
    assert TenantConditions(targets[..0], tenant) == [];
    for i := 0 to |targets|
      invariant rewritten == AndWhere(stmt, TenantConditions(targets[..i], tenant))
    {
      assert targets[..i + 1][..i] == targets[..i];
      if !rewritten.Other? {
        rewritten := AndWhere(rewritten, [TenantIs(targets[i], tenant)]);
      }
    }
    assert targets[..|targets|] == targets;
  }

  /** The statement that reaches the database, or the refusal. */
  method BeforeExecute(enforced: bool, stmt: Statement, principal: Option<Principal>) returns (verdict: Verdict)
    ensures verdict.PermissionError? <==> enforced && Targets(stmt) != [] && principal.None?
    ensures verdict.Run? && (!enforced || principal.None? || principal.value.isSystem) ==> verdict.stmt == stmt
    ensures verdict.Run? && enforced && principal.Some? && !principal.value.isSystem ==>
              verdict.stmt == Rewrite(stmt, principal.value.tenantId)
    // A statement over other tables, such as those of indexes, policies, rules and workers, passes as it is.
    ensures !HasTenantRows(stmt) ==> verdict == Run(stmt)
    // One that mentions datasets or tasks needs a principal, and passes as it is for the system only.
    ensures enforced && HasTenantRows(stmt) && principal.None? ==> verdict == PermissionError
    ensures enforced && HasTenantRows(stmt) && principal.Some? ==>
              verdict.Run? && (verdict.stmt == stmt <==> principal.value.isSystem)
  {
    FilteredIff(stmt);
    if !enforced {
      return Run(stmt);
    }
    if stmt.Other? {
      return Run(stmt);
    }
    var targets := FindRlsTargets(stmt);
    if targets == [] {
      return Run(stmt);
    }
    if principal.None? {
      return PermissionError;
    }
    if principal.value.isSystem {
      return Run(stmt);
    }
    var rewritten := InjectTenantFilter(stmt, targets, principal.value.tenantId);
    AddsConditions(stmt, principal.value.tenantId);
    verdict := Run(rewritten);
  }

  // ---- What statements mean ----

  function Filter<T>(s: seq<T>, keep: T -> bool): seq<T> {
    if s == [] then [] else (if keep(s[0]) then [s[0]] else []) + Filter(s[1..], keep)
  }

  function TableRows(db: Tables, name: string): seq<Row> {
    if name in db then db[name] else []
  }

  function Scan(name: string, rows: seq<Row>): seq<Env> {
    if rows == [] then [] else [map[name := rows[0]]] + Scan(name, rows[1..])
  }

  /** The rows of `right` that join with x, each merged with it. */
  function Matches(x: Env, right: seq<Env>, on: Condition): seq<Env> {
    if right == [] then []
    else (if on(x + right[0]) then [x + right[0]] else []) + Matches(x, right[1..], on)
  }

  /** Every row of `left` with its matches; when `keep` is set, a row without any stands alone. */
  function JoinLeft(left: seq<Env>, right: seq<Env>, on: Condition, keep: bool): seq<Env> {
    if left == [] then []
    else
      var found := Matches(left[0], right, on);
      (if found == [] && keep then [left[0]] else found) + JoinLeft(left[1..], right, on, keep)
  }

  function Unmatched(right: seq<Env>, left: seq<Env>, on: Condition): seq<Env> {
    if right == [] then []
    else (if exists x | x in left :: on(x + right[0]) then [] else [right[0]]) + Unmatched(right[1..], left, on)
  }

  function JoinRows(left: seq<Env>, right: seq<Env>, kind: JoinKind, on: Condition): seq<Env> {
    JoinLeft(left, right, on, !kind.Inner?) + (if kind.FullOuter? then Unmatched(right, left, on) else [])
  }

  function FromRows(f: From, db: Tables): seq<Env> {
    match f
    case Table(name) => Scan(name, TableRows(db, name))
    case Join(left, right, kind, on) => JoinRows(FromRows(left, db), FromRows(right, db), kind, on)
  }

  function Always(): Condition {
    (_: Env) => true
  }

  /** Several FROM entries form a cross product; none at all yields one row without columns. */
  function RootRows(froms: seq<From>, db: Tables): seq<Env> {
    if froms == [] then [map[]]
    else JoinRows(RootRows(froms[..|froms| - 1], db), FromRows(froms[|froms| - 1], db), Inner, Always())
  }

  function AllHold(wheres: seq<Condition>): Condition {
    (env: Env) => forall i | 0 <= i < |wheres| :: wheres[i](env)
  }

  /** The rows that pass WHERE. */
  function Matching(q: Statement, db: Tables): seq<Env>
    requires q.Select?
  {
    Filter(RootRows(q.froms, db), AllHold(q.wheres))
  }

  function Page(rows: seq<Env>, offset: nat, limit: Option<nat>): seq<Env> {
    var rest := if offset <= |rows| then rows[offset..] else [];
    if limit.Some? && limit.value <= |rest| then rest[..limit.value] else rest
  }

  function Query(q: Statement, db: Tables): seq<Env>
    requires q.Select?
  {
    Page(q.order(Matching(q, db)), q.offset, q.limit)
  }

  function UpdateRows(rows: seq<Row>, table: string, wheres: seq<Condition>, change: Row -> Row): seq<Row> {
    if rows == [] then []
    else [if AllHold(wheres)(map[table := rows[0]]) then change(rows[0]) else rows[0]]
         + UpdateRows(rows[1..], table, wheres, change)
  }

  function DeleteRows(rows: seq<Row>, table: string, wheres: seq<Condition>): seq<Row> {
    if rows == [] then []
    else (if AllHold(wheres)(map[table := rows[0]]) then [] else [rows[0]]) + DeleteRows(rows[1..], table, wheres)
  }

  /** The tables after a statement that writes. */
  function Execute(stmt: Statement, db: Tables): Tables
    requires stmt.Update? || stmt.Delete?
  {
    if stmt.table !in db then db
    else if stmt.Update? then db[stmt.table := UpdateRows(db[stmt.table], stmt.table, stmt.wheres, stmt.change)]
    else db[stmt.table := DeleteRows(db[stmt.table], stmt.table, stmt.wheres)]
  }

  function OwnRow(tenant: string): Row -> bool {
    (row: Row) => InTenant(row, tenant)
  }

  /** One tenant's slice: of the protected tables its own rows, of the others everything. */
  function Slice(db: Tables, tenant: string): Tables {
    map name | name in db :: if name in PROTECTED then Filter(db[name], OwnRow(tenant)) else db[name]
  }
}
