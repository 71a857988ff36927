/** Which tables of a join tree have a row in every row of the join, and data on which the others have none. */
module RlsJoins {
  import opened Database
  import opened RowLevelSecurity
  import opened RlsProofs

  /** The tables that no outer join of the tree can extend with NULLs. */
  function Preserved(f: From): set<string> {
    match f
    case Table(name) => {name}
    case Join(left, right, kind, _) =>
      match kind
      case Inner => Preserved(left) + Preserved(right)
      case LeftOuter => Preserved(left)
      case FullOuter => {}
  }

  function PreservedRoots(froms: seq<From>): set<string> {
    if froms == [] then {} else PreservedRoots(froms[..|froms| - 1]) + Preserved(froms[|froms| - 1])
  }

  // ---- Preserved tables are always present ----

  lemma {:induction false} MatchesComplete(x: Env, right: seq<Env>, on: Condition, nl: set<string>, nr: set<string>)
    requires nl <= x.Keys && forall y | y in right :: nr <= y.Keys
    ensures forall e | e in Matches(x, right, on) :: nl + nr <= e.Keys
  {
    if right != [] {
      MatchesComplete(x, right[1..], on, nl, nr);
    }
  }

  lemma {:induction false} InnerJoinComplete(left: seq<Env>, right: seq<Env>, on: Condition, nl: set<string>,
                                             nr: set<string>)
    requires (forall x | x in left :: nl <= x.Keys) && (forall y | y in right :: nr <= y.Keys)
    ensures forall e | e in JoinLeft(left, right, on, false) :: nl + nr <= e.Keys
  {
    if left != [] {
      InnerJoinComplete(left[1..], right, on, nl, nr);
      MatchesComplete(left[0], right, on, nl, nr);
    }
  }

  lemma {:induction false} LeftJoinComplete(left: seq<Env>, right: seq<Env>, on: Condition, nl: set<string>)
    requires forall x | x in left :: nl <= x.Keys
    ensures forall e | e in JoinLeft(left, right, on, true) :: nl <= e.Keys
  {
    if left != [] {
      LeftJoinComplete(left[1..], right, on, nl);
      MatchesComplete(left[0], right, on, nl, {});
    }
  }

  lemma {:induction false} ScanComplete(name: string, rows: seq<Row>)
    ensures forall e | e in Scan(name, rows) :: name in e
  {
    if rows != [] {
      ScanComplete(name, rows[1..]);
    }
  }

  lemma {:induction false} FromComplete(f: From, db: Tables)
    ensures forall e | e in FromRows(f, db) :: Preserved(f) <= e.Keys
  {
    match f
    case Table(name) => ScanComplete(name, TableRows(db, name));
    case Join(left, right, kind, on) =>
      FromComplete(left, db);
      FromComplete(right, db);
      if kind.Inner? {
        InnerJoinComplete(FromRows(left, db), FromRows(right, db), on, Preserved(left), Preserved(right));
      } else if kind.LeftOuter? {
        LeftJoinComplete(FromRows(left, db), FromRows(right, db), on, Preserved(left));
      }
  }

  lemma {:induction false} RootsComplete(froms: seq<From>, db: Tables)
    ensures forall e | e in RootRows(froms, db) :: PreservedRoots(froms) <= e.Keys
  {
    if froms != [] {
      var front, last := froms[..|froms| - 1], froms[|froms| - 1];
      RootsComplete(front, db);
      FromComplete(last, db);
      InnerJoinComplete(RootRows(front, db), FromRows(last, db), Always(), PreservedRoots(front), Preserved(last));
    }
  }

  predicate InnerOnly(f: From) {
    f.Join? ==> f.kind.Inner? && InnerOnly(f.left) && InnerOnly(f.right)
  }

  lemma {:induction false} InnerPreservesAll(f: From)
    requires InnerOnly(f)
    ensures Preserved(f) == Names(f)
  {
    if f.Join? {
      InnerPreservesAll(f.left);
      InnerPreservesAll(f.right);
    }
  }

  lemma {:induction false} InnerRootsPreserveAll(froms: seq<From>)
    requires forall f | f in froms :: InnerOnly(f)
    ensures PreservedRoots(froms) == RootNames(froms)
  {
    if froms != [] {
      InnerRootsPreserveAll(froms[..|froms| - 1]);
      InnerPreservesAll(froms[|froms| - 1]);
    }
  }

  // ---- A table that is not preserved can be missing ----

  /** The same tree with every join condition true. */
  function Loosened(f: From): From {
    match f
    case Table(_) => f
    case Join(left, right, kind, _) => Join(Loosened(left), Loosened(right), kind, Always())
  }

  function LoosenedRoots(froms: seq<From>): (loose: seq<From>)
    ensures |loose| == |froms|
  {
    if froms == [] then [] else LoosenedRoots(froms[..|froms| - 1]) + [Loosened(froms[|froms| - 1])]
  }

  /** A database in which the tables of `full` have one row, the tenant's, and all others are empty. */
  function Only(full: set<string>, tenant: string): Tables {
    map name | name in full :: [map["tenant_id" := Str(tenant)]]
  }

  lemma {:induction false} LoosenedKeeps(f: From)
    ensures Names(Loosened(f)) == Names(f) && Preserved(Loosened(f)) == Preserved(f) && Proper(Loosened(f)) == Proper(f)
  {
    if f.Join? {
      LoosenedKeeps(f.left);
      LoosenedKeeps(f.right);
    }
  }

  lemma LastRoot(front: seq<From>, last: From)
    ensures RootNames(front + [last]) == RootNames(front) + Names(last)
    ensures PreservedRoots(front + [last]) == PreservedRoots(front) + Preserved(last)
    ensures ProperRoots(front + [last]) <==> ProperRoots(front) && Proper(last) && RootNames(front) !! Names(last)
  {
    assert (front + [last])[..|front + [last]| - 1] == front;
  }

  lemma {:induction false} LoosenedRootsKeep(froms: seq<From>)
    ensures RootNames(LoosenedRoots(froms)) == RootNames(froms)
    ensures PreservedRoots(LoosenedRoots(froms)) == PreservedRoots(froms)
    ensures ProperRoots(LoosenedRoots(froms)) == ProperRoots(froms)
  {
    if froms != [] {
      var front, last := froms[..|froms| - 1], froms[|froms| - 1];
      LoosenedRootsKeep(front);
      LoosenedKeeps(last);
      LastRoot(LoosenedRoots(front), Loosened(last));
      LastRoot(front, last);
      assert front + [last] == froms;
    }
  }

  lemma {:induction false} MatchesAll(x: Env, right: seq<Env>, y: Env)
    requires y in right
    ensures x + y in Matches(x, right, Always())
  {
    if y != right[0] {
      MatchesAll(x, right[1..], y);
    }
  }

  /** Under a condition that is always true every pair joins, and against nothing a kept row stands alone. */
  lemma {:induction false} JoinLeftAll(left: seq<Env>, right: seq<Env>, keep: bool, x: Env, y: Env)
    requires x in left
    ensures y in right ==> x + y in JoinLeft(left, right, Always(), keep)
    ensures keep && right == [] ==> x in JoinLeft(left, right, Always(), keep)
  {
    if x != left[0] {
      JoinLeftAll(left[1..], right, keep, x, y);
    } else if y in right {
      MatchesAll(x, right, y);
    }
  }

  lemma {:induction false} UnmatchedAll(right: seq<Env>, on: Condition, y: Env)
    requires y in right
    ensures y in Unmatched(right, [], on)
  {
    if y != right[0] {
      UnmatchedAll(right[1..], on, y);
    }
  }

  lemma {:induction false} FullHasRow(f: From, full: set<string>, tenant: string) returns (e: Env)
    requires Names(f) <= full
    ensures e in FromRows(Loosened(f), Only(full, tenant))
  {
    match f
    case Table(name) =>
      var row: Row := map["tenant_id" := Str(tenant)];
      ScanCons(name, row, []);
      assert [row] + [] == [row];
      e := map[name := row];
    case Join(left, right, kind, _) =>
      var x := FullHasRow(left, full, tenant);
      var y := FullHasRow(right, full, tenant);
      JoinLeftAll(FromRows(Loosened(left), Only(full, tenant)), FromRows(Loosened(right), Only(full, tenant)),
                  !kind.Inner?, x, y);
      e := x + y;
  }

  lemma {:induction false} EmptyHasNone(f: From, full: set<string>, tenant: string)
    requires Names(f) !! full
    ensures FromRows(Loosened(f), Only(full, tenant)) == []
  {
    if f.Join? {
      EmptyHasNone(f.left, full, tenant);
      EmptyHasNone(f.right, full, tenant);
    }
  }

  /** Only a tree's own tables matter to it. */
  lemma {:induction false} FromAgree(f: From, a: set<string>, b: set<string>, tenant: string)
    requires a * Names(f) == b * Names(f)
    ensures FromRows(Loosened(f), Only(a, tenant)) == FromRows(Loosened(f), Only(b, tenant))
  {
    match f
    case Table(name) => assert name in a <==> name in b * Names(f);
    case Join(left, right, _, _) =>
      assert a * Names(left) == (a * Names(f)) * Names(left) == (b * Names(f)) * Names(left) == b * Names(left);
      assert a * Names(right) == (a * Names(f)) * Names(right) == (b * Names(f)) * Names(right) == b * Names(right);
      FromAgree(left, a, b, tenant);
      FromAgree(right, a, b, tenant);
  }

  /** The row `e` of a joined side, joined with a full other side. */
  lemma JoinedWithFull(left: From, right: From, kind: JoinKind, full: set<string>, more: set<string>, tenant: string,
                       e: Env,
                       onLeft: bool) returns (joined: Env)
    requires Names(left) !! Names(right)
    requires full <= Names(if onLeft then left else right) && more == full + Names(if onLeft then right else left)
    requires e in FromRows(Loosened(if onLeft then left else right), Only(full, tenant))
    ensures joined in FromRows(Loosened(Join(left, right, kind, Always())), Only(more, tenant))
    ensures joined.Keys <= e.Keys + Names(if onLeft then right else left)
  {
    var l, r := FromRows(Loosened(left), Only(more, tenant)), FromRows(Loosened(right), Only(more, tenant));
    FromAgree(if onLeft then left else right, full, more, tenant);
    if onLeft {
      var y := FullHasRow(right, more, tenant);
      FromWithin(Loosened(right), Only(more, tenant));
      LoosenedKeeps(right);
      JoinLeftAll(l, r, !kind.Inner?, e, y);
      joined := e + y;
    } else {
      var x := FullHasRow(left, more, tenant);
      FromWithin(Loosened(left), Only(more, tenant));
      LoosenedKeeps(left);
      JoinLeftAll(l, r, !kind.Inner?, x, e);
      joined := x + e;
    }
  }

  /** One side of an outer join alone, the other side being empty. */
  lemma StandsAlone(left: From, right: From, kind: JoinKind, tenant: string, onLeft: bool)
    returns (full: set<string>, e: Env)
    requires Names(left) !! Names(right) && (if onLeft then !kind.Inner? else kind.FullOuter?)
    ensures full == Names(if onLeft then left else right) && e.Keys <= full
    ensures e in FromRows(Loosened(Join(left, right, kind, Always())), Only(full, tenant))
  {
    if onLeft {
      full := Names(left);
      e := FullHasRow(left, full, tenant);
      EmptyHasNone(right, full, tenant);
      FromWithin(Loosened(left), Only(full, tenant));
      LoosenedKeeps(left);
      JoinLeftAll(FromRows(Loosened(left), Only(full, tenant)), [], true, e, e);
    } else {
      full := Names(right);
      e := FullHasRow(right, full, tenant);
      EmptyHasNone(left, full, tenant);
      FromWithin(Loosened(right), Only(full, tenant));
      LoosenedKeeps(right);
      UnmatchedAll(FromRows(Loosened(right), Only(full, tenant)), Always(), e);
    }
  }

  /** For a table that is not preserved there is data on which some row of the join lacks it. */
  lemma {:induction false} NotPreservedMissing(f: From, name: string, tenant: string)
    returns (full: set<string>, e: Env)
    requires Proper(f) && name in Names(f) - Preserved(f)
    ensures full <= Names(f) && e in FromRows(Loosened(f), Only(full, tenant)) && name !in e
  {
    var left, right, kind := f.left, f.right, f.kind;
    if name in Names(right) && !kind.Inner? {
      full, e := StandsAlone(left, right, kind, tenant, true);
    } else if name in Names(left) && kind.FullOuter? {
      full, e := StandsAlone(left, right, kind, tenant, false);
    } else {
      var onLeft := name in Names(left);
      var part, x := NotPreservedMissing(if onLeft then left else right, name, tenant);
      full := part + Names(if onLeft then right else left);
      e := JoinedWithFull(left, right, kind, part, full, tenant, x, onLeft);
    }
  }

  lemma {:induction false} RootsFullHaveRow(froms: seq<From>, full: set<string>, tenant: string) returns (e: Env)
    requires RootNames(froms) <= full
    ensures e in RootRows(LoosenedRoots(froms), Only(full, tenant))
  {
    if froms == [] {
      e := map[];
    } else {
      var front, last := froms[..|froms| - 1], froms[|froms| - 1];
      assert LoosenedRoots(froms)[..|froms| - 1] == LoosenedRoots(front);
      var x := RootsFullHaveRow(front, full, tenant);
      var y := FullHasRow(last, full, tenant);
      JoinLeftAll(RootRows(LoosenedRoots(front), Only(full, tenant)), FromRows(Loosened(last), Only(full, tenant)),
                  false, x, y);
      e := x + y;
    }
  }

  lemma {:induction false} RootsAgree(froms: seq<From>, a: set<string>, b: set<string>, tenant: string)
    requires a * RootNames(froms) == b * RootNames(froms)
    ensures RootRows(LoosenedRoots(froms), Only(a, tenant)) == RootRows(LoosenedRoots(froms), Only(b, tenant))
  {
    if froms != [] {
      var front, last := froms[..|froms| - 1], froms[|froms| - 1];
      var names := RootNames(froms);
      assert LoosenedRoots(froms)[..|froms| - 1] == LoosenedRoots(front);
      assert a * RootNames(front) == (a * names) * RootNames(front) == (b * names) * RootNames(front)
             == b * RootNames(front);
      assert a * Names(last) == (a * names) * Names(last) == (b * names) * Names(last) == b * Names(last);
      RootsAgree(front, a, b, tenant);
      FromAgree(last, a, b, tenant);
    }
  }

  lemma {:induction false} RootsMissing(froms: seq<From>, name: string, tenant: string)
    returns (full: set<string>, e: Env)
    requires ProperRoots(froms) && name in RootNames(froms) - PreservedRoots(froms)
    ensures full <= RootNames(froms) && e in RootRows(LoosenedRoots(froms), Only(full, tenant)) && name !in e
  {
    var front, last := froms[..|froms| - 1], froms[|froms| - 1];
    assert LoosenedRoots(froms)[..|froms| - 1] == LoosenedRoots(front);
    if name in Names(last) {
      var part, y := NotPreservedMissing(last, name, tenant);
      full := part + RootNames(front);
      FromAgree(last, part, full, tenant);
      var x := RootsFullHaveRow(front, full, tenant);
      RootsWithin(LoosenedRoots(front), Only(full, tenant));
      LoosenedRootsKeep(front);
      JoinLeftAll(RootRows(LoosenedRoots(front), Only(full, tenant)), FromRows(Loosened(last), Only(full, tenant)),
                  false, x, y);
      e := x + y;
    } else {
      var part, x := RootsMissing(front, name, tenant);
      full := part + Names(last);
      RootsAgree(front, part, full, tenant);
      var y := FullHasRow(last, full, tenant);
      FromWithin(Loosened(last), Only(full, tenant));
      LoosenedKeeps(last);
      JoinLeftAll(RootRows(LoosenedRoots(front), Only(full, tenant)), FromRows(Loosened(last), Only(full, tenant)),
                  false, x, y);
      e := x + y;
    }
  }

  /** Such a database is one tenant's already. */
  lemma OnlyIsSlice(full: set<string>, tenant: string)
    ensures Slice(Only(full, tenant), tenant) == Only(full, tenant)
  {
    var row: Row := map["tenant_id" := Str(tenant)];
    assert InTenant(row, tenant);
    FilterStep([row], OwnRow(tenant));
    assert Filter([row], OwnRow(tenant)) == [row];
  }
}
