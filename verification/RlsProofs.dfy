/** What the rewrite of row-level security guarantees: running the rewritten statement on all data is
    running the original one on the tenant's slice. */
module RlsProofs {
  import opened Database
  import opened RowLevelSecurity

  // ---- Names ----

  function Names(f: From): set<string> {
    match f
    case Table(name) => {name}
    case Join(left, right, _, _) => Names(left) + Names(right)
  }

  /** Each table occurs once, as SQL demands of unaliased tables. */
  predicate Proper(f: From) {
    f.Join? ==> Proper(f.left) && Proper(f.right) && Names(f.left) !! Names(f.right)
  }

  function RootNames(froms: seq<From>): set<string> {
    if froms == [] then {} else RootNames(froms[..|froms| - 1]) + Names(froms[|froms| - 1])
  }

  predicate ProperRoots(froms: seq<From>) {
    froms != [] ==>
      && ProperRoots(froms[..|froms| - 1])
      && Proper(froms[|froms| - 1])
      && RootNames(froms[..|froms| - 1]) !! Names(froms[|froms| - 1])
  }

  function Guarded(names: set<string>): set<string> {
    names * PROTECTED
  }

  /** Every guarded table contributes a row, and it is the tenant's. */
  function BelongsTo(names: set<string>, tenant: string): Condition {
    (env: Env) => forall n | n in names :: n in env && InTenant(env[n], tenant)
  }

  /** Every guarded table contributes a row. */
  function PresentIn(names: set<string>): Condition {
    (env: Env) => names <= env.Keys
  }

  // ---- Filtering ----

  lemma FilterCons<T>(x: T, rest: seq<T>, keep: T -> bool)
    ensures Filter([x] + rest, keep) == (if keep(x) then [x] else []) + Filter(rest, keep)
  {
    assert ([x] + rest)[1..] == rest;
  }

  lemma {:induction false} FilterConcat<T>(s: seq<T>, t: seq<T>, keep: T -> bool)
    ensures Filter(s + t, keep) == Filter(s, keep) + Filter(t, keep)
  {
    if s == [] {
      assert s + t == t;
    } else {
      FilterConcat(s[1..], t, keep);
      assert s + t == [s[0]] + (s[1..] + t);
      FilterCons(s[0], s[1..] + t, keep);
      var first := if keep(s[0]) then [s[0]] else [];
      assert first + (Filter(s[1..], keep) + Filter(t, keep)) == (first + Filter(s[1..], keep)) + Filter(t, keep);
    }
  }

  /** Filtering at most one element in front of others. */
  lemma FilterMaybe<T>(first: bool, x: T, rest: seq<T>, keep: T -> bool)
    ensures Filter((if first then [x] else []) + rest, keep)
            == (if first && keep(x) then [x] else []) + Filter(rest, keep)
  {
    if first {
      FilterCons(x, rest, keep);
    } else {
      assert [] + rest == rest;
    }
  }

  lemma FilterStep<T>(s: seq<T>, keep: T -> bool)
    requires s != []
    ensures Filter(s, keep) == if keep(s[0]) then [s[0]] + Filter(s[1..], keep) else Filter(s[1..], keep)
  {
  }

  lemma MatchesCons(x: Env, y: Env, rest: seq<Env>, on: Condition)
    ensures Matches(x, [y] + rest, on) == (if on(x + y) then [x + y] else []) + Matches(x, rest, on)
  {
    assert ([y] + rest)[1..] == rest;
  }

  lemma JoinLeftCons(x: Env, rest: seq<Env>, right: seq<Env>, on: Condition, keep: bool)
    ensures var found := Matches(x, right, on);
            JoinLeft([x] + rest, right, on, keep)
            == (if found == [] && keep then [x] else found) + JoinLeft(rest, right, on, keep)
  {
    assert ([x] + rest)[1..] == rest;
  }

  lemma UnmatchedCons(y: Env, rest: seq<Env>, left: seq<Env>, on: Condition)
    ensures Unmatched([y] + rest, left, on)
            == (if exists x | x in left :: on(x + y) then [] else [y]) + Unmatched(rest, left, on)
  {
    assert ([y] + rest)[1..] == rest;
  }

  lemma ScanCons(name: string, row: Row, rest: seq<Row>)
    ensures Scan(name, [row] + rest) == [map[name := row]] + Scan(name, rest)
  {
    assert ([row] + rest)[1..] == rest;
  }

  lemma {:induction false} FilterMember<T>(s: seq<T>, keep: T -> bool, x: T)
    ensures x in Filter(s, keep) <==> x in s && keep(x)
  {
    if s != [] {
      FilterMember(s[1..], keep, x);
    }
  }

  lemma {:induction false} FilterTwice<T>(s: seq<T>, p: T -> bool, q: T -> bool, both: T -> bool)
    requires forall x | x in s :: both(x) == (p(x) && q(x))
    ensures Filter(Filter(s, p), q) == Filter(s, both)
  {
    if s != [] {
      FilterTwice(s[1..], p, q, both);
      FilterMaybe(p(s[0]), s[0], Filter(s[1..], p), q);
    }
  }

  /** A filter keeps everything exactly when every element passes. */
  lemma {:induction false} FilterAll<T>(s: seq<T>, keep: T -> bool)
    ensures |Filter(s, keep)| <= |s|
    ensures Filter(s, keep) == s <==> forall x | x in s :: keep(x)
  {
    if s != [] {
      FilterAll(s[1..], keep);
      if keep(s[0]) {
        assert Filter(s, keep)[1..] == Filter(s[1..], keep);
        assert s == [s[0]] + s[1..];
      }
    }
  }

  // ---- Filtering a join ----

  lemma {:induction false} MatchesFilter(x: Env, right: seq<Env>, on: Condition, keep: Condition, kx: bool,
                                         kr: Condition)
    requires forall y | y in right :: keep(x + y) == (kx && kr(y))
    ensures Filter(Matches(x, right, on), keep) == if kx then Matches(x, Filter(right, kr), on) else []
  {
    if right != [] {
      var y, rest := right[0], right[1..];
      MatchesFilter(x, rest, on, keep, kx, kr);
      FilterMaybe(on(x + y), x + y, Matches(x, rest, on), keep);
      FilterStep(right, kr);
      MatchesCons(x, y, Filter(rest, kr), on);
    }
  }

  /** What one row of the left side contributes to a join, filtered. */
  lemma ContributionFilter(x: Env, right: seq<Env>, on: Condition, outer: bool,
                           keep: Condition, kx: bool, kr: Condition, rightFree: bool)
    requires forall y | y in right :: keep(x + y) == (kx && kr(y))
    requires keep(x) == (kx && rightFree) && (rightFree ==> forall y | y in right :: kr(y))
    ensures var found, kept := Matches(x, right, on), Matches(x, Filter(right, kr), on);
            Filter(if found == [] && outer then [x] else found, keep)
            == if !kx then [] else if kept == [] && outer && rightFree then [x] else kept
  {
    MatchesFilter(x, right, on, keep, kx, kr);
    FilterAll(right, kr);
    if Matches(x, right, on) == [] && outer {
      FilterCons(x, [], keep);
      assert [x] + [] == [x];
    }
  }

  /** When a filter splits over the two sides of a join, filtering the join is joining the filtered
      sides; rows extended with NULLs survive only if the missing side is not filtered at all. */
  lemma {:induction false} JoinLeftFilter(left: seq<Env>, right: seq<Env>, on: Condition, outer: bool,
                                          keep: Condition, kl: Condition, kr: Condition, rightFree: bool)
    requires forall x, y | x in left && y in right :: keep(x + y) == (kl(x) && kr(y))
    requires forall x | x in left :: keep(x) == (kl(x) && rightFree)
    requires rightFree ==> forall y | y in right :: kr(y)
    ensures Filter(JoinLeft(left, right, on, outer), keep)
            == JoinLeft(Filter(left, kl), Filter(right, kr), on, outer && rightFree)
  {
    if left != [] {
      var x, rest := left[0], left[1..];
      JoinLeftFilter(rest, right, on, outer, keep, kl, kr, rightFree);
      var found := Matches(x, right, on);
      ContributionFilter(x, right, on, outer, keep, kl(x), kr, rightFree);
      FilterConcat(if found == [] && outer then [x] else found, JoinLeft(rest, right, on, outer), keep);
      FilterStep(left, kl);
      JoinLeftCons(x, Filter(rest, kl), Filter(right, kr), on, outer && rightFree);
    }
  }

  lemma {:induction false} UnmatchedFilter(right: seq<Env>, left: seq<Env>, on: Condition,
                                           keep: Condition, kr: Condition, leftFree: bool)
    requires forall y | y in right :: keep(y) == (kr(y) && leftFree)
    ensures Filter(Unmatched(right, left, on), keep) == if leftFree then Unmatched(Filter(right, kr), left, on) else []
  {
    if right != [] {
      var y, rest := right[0], right[1..];
      UnmatchedFilter(rest, left, on, keep, kr, leftFree);
      FilterMaybe(!exists x | x in left :: on(x + y), y, Unmatched(rest, left, on), keep);
      FilterStep(right, kr);
      UnmatchedCons(y, Filter(rest, kr), left, on);
    }
  }

  /** The same for a whole join, of any kind. */
  lemma JoinFilter(left: seq<Env>, right: seq<Env>, kind: JoinKind, on: Condition,
                   keep: Condition, kl: Condition, kr: Condition, leftFree: bool, rightFree: bool)
    requires forall x, y | x in left && y in right :: keep(x + y) == (kl(x) && kr(y))
    requires forall x | x in left :: keep(x) == (kl(x) && rightFree)
    requires forall y | y in right :: keep(y) == (kr(y) && leftFree)
    requires rightFree ==> forall y | y in right :: kr(y)
    requires leftFree ==> forall x | x in left :: kl(x)
    ensures Filter(JoinRows(left, right, kind, on), keep) ==
            JoinLeft(Filter(left, kl), Filter(right, kr), on, !kind.Inner? && rightFree)
            + (if kind.FullOuter? && leftFree then Unmatched(Filter(right, kr), Filter(left, kl), on) else [])
  {
    var unmatched := if kind.FullOuter? then Unmatched(right, left, on) else [];
    FilterConcat(JoinLeft(left, right, on, !kind.Inner?), unmatched, keep);
    JoinLeftFilter(left, right, on, !kind.Inner?, keep, kl, kr, rightFree);
    UnmatchedFilter(right, left, on, keep, kr, leftFree);
    FilterAll(left, kl);
  }

  // ---- Columns of a joined row ----

  predicate Within(rows: seq<Env>, names: set<string>) {
    forall e | e in rows :: e.Keys <= names
  }

  lemma {:induction false} JoinLeftWithin(left: seq<Env>, right: seq<Env>, on: Condition, outer: bool,
                                          nl: set<string>, nr: set<string>)
    requires Within(left, nl) && Within(right, nr)
    ensures Within(JoinLeft(left, right, on, outer), nl + nr)
  {
    if left != [] {
      JoinLeftWithin(left[1..], right, on, outer, nl, nr);
      MatchesWithin(left[0], right, on, nl, nr);
    }
  }

  lemma {:induction false} MatchesWithin(x: Env, right: seq<Env>, on: Condition, nl: set<string>, nr: set<string>)
    requires x.Keys <= nl && Within(right, nr)
    ensures Within(Matches(x, right, on), nl + nr)
  {
    if right != [] {
      MatchesWithin(x, right[1..], on, nl, nr);
    }
  }

  lemma {:induction false} UnmatchedWithin(right: seq<Env>, left: seq<Env>, on: Condition, names: set<string>)
    requires Within(right, names)
    ensures Within(Unmatched(right, left, on), names)
  {
    if right != [] {
      UnmatchedWithin(right[1..], left, on, names);
    }
  }

  lemma JoinWithin(left: seq<Env>, right: seq<Env>, kind: JoinKind, on: Condition, nl: set<string>, nr: set<string>)
    requires Within(left, nl) && Within(right, nr)
    ensures Within(JoinRows(left, right, kind, on), nl + nr)
  {
    JoinLeftWithin(left, right, on, !kind.Inner?, nl, nr);
    UnmatchedWithin(right, left, on, nr);
  }

  lemma {:induction false} ScanWithin(name: string, rows: seq<Row>)
    ensures Within(Scan(name, rows), {name})
  {
    if rows != [] {
      ScanWithin(name, rows[1..]);
    }
  }

  lemma {:induction false} FromWithin(f: From, db: Tables)
    ensures Within(FromRows(f, db), Names(f))
  {
    match f
    case Table(name) => ScanWithin(name, TableRows(db, name));
    case Join(left, right, kind, on) =>
      FromWithin(left, db);
      FromWithin(right, db);
      JoinWithin(FromRows(left, db), FromRows(right, db), kind, on, Names(left), Names(right));
  }

  lemma {:induction false} RootsWithin(froms: seq<From>, db: Tables)
    ensures Within(RootRows(froms, db), RootNames(froms))
  {
    if froms != [] {
      var front, last := froms[..|froms| - 1], froms[|froms| - 1];
      RootsWithin(front, db);
      FromWithin(last, db);
      JoinWithin(RootRows(front, db), FromRows(last, db), Inner, Always(), RootNames(front), Names(last));
    }
  }

  // ---- The slice of a join ----

  /** Joining the tenant's part of all data is joining the slice, up to rows in which a guarded table is
      missing: the step that every join kind takes. */
  lemma SliceOfJoin(left: seq<Env>, right: seq<Env>, left': seq<Env>, right': seq<Env>, kind: JoinKind, on: Condition,
                    nl: set<string>, nr: set<string>, tenant: string)
    requires nl !! nr && Within(left, nl) && Within(right, nr) && Within(left', nl) && Within(right', nr)
    requires Filter(left, BelongsTo(Guarded(nl), tenant)) == Filter(left', PresentIn(Guarded(nl)))
    requires Filter(right, BelongsTo(Guarded(nr), tenant)) == Filter(right', PresentIn(Guarded(nr)))
    ensures Filter(JoinRows(left, right, kind, on), BelongsTo(Guarded(nl + nr), tenant))
            == Filter(JoinRows(left', right', kind, on), PresentIn(Guarded(nl + nr)))
  {
    var gl, gr, g := Guarded(nl), Guarded(nr), Guarded(nl + nr);
    assert g == gl + gr;
    BelongsSplits(left, right, nl, nr, tenant);
    PresentSplits(left', right', nl, nr);
    JoinFilter(left, right, kind, on, BelongsTo(g, tenant), BelongsTo(gl, tenant), BelongsTo(gr, tenant),
               gl == {}, gr == {});
    JoinFilter(left', right', kind, on, PresentIn(g), PresentIn(gl), PresentIn(gr), gl == {}, gr == {});
  }

  lemma BelongsSplits(left: seq<Env>, right: seq<Env>, nl: set<string>, nr: set<string>, tenant: string)
    requires nl !! nr && Within(left, nl) && Within(right, nr)
    ensures var gl, gr, keep := Guarded(nl), Guarded(nr), BelongsTo(Guarded(nl + nr), tenant);
            && (forall x, y | x in left && y in right ::
                  keep(x + y) == (BelongsTo(gl, tenant)(x) && BelongsTo(gr, tenant)(y)))
            && (forall x | x in left :: keep(x) == (BelongsTo(gl, tenant)(x) && gr == {}))
            && (forall y | y in right :: keep(y) == (BelongsTo(gr, tenant)(y) && gl == {}))
  {
    var gl, gr, keep := Guarded(nl), Guarded(nr), BelongsTo(Guarded(nl + nr), tenant);
    assert Guarded(nl + nr) == gl + gr;
    forall x, y | x in left && y in right
      ensures keep(x + y) == (BelongsTo(gl, tenant)(x) && BelongsTo(gr, tenant)(y))
    {
      assert forall n | n in gl :: n in x + y ==> n in x && (x + y)[n] == x[n];
      assert forall n | n in gl :: n in x ==> n in x + y;
      assert forall n | n in gr :: n in x + y ==> n in y && (x + y)[n] == y[n];
      assert forall n | n in gr :: n in y ==> n in x + y;
    }
    forall x | x in left ensures keep(x) == (BelongsTo(gl, tenant)(x) && gr == {}) {
      assert forall n | n in gr :: n !in x;
    }
    forall y | y in right ensures keep(y) == (BelongsTo(gr, tenant)(y) && gl == {}) {
      assert forall n | n in gl :: n !in y;
    }
  }

  lemma PresentSplits(left: seq<Env>, right: seq<Env>, nl: set<string>, nr: set<string>)
    requires nl !! nr && Within(left, nl) && Within(right, nr)
    ensures var gl, gr, keep := Guarded(nl), Guarded(nr), PresentIn(Guarded(nl + nr));
            && (forall x, y | x in left && y in right :: keep(x + y) == (PresentIn(gl)(x) && PresentIn(gr)(y)))
            && (forall x | x in left :: keep(x) == (PresentIn(gl)(x) && gr == {}))
            && (forall y | y in right :: keep(y) == (PresentIn(gr)(y) && gl == {}))
  {
    var gl, gr, keep := Guarded(nl), Guarded(nr), PresentIn(Guarded(nl + nr));
    assert Guarded(nl + nr) == gl + gr;
    forall x, y | x in left && y in right ensures keep(x + y) == (PresentIn(gl)(x) && PresentIn(gr)(y)) {
      assert forall n | n in gl :: n in x + y <==> n in x;
      assert forall n | n in gr :: n in x + y <==> n in y;
    }
    forall x | x in left ensures keep(x) == (PresentIn(gl)(x) && gr == {}) {
      assert forall n | n in gr :: n !in x;
    }
    forall y | y in right ensures keep(y) == (PresentIn(gr)(y) && gl == {}) {
      assert forall n | n in gl :: n !in y;
    }
  }

  lemma {:induction false} ScanFilter(name: string, rows: seq<Row>, tenant: string)
    requires name in PROTECTED
    ensures Filter(Scan(name, rows), BelongsTo({name}, tenant)) == Scan(name, Filter(rows, OwnRow(tenant)))
    ensures Filter(Scan(name, rows), PresentIn({name})) == Scan(name, rows)
  {
    if rows != [] {
      ScanFilter(name, rows[1..], tenant);
      var env: Env := map[name := rows[0]];
      assert BelongsTo({name}, tenant)(env) == InTenant(rows[0], tenant);
      FilterCons(env, Scan(name, rows[1..]), BelongsTo({name}, tenant));
      FilterCons(env, Scan(name, rows[1..]), PresentIn({name}));
      FilterStep(rows, OwnRow(tenant));
      ScanCons(name, rows[0], Filter(rows[1..], OwnRow(tenant)));
    }
  }

  lemma {:induction false} SliceOfFrom(f: From, db: Tables, tenant: string)
    requires Proper(f)
    ensures Filter(FromRows(f, db), BelongsTo(Guarded(Names(f)), tenant))
            == Filter(FromRows(f, Slice(db, tenant)), PresentIn(Guarded(Names(f))))
  {
    var slice := Slice(db, tenant);
    match f
    case Table(name) =>
      var rows := TableRows(db, name);
      if name in PROTECTED {
        assert Guarded({name}) == {name};
        ScanFilter(name, rows, tenant);
        ScanFilter(name, TableRows(slice, name), tenant);
      } else {
        assert Guarded({name}) == {};
        FilterAll(Scan(name, rows), BelongsTo({}, tenant));
        FilterAll(Scan(name, rows), PresentIn({}));
      }
    case Join(left, right, kind, on) =>
      SliceOfFrom(left, db, tenant);
      SliceOfFrom(right, db, tenant);
      FromWithin(left, db);
      FromWithin(right, db);
      FromWithin(left, slice);
      FromWithin(right, slice);
      SliceOfJoin(FromRows(left, db), FromRows(right, db), FromRows(left, slice), FromRows(right, slice),
                  kind, on, Names(left), Names(right), tenant);
  }

  lemma {:induction false} SliceOfRoots(froms: seq<From>, db: Tables, tenant: string)
    requires ProperRoots(froms)
    ensures Filter(RootRows(froms, db), BelongsTo(Guarded(RootNames(froms)), tenant))
            == Filter(RootRows(froms, Slice(db, tenant)), PresentIn(Guarded(RootNames(froms))))
  {
    var slice := Slice(db, tenant);
    if froms != [] {
      var front, last := froms[..|froms| - 1], froms[|froms| - 1];
      SliceOfRoots(front, db, tenant);
      SliceOfFrom(last, db, tenant);
      RootsWithin(front, db);
      RootsWithin(front, slice);
      FromWithin(last, db);
      FromWithin(last, slice);
      SliceOfJoin(RootRows(front, db), FromRows(last, db), RootRows(front, slice), FromRows(last, slice),
                  Inner, Always(), RootNames(front), Names(last), tenant);
    }
  }
}
