/** What reconciliation promises: it converges, it touches nothing else, and a dry run foretells it. */
module MetaSyncTheorems {
  import opened Database
  import opened MetaSync

  /** How a place stands between Gravitino and the table. */
  datatype Standing = Unreadable | Ambiguous | Absent | Differs | InSync

  function StandingOf(s: Scope, ds: map<string, Dataset>, place: Place): Standing {
    match s.remote.fileset(place)
    case Failed(_) => Unreadable
    case Got(f) =>
      var found := Found(s, ds, place);
      if found == {} then Absent
      else if u :| u in found && found == {u} then (if Agrees(ds[u], f) then InSync else Differs)
      else Ambiguous
  }

  /** The uuids for rows still to be created are new, and differ from place to place. */
  ghost predicate NewIds(s: Scope, ds: map<string, Dataset>) {
    && (forall place | StandingOf(s, ds, place) == Absent :: s.newId(place) !in ds)
    && (forall a, b | s.newId(a) == s.newId(b) :: a == b)
  }

  // ---- One fileset ----

  lemma CreatedRow(s: Scope, ds: map<string, Dataset>, place: Place, f: Fileset, q: Place)
    requires s.newId(place) !in ds && Found(s, ds, place) == {}
    ensures var after := ds[s.newId(place) := Created(s, place, f)];
            Found(s, after, q) == if q == place then {s.newId(place)} else Found(s, ds, q)
  {
    var after := ds[s.newId(place) := Created(s, place, f)];
    if q == place {
      assert forall u | u in ds :: u !in Found(s, ds, place);
      assert Found(s, after, q) == {s.newId(place)};
    } else {
      assert Found(s, after, q) == Found(s, ds, q);
    }
  }

  lemma AlignedRow(s: Scope, ds: map<string, Dataset>, u: string, f: Fileset, q: Place)
    requires u in ds
    ensures Found(s, ds[u := Aligned(ds[u], f)], q) == Found(s, ds, q)
    ensures Agrees(Aligned(ds[u], f), f)
  {
  }

  /** Looking at one fileset brings its place in sync and leaves every other place as it stands. */
  lemma StandingAfterOne(s: Scope, p: Pass, place: Place, q: Place)
    requires p.Pass? && NewIds(s, p.datasets) && StandingOf(s, p.datasets, place) != Ambiguous
    ensures var after, was := SyncOne(s, false, p, place), StandingOf(s, p.datasets, place);
            && after.Pass?
            && StandingOf(s, after.datasets, q)
               == (if q == place && was != Unreadable then InSync else StandingOf(s, p.datasets, q))
            && after.created == p.created + (if was == Absent then 1 else 0)
            && after.updated == p.updated + (if was == Differs then 1 else 0)
  {
    match s.remote.fileset(place)
    case Failed(_) =>
    case Got(f) =>
      var found := Found(s, p.datasets, place);
      if found == {} {
        CreatedRow(s, p.datasets, place, f, q);
        StandingOfOther(s, p.datasets, p.datasets[s.newId(place) := Created(s, place, f)], place, q);
      } else {
        var u :| u in found && found == {u};
        AlignedRow(s, p.datasets, u, f, q);
        StandingOfOther(s, p.datasets, p.datasets[u := Aligned(p.datasets[u], f)], place, q);
      }
  }

  /** A place stands the same when the rows found for it are the same. */
  lemma StandingOfOther(s: Scope, a: map<string, Dataset>, b: map<string, Dataset>, place: Place, q: Place)
    requires q != place ==> Found(s, a, q) == Found(s, b, q) && forall u | u in Found(s, a, q) :: a[u] == b[u]
    ensures q != place ==> StandingOf(s, a, q) == StandingOf(s, b, q)
  {
  }

  lemma NewIdsAfterOne(s: Scope, p: Pass, place: Place)
    requires p.Pass? && NewIds(s, p.datasets) && StandingOf(s, p.datasets, place) != Ambiguous
    ensures SyncOne(s, false, p, place).Pass? && NewIds(s, SyncOne(s, false, p, place).datasets)
  {
    var after := SyncOne(s, false, p, place).datasets;
    forall q | StandingOf(s, after, q) == Absent ensures s.newId(q) !in after {
      StandingAfterOne(s, p, place, q);
      assert StandingOf(s, p.datasets, q) == Absent;
      if q == place {
        StandingAfterOne(s, p, place, place);
      }
    }
  }

  // ---- A pass over any list of places ----

  function In(s: Scope, ds: map<string, Dataset>, places: seq<Place>, standing: Standing): set<Place> {
    set q | q in places && StandingOf(s, ds, q) == standing
  }

  predicate NoneAmbiguous(s: Scope, ds: map<string, Dataset>, places: seq<Place>) {
    forall q | q in places :: StandingOf(s, ds, q) != Ambiguous
  }

  /** What a pass has made of the rows `ds`. */
  ghost predicate Reconciled(s: Scope, ds: map<string, Dataset>, places: seq<Place>, after: map<string, Dataset>) {
    && NewIds(s, after)
    && forall q :: StandingOf(s, after, q)
                   == if q in places && StandingOf(s, ds, q) != Unreadable then InSync else StandingOf(s, ds, q)
  }

  lemma ReconciledMore(s: Scope, ds: map<string, Dataset>, front: seq<Place>, p: Pass, place: Place)
    requires p.Pass? && Reconciled(s, ds, front, p.datasets) && StandingOf(s, ds, place) != Ambiguous
    ensures SyncOne(s, false, p, place).Pass?
    ensures Reconciled(s, ds, front + [place], SyncOne(s, false, p, place).datasets)
  {
    NewIdsAfterOne(s, p, place);
    forall q ensures StandingOf(s, SyncOne(s, false, p, place).datasets, q)
                     == if q in front + [place] && StandingOf(s, ds, q) != Unreadable then InSync
                        else StandingOf(s, ds, q)
    {
      StandingAfterOne(s, p, place, q);
    }
  }

  /** A real pass brings every readable fileset's dataset in sync, leaves every other place as it stands, and
      counts each place it created or updated once. */
  lemma {:induction false} SyncReconciles(s: Scope, ds: map<string, Dataset>, places: seq<Place>)
    requires NewIds(s, ds) && NoneAmbiguous(s, ds, places)
    ensures var after := Sync(s, false, Pass(ds, 0, 0, []), places);
            && after.Pass? && Reconciled(s, ds, places, after.datasets)
            && after.created == |In(s, ds, places, Absent)| && after.updated == |In(s, ds, places, Differs)|
  {
    if places == [] {
      assert In(s, ds, places, Absent) == {} && In(s, ds, places, Differs) == {};
    } else {
      var front, place := places[..|places| - 1], places[|places| - 1];
      assert places == front + [place];
      SyncReconciles(s, ds, front);
      var p := Sync(s, false, Pass(ds, 0, 0, []), front);
      StandingAfterOne(s, p, place, place);
      ReconciledMore(s, ds, front, p, place);
      InMore(s, ds, front, place, Absent);
      InMore(s, ds, front, place, Differs);
    }
  }

  lemma InMore(s: Scope, ds: map<string, Dataset>, front: seq<Place>, place: Place, standing: Standing)
    ensures |In(s, ds, front + [place], standing)|
            == |In(s, ds, front, standing)| + (if place !in front && StandingOf(s, ds, place) == standing then 1 else 0)
  {
    var more := In(s, ds, front + [place], standing);
    if place !in front && StandingOf(s, ds, place) == standing {
      assert more == In(s, ds, front, standing) + {place};
    } else {
      assert more == In(s, ds, front, standing);
    }
  }

  // ---- Rows that are not concerned ----

  /** A row that a pass over `places` may align. */
  ghost predicate Concerned(s: Scope, ds: map<string, Dataset>, places: seq<Place>, u: string) {
    exists q | q in places :: u in Found(s, ds, q) && s.remote.fileset(q).Got?
  }

  /** `b` is `a` up to the two columns Gravitino owns. */
  predicate SameButSynced(a: Dataset, b: Dataset) {
    b == a.(storageUri := b.storageUri, description := b.description)
  }

  lemma SyncOneRows(s: Scope, p: Pass, place: Place, u: string)
    requires p.Pass? && NewIds(s, p.datasets) && SyncOne(s, false, p, place).Pass? && u in p.datasets
    ensures var after := SyncOne(s, false, p, place).datasets;
            && u in after && SameButSynced(p.datasets[u], after[u])
            && (after[u] != p.datasets[u] ==> u in Found(s, p.datasets, place) && s.remote.fileset(place).Got?)
  {
  }

  lemma SameFound(s: Scope, a: map<string, Dataset>, b: map<string, Dataset>, u: string, q: Place)
    requires u in a && u in b && SameButSynced(a[u], b[u])
    ensures u in Found(s, a, q) <==> u in Found(s, b, q)
  {
  }

  /** Other rows are untouched: of a row that was there before, at most location and description change, and
      only if it is the dataset of a fileset the pass could read. */
  lemma {:induction false} OtherRowsUntouched(s: Scope, ds: map<string, Dataset>, places: seq<Place>, u: string)
    requires NewIds(s, ds) && NoneAmbiguous(s, ds, places) && u in ds
    ensures var after := Sync(s, false, Pass(ds, 0, 0, []), places);
            && after.Pass? && u in after.datasets && SameButSynced(ds[u], after.datasets[u])
            && (after.datasets[u] != ds[u] ==> Concerned(s, ds, places, u))
  {
    if places != [] {
      var front, place := places[..|places| - 1], places[|places| - 1];
      assert places == front + [place];
      OtherRowsUntouched(s, ds, front, u);
      SyncReconciles(s, ds, front);
      SyncReconciles(s, ds, places);
      var p := Sync(s, false, Pass(ds, 0, 0, []), front);
      SyncOneRows(s, p, place, u);
      SameFound(s, ds, p.datasets, u, place);
    }
  }

  /** The row made for an absent place: named after it, for this tenant, saying what Gravitino says. */
  ghost predicate MadeFor(s: Scope, ds: map<string, Dataset>, q: Place, u: string, row: Dataset) {
    && StandingOf(s, ds, q) == Absent && s.newId(q) == u
    && s.remote.fileset(q).Got? && row == Created(s, q, s.remote.fileset(q).value)
  }

  lemma NewRowAfterOne(s: Scope, p: Pass, place: Place, u: string)
    requires p.Pass? && SyncOne(s, false, p, place).Pass? && u !in p.datasets
             && u in SyncOne(s, false, p, place).datasets
    ensures MadeFor(s, p.datasets, place, u, SyncOne(s, false, p, place).datasets[u])
  {
  }

  lemma InSyncRowStays(s: Scope, p: Pass, place: Place, u: string)
    requires p.Pass? && NewIds(s, p.datasets) && SyncOne(s, false, p, place).Pass? && u in p.datasets
    requires u in Found(s, p.datasets, place) ==> StandingOf(s, p.datasets, place) == InSync
    ensures u in SyncOne(s, false, p, place).datasets
    ensures SyncOne(s, false, p, place).datasets[u] == p.datasets[u]
  {
  }

  /** Every row a pass adds was made for a place that had none. */
  lemma {:induction false} AddedRowsAreMade(s: Scope, ds: map<string, Dataset>, places: seq<Place>, u: string)
    requires NewIds(s, ds) && NoneAmbiguous(s, ds, places) && u !in ds
    requires Sync(s, false, Pass(ds, 0, 0, []), places).Pass?
             && u in Sync(s, false, Pass(ds, 0, 0, []), places).datasets
    ensures exists q | q in places :: MadeFor(s, ds, q, u, Sync(s, false, Pass(ds, 0, 0, []), places).datasets[u])
  {
    var front, place := places[..|places| - 1], places[|places| - 1];
    assert places == front + [place];
    SyncReconciles(s, ds, front);
    var p := Sync(s, false, Pass(ds, 0, 0, []), front);
    if u in p.datasets {
      AddedRowsAreMade(s, ds, front, u);
      var q :| q in front && MadeFor(s, ds, q, u, p.datasets[u]);
      assert u in Found(s, p.datasets, place) ==> q == place;
      InSyncRowStays(s, p, place, u);
    } else {
      NewRowAfterOne(s, p, place, u);
      assert StandingOf(s, ds, place) == Absent;
      assert places[|front|] == place && place in places;
      assert MadeFor(s, ds, place, u, SyncOne(s, false, p, place).datasets[u]);
    }
  }

  // ---- Crashing ----

  /** A pass raises exactly when some fileset it reads has several datasets. */
  lemma {:induction false} SyncCrashesIff(s: Scope, ds: map<string, Dataset>, places: seq<Place>)
    requires NewIds(s, ds)
    ensures Sync(s, false, Pass(ds, 0, 0, []), places).Crashed? <==> !NoneAmbiguous(s, ds, places)
  {
    if NoneAmbiguous(s, ds, places) {
      SyncReconciles(s, ds, places);
    } else {
      var front, place := places[..|places| - 1], places[|places| - 1];
      assert places == front + [place];
      SyncCrashesIff(s, ds, front);
      if NoneAmbiguous(s, ds, front) {
        SyncReconciles(s, ds, front);
        assert StandingOf(s, ds, place) == Ambiguous;
      }
    }
  }

  // ---- Dry runs ----

  /** How many of the places, repetitions included, stand so. */
  function Count(s: Scope, ds: map<string, Dataset>, places: seq<Place>, standing: Standing): nat {
    if places == [] then 0
    else
      Count(s, ds, places[..|places| - 1], standing)
      + if StandingOf(s, ds, places[|places| - 1]) == standing then 1 else 0
  }

  lemma DryOne(s: Scope, p: Pass, place: Place)
    requires p.Pass? && StandingOf(s, p.datasets, place) != Ambiguous
    ensures var after, was := SyncOne(s, true, p, place), StandingOf(s, p.datasets, place);
            && after.Pass? && after.datasets == p.datasets
            && after.created == p.created + (if was == Absent then 1 else 0)
            && after.updated == p.updated + (if was == Differs then 1 else 0)
  {
  }

  /** A dry run changes nothing and counts every occurrence. */
  lemma {:induction false} DryRunCounts(s: Scope, ds: map<string, Dataset>, places: seq<Place>)
    requires NoneAmbiguous(s, ds, places)
    ensures var after := Sync(s, true, Pass(ds, 0, 0, []), places);
            && after.Pass? && after.datasets == ds
            && after.created == Count(s, ds, places, Absent) && after.updated == Count(s, ds, places, Differs)
  {
    if places != [] {
      var front, place := places[..|places| - 1], places[|places| - 1];
      assert places == front + [place];
      DryRunCounts(s, ds, front);
      DryOne(s, Sync(s, true, Pass(ds, 0, 0, []), front), place);
    }
  }

  /** No place standing so is listed twice. */
  predicate NoRepeats(s: Scope, ds: map<string, Dataset>, places: seq<Place>, standing: Standing) {
    forall i, j | 0 <= i < j < |places| && StandingOf(s, ds, places[i]) == standing :: places[i] != places[j]
  }

  lemma NoRepeatsMore(s: Scope, ds: map<string, Dataset>, front: seq<Place>, place: Place, standing: Standing)
    ensures NoRepeats(s, ds, front + [place], standing)
            <==> NoRepeats(s, ds, front, standing) && (StandingOf(s, ds, place) == standing ==> place !in front)
  {
    var places := front + [place];
    assert forall i | 0 <= i < |front| :: places[i] == front[i];
    assert places[|front|] == place;
  }

  lemma {:induction false} CountIsSizeIff(s: Scope, ds: map<string, Dataset>, places: seq<Place>, standing: Standing)
    ensures |In(s, ds, places, standing)| <= Count(s, ds, places, standing)
    ensures |In(s, ds, places, standing)| == Count(s, ds, places, standing) <==> NoRepeats(s, ds, places, standing)
  {
    if places != [] {
      var front, place := places[..|places| - 1], places[|places| - 1];
      assert places == front + [place];
      CountIsSizeIff(s, ds, front, standing);
      InMore(s, ds, front, place, standing);
      NoRepeatsMore(s, ds, front, place, standing);
    } else {
      assert In(s, ds, places, standing) == {};
    }
  }

  /** A dry run reports the counts of the real run exactly when no place that would be created or updated
      is listed twice; distinct names always satisfy this. */
  lemma DryRunForetellsIff(s: Scope, ds: map<string, Dataset>, places: seq<Place>)
    requires NewIds(s, ds) && NoneAmbiguous(s, ds, places)
    ensures var dry, actual := Sync(s, true, Pass(ds, 0, 0, []), places), Sync(s, false, Pass(ds, 0, 0, []), places);
            && dry.Pass? && actual.Pass? && dry.datasets == ds
            && (dry.created == actual.created && dry.updated == actual.updated
                <==> NoRepeats(s, ds, places, Absent) && NoRepeats(s, ds, places, Differs))
  {
    SyncReconciles(s, ds, places);
    DryRunCounts(s, ds, places);
    CountIsSizeIff(s, ds, places, Absent);
    CountIsSizeIff(s, ds, places, Differs);
  }

  // ---- Errors come from Gravitino alone ----

  function PlaceErrors(r: Remote, places: seq<Place>): seq<string> {
    if places == [] then []
    else
      var place := places[|places| - 1];
      PlaceErrors(r, places[..|places| - 1])
      + match r.fileset(place)
        case Failed(error) => ["get_fileset(" + place.schema + "/" + place.name + "): " + error]
        case Got(_) => []
  }

  /** The errors of a pass are the answers that failed, in order, whatever the rows are. */
  lemma {:induction false} ErrorsAreRemote(s: Scope, dry: bool, ds: map<string, Dataset>, places: seq<Place>)
    requires Sync(s, dry, Pass(ds, 0, 0, []), places).Pass?
    ensures Sync(s, dry, Pass(ds, 0, 0, []), places).errors == PlaceErrors(s.remote, places)
  {
    if places != [] {
      ErrorsAreRemote(s, dry, ds, places[..|places| - 1]);
    }
  }

  // ---- reconcile_all ----

  /** Everything one schema lists. */
  function Listed(r: Remote, schema: string): seq<Place> {
    match r.filesets(schema)
    case Failed(_) => []
    case Got(names) => PlacesOf(schema, names)
  }

  function ListedIn(r: Remote, schemas: seq<string>): seq<Place> {
    if schemas == [] then [] else ListedIn(r, schemas[..|schemas| - 1]) + Listed(r, schemas[|schemas| - 1])
  }

  function AllListed(r: Remote): seq<Place> {
    match r.schemas
    case Failed(_) => []
    case Got(schemas) => ListedIn(r, schemas)
  }

  /** The report, as far as a pass knows it. */
  ghost predicate Tallies(run: Run, p: Pass) {
    match run.report
    case None => p.Crashed?
    case Some(report) =>
      p.Pass? && run.datasets == p.datasets && report.created == p.created && report.updated == p.updated
  }

  lemma {:induction false} SyncConcat(s: Scope, dry: bool, p: Pass, a: seq<Place>, b: seq<Place>)
    ensures Sync(s, dry, p, a + b) == Sync(s, dry, Sync(s, dry, p, a), b)
  {
    if b == [] {
      assert a + b == a;
    } else {
      assert (a + b)[..|a + b| - 1] == a + b[..|b| - 1];
      SyncConcat(s, dry, p, a, b[..|b| - 1]);
    }
  }

  /** `q` is `p` with counters ahead by those of `base`. */
  ghost predicate Ahead(base: Pass, p: Pass, q: Pass) {
    if p.Crashed? then q.Crashed?
    else base.Pass? && q.Pass? && q.datasets == p.datasets && q.created == base.created + p.created
         && q.updated == base.updated + p.updated
  }

  lemma {:induction false} SyncShifts(s: Scope, dry: bool, base: Pass, places: seq<Place>)
    requires base.Pass?
    ensures Ahead(base, Sync(s, dry, Pass(base.datasets, 0, 0, []), places), Sync(s, dry, base, places))
  {
    if places != [] {
      SyncShifts(s, dry, base, places[..|places| - 1]);
    }
  }

  lemma CrashedStays(s: Scope, dry: bool, places: seq<Place>)
    ensures Sync(s, dry, Crashed, places) == Crashed
  {
  }

  /** Going schema by schema is one pass over everything listed. */
  lemma {:induction false} SchemasAreOnePass(s: Scope, dry: bool, ds: map<string, Dataset>, schemas: seq<string>,
                                             n: nat)
    ensures Tallies(SchemasRun(s, dry, ds, schemas, Report(n, 0, 0, 0, [])),
                    Sync(s, dry, Pass(ds, 0, 0, []), ListedIn(s.remote, schemas)))
  {
    if schemas != [] {
      var front, schema := schemas[..|schemas| - 1], schemas[|schemas| - 1];
      SchemasAreOnePass(s, dry, ds, front, n);
      var places, more := ListedIn(s.remote, front), Listed(s.remote, schema);
      var p := Sync(s, dry, Pass(ds, 0, 0, []), places);
      SyncConcat(s, dry, Pass(ds, 0, 0, []), places, more);
      if p.Crashed? {
        CrashedStays(s, dry, more);
      } else {
        SyncShifts(s, dry, p, more);
      }
    }
  }

  lemma AllIsOnePass(s: Scope, dry: bool, ds: map<string, Dataset>)
    ensures Tallies(AllRun(s, dry, ds), Sync(s, dry, Pass(ds, 0, 0, []), AllListed(s.remote)))
  {
    match s.remote.schemas
    case Failed(_) =>
    case Got(schemas) => SchemasAreOnePass(s, dry, ds, schemas, |schemas|);
  }

  /** One real reconcile_all that does not raise brings every readable fileset of every schema in sync and
      counts each created or updated dataset once. */
  lemma ReconcileAllConverges(s: Scope, ds: map<string, Dataset>)
    requires NewIds(s, ds)
    ensures var run := AllRun(s, false, ds);
            && (run.report.None? <==> !NoneAmbiguous(s, ds, AllListed(s.remote)))
            && (run.report.Some? ==>
                  && Reconciled(s, ds, AllListed(s.remote), run.datasets)
                  && run.report.value.created == |In(s, ds, AllListed(s.remote), Absent)|
                  && run.report.value.updated == |In(s, ds, AllListed(s.remote), Differs)|)
  {
    AllIsOnePass(s, false, ds);
    SyncCrashesIff(s, ds, AllListed(s.remote));
    if NoneAmbiguous(s, ds, AllListed(s.remote)) {
      SyncReconciles(s, ds, AllListed(s.remote));
    }
  }

  lemma QuietOne(s: Scope, p: Pass, place: Place)
    requires p.Pass? && StandingOf(s, p.datasets, place) in {InSync, Unreadable}
    ensures var after := SyncOne(s, false, p, place);
            after.Pass? && after.datasets == p.datasets && after.created == p.created && after.updated == p.updated
  {
  }

  /** A pass over places that are in sync or unreadable changes nothing and counts nothing. */
  lemma {:induction false} NothingToSync(s: Scope, ds: map<string, Dataset>, places: seq<Place>)
    requires forall q | q in places :: StandingOf(s, ds, q) in {InSync, Unreadable}
    ensures var after := Sync(s, false, Pass(ds, 0, 0, []), places);
            after.Pass? && after.datasets == ds && after.created == 0 && after.updated == 0
  {
    if places != [] {
      var front, place := places[..|places| - 1], places[|places| - 1];
      assert places == front + [place];
      NothingToSync(s, ds, front);
      QuietOne(s, Sync(s, false, Pass(ds, 0, 0, []), front), place);
    }
  }

  /** A second run over the same answers reports nothing created and nothing updated, and changes no row. */
  lemma SecondRunIsQuiet(s: Scope, ds: map<string, Dataset>, again: Scope)
    requires NewIds(s, ds) && AllRun(s, false, ds).report.Some?
    requires again.remote == s.remote && again.tenant == s.tenant
    ensures var first := AllRun(s, false, ds);
            var second := AllRun(again, false, first.datasets);
            && second.report.Some? && second.datasets == first.datasets
            && second.report.value.created == 0 && second.report.value.updated == 0
  {
    var rows, places := AllRun(s, false, ds).datasets, AllListed(s.remote);
    ReconcileAllConverges(s, ds);
    forall q | q in places ensures StandingOf(again, rows, q) in {InSync, Unreadable} {
      SameStanding(s, again, rows, q);
    }
    NothingToSync(again, rows, places);
    AllIsOnePass(again, false, rows);
  }

  /** How a place stands does not depend on the uuids to come. */
  lemma SameStanding(s: Scope, again: Scope, ds: map<string, Dataset>, q: Place)
    requires again.remote == s.remote && again.tenant == s.tenant
    ensures StandingOf(again, ds, q) == StandingOf(s, ds, q)
  {
    assert Found(again, ds, q) == Found(s, ds, q);
  }

  // ---- A name listed twice ----

  /** A fileset that is readable and not yet registered. */
  const NEW_FILESET := Place("s", "f")

  function OneFileset(): Scope {
    Scope(Remote("c", Got(["s"]), (_: string) => Got(["f", "f"]), (_: Place) => Got(Fileset("l", None))), "a",
          (_: Place) => "u")
  }

  /** Listed twice, it is created once, and a dry run announces two. */
  lemma DryRunCountsTwice()
    ensures Sync(OneFileset(), true, Pass(map[], 0, 0, []), [NEW_FILESET, NEW_FILESET]) == Pass(map[], 2, 0, [])
    ensures Sync(OneFileset(), false, Pass(map[], 0, 0, []), [NEW_FILESET, NEW_FILESET])
            == Pass(map["u" := Created(OneFileset(), NEW_FILESET, Fileset("l", None))], 1, 0, [])
  {
    var s, start, once := OneFileset(), Pass(map[], 0, 0, []), [NEW_FILESET];
    var row := Created(s, NEW_FILESET, Fileset("l", None));
    assert [NEW_FILESET, NEW_FILESET][..1] == once && once[..0] == [];
    assert Found(s, map[], NEW_FILESET) == {};
    assert Sync(s, true, start, once) == SyncOne(s, true, start, NEW_FILESET) == Pass(map[], 1, 0, []);
    assert Sync(s, false, start, once) == SyncOne(s, false, start, NEW_FILESET) == Pass(map["u" := row], 1, 0, []);
    assert Found(s, map["u" := row], NEW_FILESET) == {"u"};
  }
}
