/** What a reconciliation makes of the dataset rows, told by their columns and Gravitino's answers alone. */
module MetaSyncRows {
  import opened Database
  import opened MetaSync
  import opened MetaSyncTheorems

  /** The row stands for the place: catalog, schema, name and tenant agree. */
  predicate StandsFor(s: Scope, row: Dataset, place: Place) {
    && row.catalog == s.remote.catalog && row.dbSchema == place.schema && row.tableName == place.name
    && row.tenantId == s.tenant
  }

  /** A row as it is inserted for a place: its columns are Gravitino's answer, and it is not soft-deleted. */
  predicate Inserted(s: Scope, row: Dataset, place: Place, f: Fileset) {
    StandsFor(s, row, place) && row.storageUri == f.location && row.description == f.comment && !row.deleted
  }

  /** Location and comment are Gravitino's unless it has none to give; then the row keeps its own. */
  predicate Overwritten(before: Dataset, after: Dataset, f: Fileset) {
    && after.storageUri == (if |f.location| > 0 then f.location else before.storageUri)
    && after.description == (if f.comment.Some? && |f.comment.value| > 0 then f.comment else before.description)
    && (after.tenantId, after.catalog, after.dbSchema, after.tableName, after.deleted)
       == (before.tenantId, before.catalog, before.dbSchema, before.tableName, before.deleted)
  }

  /** Two rows stand for one place that Gravitino answers for. */
  predicate TwoRowsFor(s: Scope, ds: map<string, Dataset>, place: Place) {
    s.remote.fileset(place).Got? &&
    exists u, v | u in ds && v in ds :: u != v && StandsFor(s, ds[u], place) && StandsFor(s, ds[v], place)
  }

  lemma FoundIff(s: Scope, ds: map<string, Dataset>, place: Place, u: string)
    ensures u in Found(s, ds, place) <==> u in ds && StandsFor(s, ds[u], place)
  {
  }

  lemma AmbiguousIff(s: Scope, ds: map<string, Dataset>, place: Place)
    ensures StandingOf(s, ds, place) == Ambiguous <==> TwoRowsFor(s, ds, place)
  {
    var found := Found(s, ds, place);
    forall u ensures u in found <==> u in ds && StandsFor(s, ds[u], place) {
      FoundIff(s, ds, place, u);
    }
    if s.remote.fileset(place).Got? && found != {} && !TwoRowsFor(s, ds, place) {
      var u :| u in found;
      assert found == {u};
    }
  }

  /** A pass raises exactly when two rows stand for a place it lists and can read. */
  lemma RaisesIff(s: Scope, ds: map<string, Dataset>, places: seq<Place>)
    requires NewIds(s, ds)
    ensures Sync(s, false, Pass(ds, 0, 0, []), places).Crashed? <==> exists q | q in places :: TwoRowsFor(s, ds, q)
  {
    SyncCrashesIff(s, ds, places);
    forall q ensures StandingOf(s, ds, q) == Ambiguous <==> TwoRowsFor(s, ds, q) {
      AmbiguousIff(s, ds, q);
    }
  }

  /** Every row a real pass adds was inserted for a listed place that Gravitino answered for and no row stood for. */
  lemma AddedByColumns(s: Scope, ds: map<string, Dataset>, places: seq<Place>, u: string)
    requires NewIds(s, ds) && Sync(s, false, Pass(ds, 0, 0, []), places).Pass?
    requires u !in ds && u in Sync(s, false, Pass(ds, 0, 0, []), places).datasets
    ensures exists q | q in places :: && s.remote.fileset(q).Got? && (forall v | v in ds :: !StandsFor(s, ds[v], q))
                                      && Inserted(s, Sync(s, false, Pass(ds, 0, 0, []), places).datasets[u], q,
                                                  s.remote.fileset(q).value)
  {
    SyncCrashesIff(s, ds, places);
    AddedRowsAreMade(s, ds, places, u);
    var after := Sync(s, false, Pass(ds, 0, 0, []), places).datasets;
    var q :| q in places && MadeFor(s, ds, q, u, after[u]);
    forall v | v in ds ensures !StandsFor(s, ds[v], q) {
      FoundIff(s, ds, q, v);
    }
  }

  /** The place a row stands for, if it is of the catalog and the tenant at all. */
  function PlaceOf(row: Dataset): Place {
    Place(row.dbSchema, row.tableName)
  }

  /** Gravitino lists the row's place and answers for it. */
  predicate AnsweredFor(s: Scope, row: Dataset, places: seq<Place>) {
    row.catalog == s.remote.catalog && row.tenantId == s.tenant && PlaceOf(row) in places
    && s.remote.fileset(PlaceOf(row)).Got?
  }

  /** The row after a pass: overwritten when it was answered for, and as it was otherwise. */
  predicate Kept(s: Scope, before: Dataset, after: Dataset, places: seq<Place>) {
    if AnsweredFor(s, before, places) then Overwritten(before, after, s.remote.fileset(PlaceOf(before)).value)
    else after == before
  }

  lemma KeptByOne(s: Scope, p: Pass, place: Place, u: string)
    requires p.Pass? && u in p.datasets && SyncOne(s, false, p, place).Pass?
    requires StandingOf(s, p.datasets, place) == Absent ==> s.newId(place) !in p.datasets
    ensures u in SyncOne(s, false, p, place).datasets
    ensures Kept(s, p.datasets[u], SyncOne(s, false, p, place).datasets[u], [place])
  {
    FoundIff(s, p.datasets, place, u);
  }

  lemma KeptAgain(s: Scope, a: Dataset, b: Dataset, c: Dataset, front: seq<Place>, place: Place)
    requires Kept(s, a, b, front) && Kept(s, b, c, [place])
    ensures Kept(s, a, c, front + [place])
  {
    assert PlaceOf(a) in front + [place] <==> PlaceOf(a) in front || PlaceOf(a) in [place];
  }

  /** A row that was there is overwritten when Gravitino lists its place and answers for it, and otherwise is as it
      was. */
  lemma {:induction false} KeptByColumns(s: Scope, ds: map<string, Dataset>, places: seq<Place>, u: string)
    requires NewIds(s, ds) && Sync(s, false, Pass(ds, 0, 0, []), places).Pass? && u in ds
    ensures u in Sync(s, false, Pass(ds, 0, 0, []), places).datasets
    ensures Kept(s, ds[u], Sync(s, false, Pass(ds, 0, 0, []), places).datasets[u], places)
  {
    if places != [] {
      var front, place := places[..|places| - 1], places[|places| - 1];
      assert places == front + [place];
      var p := Sync(s, false, Pass(ds, 0, 0, []), front);
      KeptByColumns(s, ds, front, u);
      SyncCrashesIff(s, ds, front);
      SyncReconciles(s, ds, front);
      KeptByOne(s, p, place, u);
      KeptAgain(s, ds[u], p.datasets[u], SyncOne(s, false, p, place).datasets[u], front, place);
    }
  }

  /** After a real pass one row, and only one, stands for each listed place that Gravitino answered for. */
  lemma OneRowForEach(s: Scope, ds: map<string, Dataset>, places: seq<Place>, q: Place)
    requires NewIds(s, ds) && Sync(s, false, Pass(ds, 0, 0, []), places).Pass?
    requires q in places && s.remote.fileset(q).Got?
    ensures var after := Sync(s, false, Pass(ds, 0, 0, []), places).datasets;
            exists u | u in after :: StandsFor(s, after[u], q)
                                     && forall v | v in after :: StandsFor(s, after[v], q) ==> v == u
  {
    SyncCrashesIff(s, ds, places);
    SyncReconciles(s, ds, places);
    InSyncIsOneRow(s, Sync(s, false, Pass(ds, 0, 0, []), places).datasets, q);
  }

  lemma InSyncIsOneRow(s: Scope, ds: map<string, Dataset>, q: Place)
    requires StandingOf(s, ds, q) == InSync
    ensures exists u | u in ds :: StandsFor(s, ds[u], q) && forall v | v in ds :: StandsFor(s, ds[v], q) ==> v == u
  {
    var found := Found(s, ds, q);
    var u :| u in found && found == {u};
    FoundIff(s, ds, q, u);
    forall v | v in ds && StandsFor(s, ds[v], q) ensures v == u {
      FoundIff(s, ds, q, v);
    }
  }

  // ---- The report ----

  /** What went wrong with Gravitino, in the order it was asked: listing the schemas, listing a schema's filesets,
      and reading a fileset. */
  function RemoteErrors(r: Remote, schemas: seq<string>): seq<string> {
    if schemas == [] then []
    else
      var schema := schemas[|schemas| - 1];
      RemoteErrors(r, schemas[..|schemas| - 1])
      + match r.filesets(schema)
        case Failed(error) => ["list_filesets(" + schema + "): " + error]
        case Got(names) => PlaceErrors(r, PlacesOf(schema, names))
  }

  lemma OneSchemaReported(s: Scope, dry: bool, ds: map<string, Dataset>, schema: string)
    requires SchemaRun(s, dry, ds, schema).report.Some?
    ensures var report := SchemaRun(s, dry, ds, schema).report.value;
            && report.discovered == |Listed(s.remote, schema)|
            && report.errors == RemoteErrors(s.remote, [schema])
  {
    assert [schema][..0] == [];
    match s.remote.filesets(schema)
    case Failed(_) =>
    case Got(names) => ErrorsAreRemote(s, dry, ds, PlacesOf(schema, names));
  }

  lemma RemoteErrorsMore(r: Remote, front: seq<string>, schema: string)
    ensures RemoteErrors(r, front + [schema]) == RemoteErrors(r, front) + RemoteErrors(r, [schema])
  {
    assert (front + [schema])[..|front|] == front && [schema][..0] == [];
  }

  lemma {:induction false} SchemasReported(s: Scope, dry: bool, ds: map<string, Dataset>, schemas: seq<string>, n: nat)
    ensures var report := SchemasRun(s, dry, ds, schemas, Report(n, 0, 0, 0, [])).report;
            report.Some? ==> report.value.schemas == n
                             && report.value.discovered == |ListedIn(s.remote, schemas)|
                             && report.value.errors == RemoteErrors(s.remote, schemas)
  {
    if schemas != [] {
      var front, schema := schemas[..|schemas| - 1], schemas[|schemas| - 1];
      assert schemas == front + [schema];
      SchemasReported(s, dry, ds, front, n);
      RemoteErrorsMore(s.remote, front, schema);
      var before := SchemasRun(s, dry, ds, front, Report(n, 0, 0, 0, []));
      if before.report.Some? && SchemaRun(s, dry, before.datasets, schema).report.Some? {
        OneSchemaReported(s, dry, before.datasets, schema);
      }
    }
  }

  /** A run that does not raise, real or dry, reports every schema and every fileset listed, and each error of
      Gravitino's, in order and whatever the rows are. */
  lemma ReportIsComplete(s: Scope, dry: bool, ds: map<string, Dataset>)
    requires AllRun(s, dry, ds).report.Some?
    ensures var report := AllRun(s, dry, ds).report.value;
            && report.schemas == (if s.remote.schemas.Got? then |s.remote.schemas.value| else 0)
            && report.discovered == |AllListed(s.remote)|
            && report.errors == (if s.remote.schemas.Failed? then ["list_schemas: " + s.remote.schemas.error]
                                 else RemoteErrors(s.remote, s.remote.schemas.value))
  {
    match s.remote.schemas
    case Failed(_) =>
    case Got(schemas) => SchemasReported(s, dry, ds, schemas, |schemas|);
  }

  /** The places a run looks at are the names that some listed schema lists. */
  lemma {:induction false} ListedIff(r: Remote, schemas: seq<string>, q: Place)
    ensures q in ListedIn(r, schemas)
            <==> q.schema in schemas && r.filesets(q.schema).Got? && q.name in r.filesets(q.schema).value
  {
    if schemas != [] {
      var front, schema := schemas[..|schemas| - 1], schemas[|schemas| - 1];
      assert schemas == front + [schema];
      ListedIff(r, front, q);
      ListedInSchemaIff(r, schema, q);
    }
  }

  lemma ListedInSchemaIff(r: Remote, schema: string, q: Place)
    ensures q in Listed(r, schema)
            <==> q.schema == schema && r.filesets(schema).Got? && q.name in r.filesets(schema).value
  {
    if r.filesets(schema).Got? {
      var names := r.filesets(schema).value;
      if q.schema == schema && q.name in names {
        var i :| 0 <= i < |names| && names[i] == q.name;
        assert PlacesOf(schema, names)[i] == q;
      }
    }
  }
}
