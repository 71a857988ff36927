/** lcp.services.meta_sync_service: Gravitino's filesets are reconciled into dataset rows. */
module MetaSync {
  import opened Database

  /** What a call to Gravitino ends in. */
  datatype Answer<+T> = Got(value: T) | Failed(error: string)

  datatype Fileset = Fileset(location: string, comment: Option<string>)

  datatype Place = Place(schema: string, name: string)

  /** Gravitino as one catalog shows it, answering the same to the same question. */
  datatype Remote = Remote(catalog: string, schemas: Answer<seq<string>>, filesets: string -> Answer<seq<string>>,
                           fileset: Place -> Answer<Fileset>)

  /** What one reconciliation works with; `newId` gives the uuid of a row created for a place. */
  datatype Scope = Scope(remote: Remote, tenant: string, newId: Place -> string)

  function Found(s: Scope, ds: map<string, Dataset>, place: Place): set<string> {
    set u | u in ds && ds[u].catalog == s.remote.catalog && ds[u].dbSchema == place.schema
            && ds[u].tableName == place.name && ds[u].tenantId == s.tenant
  }

  /** A comment that is not empty. */
  predicate HasComment(f: Fileset) {
    f.comment.Some? && f.comment.value != ""
  }

  /** The row says what Gravitino says, wherever Gravitino says something. */
  predicate Agrees(row: Dataset, f: Fileset) {
    (f.location != "" ==> row.storageUri == f.location) && (HasComment(f) ==> row.description == f.comment)
  }

  function Created(s: Scope, place: Place, f: Fileset): Dataset {
    Dataset(s.tenant, s.remote.catalog, place.schema, place.name, f.location, f.comment, false)
  }

  function Aligned(row: Dataset, f: Fileset): Dataset {
    row.(storageUri := if f.location != "" then f.location else row.storageUri,
         description := if HasComment(f) then f.comment else row.description)
  }

  // ---- One pass, fileset by fileset ----

  /** Where a pass stands.  It crashes when a lookup finds several rows. */
  datatype Pass = Pass(datasets: map<string, Dataset>, created: nat, updated: nat, errors: seq<string>) | Crashed

  function SyncOne(s: Scope, dry: bool, p: Pass, place: Place): Pass {
    if p.Crashed? then p
    else
      match s.remote.fileset(place)
      case Failed(error) =>
        p.(errors := p.errors + ["get_fileset(" + place.schema + "/" + place.name + "): " + error])
      case Got(f) =>
        var found := Found(s, p.datasets, place);
        if found == {} then
          p.(created := p.created + 1,
             datasets := if dry then p.datasets else p.datasets[s.newId(place) := Created(s, place, f)])
        else if u :| u in found && found == {u} then
          if Agrees(p.datasets[u], f) then p
          else
            p.(updated := p.updated + 1,
               datasets := if dry then p.datasets else p.datasets[u := Aligned(p.datasets[u], f)])
        else Crashed
  }

  function Sync(s: Scope, dry: bool, p: Pass, places: seq<Place>): Pass {
    if places == [] then p else SyncOne(s, dry, Sync(s, dry, p, places[..|places| - 1]), places[|places| - 1])
  }

  // ---- reconcile_schema and reconcile_all ----

  datatype Report = Report(schemas: nat, discovered: nat, created: nat, updated: nat, errors: seq<string>)

  /** What a call leaves in the table, and its report unless it raised. */
  datatype Run = Run(datasets: map<string, Dataset>, report: Option<Report>)

  function PlacesOf(schema: string, names: seq<string>): (places: seq<Place>)
    ensures |places| == |names|
  {
    seq(|names|, i requires 0 <= i < |names| => Place(schema, names[i]))
  }

  function SchemaRun(s: Scope, dry: bool, ds: map<string, Dataset>, schema: string): Run {
    match s.remote.filesets(schema)
    case Failed(error) => Run(ds, Some(Report(0, 0, 0, 0, ["list_filesets(" + schema + "): " + error])))
    case Got(names) =>
      match Sync(s, dry, Pass(ds, 0, 0, []), PlacesOf(schema, names))
      case Crashed => Run(ds, None)
      case Pass(after, created, updated, errors) => Run(after, Some(Report(0, |names|, created, updated, errors)))
  }

  function Plus(total: Report, part: Report): Report {
    total.(discovered := total.discovered + part.discovered, created := total.created + part.created,
           updated := total.updated + part.updated, errors := total.errors + part.errors)
  }

  /** The schemas one after the other; each is committed by itself. */
  function SchemasRun(s: Scope, dry: bool, ds: map<string, Dataset>, schemas: seq<string>, total: Report): Run {
    if schemas == [] then Run(ds, Some(total))
    else
      var before := SchemasRun(s, dry, ds, schemas[..|schemas| - 1], total);
      if before.report.None? then before
      else
        var run := SchemaRun(s, dry, before.datasets, schemas[|schemas| - 1]);
        if run.report.None? then run else Run(run.datasets, Some(Plus(before.report.value, run.report.value)))
  }

  function AllRun(s: Scope, dry: bool, ds: map<string, Dataset>): Run {
    match s.remote.schemas
    case Failed(error) => Run(ds, Some(Report(0, 0, 0, 0, ["list_schemas: " + error])))
    case Got(schemas) => SchemasRun(s, dry, ds, schemas, Report(|schemas|, 0, 0, 0, []))
  }

  /** One round of the loop of reconcile_schema; `ok` is false when the lookup raises. */
  method ReconcileFileset(s: Scope, place: Place, dry: bool, before: Pass) returns (ok: bool, after: Pass)
    requires before.Pass?
    ensures after == SyncOne(s, dry, before, place) && (ok <==> after.Pass?)
  {
    var rows, created, updated, errors := before.datasets, before.created, before.updated, before.errors;
    match s.remote.fileset(place) {
      case Failed(error) =>
        errors := errors + ["get_fileset(" + place.schema + "/" + place.name + "): " + error];
      case Got(f) =>
        var found := Found(s, rows, place);
        if found == {} {
          if !dry {
            rows := rows[s.newId(place) := Created(s, place, f)];
          }
          created := created + 1;
        } else if |found| > 1 {
          return false, Crashed;
        } else {
          var u := TheOne(found);
          var row := rows[u];
          var changed := false;
          if f.location != "" && row.storageUri != f.location {
            row, changed := row.(storageUri := f.location), true;
          }
          if HasComment(f) && row.description != f.comment {
            row, changed := row.(description := f.comment), true;
          }
          if changed {
            updated := updated + 1;
            if !dry {
              rows := rows[u := row];
            }
          }
        }
    }
    return true, Pass(rows, created, updated, errors);
  }

  /** The loop of reconcile_schema over one uncommitted copy of the rows. */
  method ReconcileFilesets(s: Scope, places: seq<Place>, dry: bool, rows: map<string, Dataset>) returns (pass: Pass)
    ensures pass == Sync(s, dry, Pass(rows, 0, 0, []), places)
  {
    ghost var start := Pass(rows, 0, 0, []);
    pass := Pass(rows, 0, 0, []);
    for i := 0 to |places|
      invariant pass.Pass? && pass == Sync(s, dry, start, places[..i])
    {
      assert places[..i + 1][..i] == places[..i];
      var ok;
      ok, pass := ReconcileFileset(s, places[i], dry, pass);
      if !ok {
        assert Sync(s, dry, start, places[..i + 1]).Crashed?;
        CrashStays(s, dry, start, places, i);
        return;
      }
    }
    assert places[..|places|] == places;
  }

  method ReconcileSchema(session: Session, s: Scope, schema: string, dry: bool) returns (report: Option<Report>)
    modifies session`datasets
    ensures Run(session.datasets, report) == SchemaRun(s, dry, old(session.datasets), schema)
  {
    var listed := s.remote.filesets(schema);
    if listed.Failed? {
      return Some(Report(0, 0, 0, 0, ["list_filesets(" + schema + "): " + listed.error]));
    }
    var pass := ReconcileFilesets(s, PlacesOf(schema, listed.value), dry, session.datasets);
    if pass.Crashed? {
      // Nothing of this schema is committed.
      return None;
    }
    session.datasets := pass.datasets;
    report := Some(Report(0, |listed.value|, pass.created, pass.updated, pass.errors));
  }

  function TheOne(found: set<string>): (u: string)
    requires |found| == 1
    ensures found == {u}
  {
    var u :| u in found;
    assert found == {u} + (found - {u});
    u
  }

  /** A pass that has crashed stays crashed. */
  lemma {:induction false} CrashStays(s: Scope, dry: bool, p: Pass, places: seq<Place>, i: nat)
    requires i < |places| && Sync(s, dry, p, places[..i + 1]).Crashed?
    ensures Sync(s, dry, p, places).Crashed?
  {
    if i + 1 == |places| {
      assert places[..i + 1] == places;
    } else {
      var front := places[..|places| - 1];
      assert front[..i + 1] == places[..i + 1];
      CrashStays(s, dry, p, front, i);
    }
  }

  method ReconcileAll(session: Session, s: Scope, dry: bool) returns (report: Option<Report>)
    modifies session`datasets
    ensures Run(session.datasets, report) == AllRun(s, dry, old(session.datasets))
  {
    if s.remote.schemas.Failed? {
      return Some(Report(0, 0, 0, 0, ["list_schemas: " + s.remote.schemas.error]));
    }
    var schemas := s.remote.schemas.value;
    var total := Report(|schemas|, 0, 0, 0, []);
    ghost var start := total;
    for i := 0 to |schemas|
      invariant SchemasRun(s, dry, old(session.datasets), schemas[..i], start) == Run(session.datasets, Some(total))
    {
      assert schemas[..i + 1][..i] == schemas[..i];
      var partial := ReconcileSchema(session, s, schemas[i], dry);
      if partial.None? {
        RaiseStays(s, dry, old(session.datasets), schemas, start, i);
        return None;
      }
      total := Plus(total, partial.value);
    }
    assert schemas[..|schemas|] == schemas;
    report := Some(total);
  }

  /** Once a schema raises, the later ones are not reached. */
  lemma {:induction false} RaiseStays(s: Scope, dry: bool, ds: map<string, Dataset>, schemas: seq<string>,
                                      total: Report, i: nat)
    requires i < |schemas| && SchemasRun(s, dry, ds, schemas[..i + 1], total).report.None?
    ensures SchemasRun(s, dry, ds, schemas, total) == SchemasRun(s, dry, ds, schemas[..i + 1], total)
  {
    if i + 1 == |schemas| {
      assert schemas[..i + 1] == schemas;
    } else {
      var front := schemas[..|schemas| - 1];
      assert front[..i + 1] == schemas[..i + 1];
      RaiseStays(s, dry, ds, front, total, i);
    }
  }
}
