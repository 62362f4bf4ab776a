/**
  The materialized view `mv_latest_popular_models` (src/data/db_init/materialized_views.py):
  its SQL definition as functions over the rows of `metric_models_popularity`,
  and the create/refresh procedures as decisions over an abstract catalogue
  (does the popularity table exist, and what kind of relation holds the view's name).
 */
module MaterializedViews {
  import opened Wrappers
  import opened TimescaleTables

  /** One row of the view: the model, `SUM(count)`, the `total_count` of its latest record,
      and `MAX(extracted_time)`. */
  datatype ViewRow = ViewRow(model: string, count: int, totalCount: int, lastUpdated: Timestamp)

  function Models(rows: seq<PopularityRow>): set<string> {
    set r | r in rows :: r.model
  }

  /** `SUM(mp.count)` over the rows of model `m`. */
  function SumCount(rows: seq<PopularityRow>, m: string): int {
    if rows == [] then 0
    else SumCount(rows[..|rows| - 1], m) + (if rows[|rows| - 1].model == m then rows[|rows| - 1].count else 0)
  }

  /** `MAX(mp.extracted_time)` over the rows of model `m`; None when it has no rows. */
  function MaxExtracted(rows: seq<PopularityRow>, m: string): (r: Option<Timestamp>)
    ensures r.None? <==> m !in Models(rows)
    ensures r.Some? ==> exists x :: x in rows && x.model == m && x.extractedTime == r.value
    ensures r.Some? ==> forall x :: x in rows && x.model == m ==> x.extractedTime <= r.value
  {
    if rows == [] then None
    else
      var rest := MaxExtracted(rows[1..], m);
      assert forall x :: x in rows <==> x == rows[0] || x in rows[1..];
      if rows[0].model != m then rest
      else if rest.None? || rest.value <= rows[0].extractedTime then Some(rows[0].extractedTime)
      else rest
  }

  /** The record the view takes `total_count` from: the model's row with the greatest `time`
      (`latest_updates`), and among those the greatest `extracted_time` (`rn = 1`); on a full tie
      the first in table order. */
  function LatestRecord(rows: seq<PopularityRow>, m: string): (r: Option<PopularityRow>)
    ensures r.None? <==> m !in Models(rows)
    ensures r.Some? ==> r.value in rows && r.value.model == m
    ensures r.Some? ==> forall x :: x in rows && x.model == m ==>
              x.time < r.value.time || (x.time == r.value.time && x.extractedTime <= r.value.extractedTime)
  {
    if rows == [] then None
    else
      var rest := LatestRecord(rows[1..], m);
      assert forall x :: x in rows <==> x == rows[0] || x in rows[1..];
      if rows[0].model != m then rest
      else if rest.None? || rest.value.time < rows[0].time
           || (rest.value.time == rows[0].time && rest.value.extractedTime <= rows[0].extractedTime)
      then Some(rows[0])
      else rest
  }

  /** The view's contents after a refresh: one row per model present in the table. */
  function View(rows: seq<PopularityRow>): (v: map<string, ViewRow>)
    ensures v.Keys == Models(rows)
  {
    map m | m in Models(rows) ::
      ViewRow(m, SumCount(rows, m), LatestRecord(rows, m).value.totalCount, MaxExtracted(rows, m).value)
  }

  /** Each view row aggregates exactly its model's rows: the count is their sum, `last_updated` is an
      `extracted_time` of one of them and no earlier than any, and `total_count` comes from a row at the
      model's latest `time` that no other row at that time was extracted after. */
  lemma ViewRowDefinition(rows: seq<PopularityRow>, m: string)
    requires m in Models(rows)
    ensures m in View(rows) && View(rows)[m].count == SumCount(rows, m)
    ensures exists x :: x in rows && x.model == m && x.extractedTime == View(rows)[m].lastUpdated
    ensures forall x :: x in rows && x.model == m ==> x.extractedTime <= View(rows)[m].lastUpdated
    ensures exists x :: x in rows && x.model == m && x.totalCount == View(rows)[m].totalCount
                && (forall y :: y in rows && y.model == m ==> y.time <= x.time)
                && (forall y :: y in rows && y.model == m && y.time == x.time ==> y.extractedTime <= x.extractedTime)
  {
    var x := LatestRecord(rows, m).value;
    assert x in rows && x.model == m;
  }

  /** Under the table's primary key `(time, model)` the view's `total_count` is that of the one row
      at the model's latest `time`, so the tie-break on `extracted_time` never decides anything. */
  lemma {:induction false} LatestRecordUnique(rows: seq<PopularityRow>, m: string, x: PopularityRow)
    requires UniqueKeys(rows)
    requires x in rows && x.model == m
    requires forall y :: y in rows && y.model == m ==> y.time <= x.time
    ensures LatestRecord(rows, m) == Some(x)
  {
    var r := LatestRecord(rows, m).value;
    assert r.time == x.time;
    var i :| 0 <= i < |rows| && rows[i] == r;
    var j :| 0 <= j < |rows| && rows[j] == x;
    assert KeyOf(rows[i]) == KeyOf(rows[j]);
    assert i == j;
  }

  /** `SUM(count)` is additive over appended rows. */
  lemma {:induction false} SumCountAppend(a: seq<PopularityRow>, b: seq<PopularityRow>, m: string)
    ensures SumCount(a + b, m) == SumCount(a, m) + SumCount(b, m)
    decreases |b|
  {
    if b == [] {
      assert a + b == a;
    } else {
      var b' := b[..|b| - 1];
      assert (a + b)[..|a + b| - 1] == a + b';
      SumCountAppend(a, b', m);
    }
  }

  // ---------------------------------------------------------------------------------------------
  // Catalogue state and the create / refresh procedures

  /** What currently holds the name `mv_latest_popular_models`. A materialized view created
      `WITH NO DATA` holds None until its first refresh. */
  datatype NameHolder =
    | Vacant
    | MatView(data: Option<map<string, ViewRow>>)
    | Table
    | OtherRelation

  datatype Catalog = Catalog(popularityTableExists: bool, viewName: NameHolder)

  /** The `DatabaseException` every failure here is reported as. */
  datatype DbError = DatabaseException(message: string)

  const CreateFailed: string := "Failed to create materialized view"
  const CreateFailedUnexpectedly: string := "Failed to create materialized view due to unexpected error"

  /** The outcome of one `DROP ... IF EXISTS` statement. */
  datatype DropResult = Dropped(after: NameHolder) | NotAMaterializedView | DropError

  /** `DROP MATERIALIZED VIEW IF EXISTS`: removes a materialized view, ignores a vacant name, and
      reports "is not a materialized view" for any other relation. */
  function DropMaterializedView(h: NameHolder): DropResult {
    match h
    case Vacant => Dropped(Vacant)
    case MatView(_) => Dropped(Vacant)
    case _ => NotAMaterializedView
  }

  /** `DROP TABLE IF EXISTS`: removes a table, ignores a vacant name, fails on any other relation. */
  function DropTable(h: NameHolder): DropResult {
    match h
    case Vacant => Dropped(Vacant)
    case Table => Dropped(Vacant)
    case _ => DropError
  }

  /** The state of the session's transaction: PostgreSQL aborts it when a statement fails, and
      refuses every later statement until it is rolled back. */
  datatype Transaction = Open | Aborted

  /** A `DROP` issued in the given transaction state. */
  function InTransaction(t: Transaction, r: DropResult): DropResult {
    if t == Aborted then DropError else r
  }

  /** The second session of the creation: drop a materialized view; when the name is held by something
      else, the handler falls back to dropping a table, but issues that statement in the transaction the
      failed drop has aborted, so it is refused and the session rolls back (None). Only a vacant name or
      a materialized view is cleared. */
  function ClearViewName(h: NameHolder): (r: Option<NameHolder>)
    ensures r.Some? <==> h.Vacant? || h.MatView?
    ensures r.Some? ==> r.value == Vacant
  {
    match DropMaterializedView(h)
    case Dropped(after) => Some(after)
    case NotAMaterializedView =>
      (match InTransaction(Aborted, DropTable(h)) case Dropped(after) => Some(after) case _ => None)
    case DropError => None
  }

  /** The catalogue and the outcome of `create_popular_models_materialized_view` from `cat`. */
  function Created(cat: Catalog): (Catalog, Result<bool, DbError>) {
    if !cat.popularityTableExists then (cat, Failure(DatabaseException(CreateFailedUnexpectedly)))
    else match ClearViewName(cat.viewName)
      case None => (cat, Failure(DatabaseException(CreateFailed)))
      case Some(_) => (cat.(viewName := MatView(None)), Success(true))
  }

  /** The table fallback never clears the name: the creation succeeds only over a vacant name or a
      materialized view, and a table, which `DROP TABLE` would remove in a fresh transaction, is
      still there after the creation failed. */
  lemma TableFallbackNeverSucceeds(cat: Catalog)
    ensures Created(cat).1.Success? <==> cat.popularityTableExists && (cat.viewName.Vacant? || cat.viewName.MatView?)
    ensures cat.viewName.Table? ==> InTransaction(Open, DropTable(cat.viewName)) == Dropped(Vacant)
    ensures cat.viewName.Table? ==> Created(cat).0.viewName == Table && Created(cat).1.Failure?
  {
  }

  /** `create_popular_models_materialized_view`: three sessions, each committed on its own.
      Fails when the popularity table is missing, or when the name is held by anything but a
      materialized view; otherwise the name ends up holding a fresh view with no data. */
  method CreatePopularModelsView(cat: Catalog) returns (after: Catalog, outcome: Result<bool, DbError>)
    ensures !cat.popularityTableExists ==> after == cat && outcome == Failure(DatabaseException(CreateFailedUnexpectedly))
    ensures cat.popularityTableExists && (cat.viewName.Table? || cat.viewName.OtherRelation?) ==>
              after == cat && outcome == Failure(DatabaseException(CreateFailed))
    ensures cat.popularityTableExists && (cat.viewName.Vacant? || cat.viewName.MatView?) ==>
              after == cat.(viewName := MatView(None)) && outcome == Success(true)
    ensures (after, outcome) == Created(cat)
  {
    after := cat;
    // Session 1: the existence check; the DatabaseException it raises is not an SQLAlchemyError,
    // so the outer handler re-wraps it as an unexpected error.
    if !cat.popularityTableExists {
      return after, Failure(DatabaseException(CreateFailedUnexpectedly));
    }
    // Session 2: drop whatever holds the name (rolled back when the drop fails).
    var cleared := ClearViewName(cat.viewName);
    if cleared.None? {
      return after, Failure(DatabaseException(CreateFailed));
    }
    after := after.(viewName := cleared.value);
    // Session 3: CREATE MATERIALIZED VIEW ... WITH NO DATA (its indexes are not modelled).
    after := after.(viewName := MatView(None));
    outcome := Success(true);
  }

  /** Whether a refresh from catalogue state `cat` succeeds. */
  predicate RefreshSucceeds(cat: Catalog) {
    cat.viewName.MatView? || (cat.popularityTableExists && cat.viewName.Vacant?)
  }

  /** The catalogue after a refresh attempt from `cat` over the table rows `rows`. */
  function Refreshed(cat: Catalog, rows: seq<PopularityRow>): Catalog {
    if RefreshSucceeds(cat) then cat.(viewName := MatView(Some(View(rows)))) else cat
  }

  /** `refresh_materialized_views`: creates the view first when `pg_matviews` does not list it, then
      `REFRESH MATERIALIZED VIEW`, which fills it with the aggregate of the current rows. A creation
      failure propagates unchanged and leaves the catalogue as it was. */
  method RefreshMaterializedViews(cat: Catalog, rows: seq<PopularityRow>) returns (after: Catalog, outcome: Result<bool, DbError>)
    ensures outcome.Success? <==> cat.viewName.MatView? || (cat.popularityTableExists && cat.viewName.Vacant?)
    ensures outcome.Success? ==> after == cat.(viewName := MatView(Some(View(rows))))
    ensures outcome.Failure? ==> after == cat && outcome.error.message in {CreateFailed, CreateFailedUnexpectedly}
    ensures outcome.Success? == RefreshSucceeds(cat) && after == Refreshed(cat, rows)
  {
    after := cat;
    var viewExists := cat.viewName.MatView?;
    if !viewExists {
      var created;
      after, created := CreatePopularModelsView(cat);
      if created.Failure? {
        return after, Failure(created.error);
      }
    }
    after := after.(viewName := MatView(Some(View(rows))));
    outcome := Success(true);
  }
}
