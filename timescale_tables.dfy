/**
  The two TimescaleDB tables the sync writes (`experiments` and
  `metric_models_popularity`) and the insert-or-ignore statements it issues
  against them (`INSERT ... ON CONFLICT (...) DO NOTHING`).

  Times are naive datetimes, represented by their offset in microseconds on one
  time line, so that comparison and truncation to midnight are integer
  operations.
 */
module TimescaleTables {

  /** A naive datetime, as microseconds from a fixed origin at a midnight. */
  type Timestamp = int

  const MicrosPerDay: int := 86_400_000_000

  /** `t.replace(hour=0, minute=0, second=0, microsecond=0)`. */
  function Midnight(t: Timestamp): (r: Timestamp)
    ensures r <= t < r + MicrosPerDay
    ensures r % MicrosPerDay == 0
  {
    t - t % MicrosPerDay
  }

  /** Two instants on the same calendar day truncate to the same midnight. */
  lemma SameDaySameMidnight(t: Timestamp, u: Timestamp)
    requires Midnight(t) <= u < Midnight(t) + MicrosPerDay
    ensures Midnight(u) == Midnight(t)
  {
    var d := Midnight(t) / MicrosPerDay;
    assert Midnight(t) == d * MicrosPerDay;
    assert u - d * MicrosPerDay == u % MicrosPerDay by {
      assert 0 <= u - d * MicrosPerDay < MicrosPerDay;
      assert u == d * MicrosPerDay + (u - d * MicrosPerDay);
    }
  }

  /** A row of `experiments`: primary key `id`. */
  datatype ExperimentRow = ExperimentRow(id: int, name: string, model: string, createdTime: Timestamp)

  /** A row of `metric_models_popularity`: primary key `(time, model)`. */
  datatype PopularityRow = PopularityRow(time: Timestamp, model: string, count: int, totalCount: int, extractedTime: Timestamp)

  /** The popularity table's primary key; also the worker's grouping key `(creation day, model)`. */
  datatype DayModel = DayModel(day: Timestamp, model: string)

  function KeyOf(r: PopularityRow): DayModel {
    DayModel(r.time, r.model)
  }

  /** The persisted contents of both tables. */
  datatype Store = Store(experiments: seq<ExperimentRow>, popularity: seq<PopularityRow>)

  function IdsOf(rows: seq<ExperimentRow>): set<int> {
    set r | r in rows :: r.id
  }

  function KeysOf(rows: seq<PopularityRow>): set<DayModel> {
    set r | r in rows :: KeyOf(r)
  }

  predicate UniqueIds(rows: seq<ExperimentRow>) {
    forall i, j :: 0 <= i < j < |rows| ==> rows[i].id != rows[j].id
  }

  predicate UniqueKeys(rows: seq<PopularityRow>) {
    forall i, j :: 0 <= i < j < |rows| ==> KeyOf(rows[i]) != KeyOf(rows[j])
  }

  /** `INSERT INTO experiments ... ON CONFLICT (id) DO NOTHING`, row by row:
      existing rows are never touched and no id is ever stored twice. */
  function InsertIgnoreExperiments(table: seq<ExperimentRow>, batch: seq<ExperimentRow>): (r: seq<ExperimentRow>)
    ensures table <= r
    ensures IdsOf(r) == IdsOf(table) + IdsOf(batch)
    ensures UniqueIds(table) ==> UniqueIds(r)
    ensures forall i :: |table| <= i < |r| ==> r[i] in batch
    decreases |batch|
  {
    if batch == [] then table
    else
      var next := if batch[0].id in IdsOf(table) then table else table + [batch[0]];
      ExperimentStep(table, batch);
      var r := InsertIgnoreExperiments(next, batch[1..]);
      assert forall i :: |table| <= i < |r| ==> r[i] in batch by {
        forall i | |table| <= i < |r| ensures r[i] in batch {
          if i < |next| {
            assert r[i] == next[i] == batch[0];
          } else {
            assert r[i] in batch[1..];
          }
        }
      }
      r
  }

  /** One row of the experiments insert: its id becomes known, and no id is stored twice. */
  lemma ExperimentStep(table: seq<ExperimentRow>, batch: seq<ExperimentRow>)
    requires batch != []
    ensures var next := if batch[0].id in IdsOf(table) then table else table + [batch[0]];
            table <= next && IdsOf(next) == IdsOf(table) + {batch[0].id} &&
            IdsOf(batch) == {batch[0].id} + IdsOf(batch[1..]) &&
            (UniqueIds(table) ==> UniqueIds(next))
  {
    assert batch == [batch[0]] + batch[1..];
    if batch[0].id !in IdsOf(table) {
      var next := table + [batch[0]];
      assert forall r :: r in next <==> r in table || r == batch[0];
      if UniqueIds(table) {
        forall i, j | 0 <= i < j < |next| ensures next[i].id != next[j].id {
          if j == |table| {
            assert next[i] in table;
          }
        }
      }
    }
  }

  /** `INSERT INTO metric_models_popularity ... ON CONFLICT (time, model) DO NOTHING`, row by row:
      an existing `(time, model)` row is never overwritten. */
  function InsertIgnorePopularity(table: seq<PopularityRow>, batch: seq<PopularityRow>): (r: seq<PopularityRow>)
    ensures table <= r
    ensures KeysOf(r) == KeysOf(table) + KeysOf(batch)
    ensures UniqueKeys(table) ==> UniqueKeys(r)
    decreases |batch|
  {
    if batch == [] then table
    else
      var next := if KeyOf(batch[0]) in KeysOf(table) then table else table + [batch[0]];
      PopularityStep(table, batch);
      InsertIgnorePopularity(next, batch[1..])
  }

  /** One row of the popularity insert: its key becomes known, and no key is stored twice. */
  lemma PopularityStep(table: seq<PopularityRow>, batch: seq<PopularityRow>)
    requires batch != []
    ensures var next := if KeyOf(batch[0]) in KeysOf(table) then table else table + [batch[0]];
            table <= next && KeysOf(next) == KeysOf(table) + {KeyOf(batch[0])} &&
            KeysOf(batch) == {KeyOf(batch[0])} + KeysOf(batch[1..]) &&
            (UniqueKeys(table) ==> UniqueKeys(next))
  {
    assert batch == [batch[0]] + batch[1..];
    if KeyOf(batch[0]) !in KeysOf(table) {
      var next := table + [batch[0]];
      assert forall r :: r in next <==> r in table || r == batch[0];
      if UniqueKeys(table) {
        forall i, j | 0 <= i < j < |next| ensures KeyOf(next[i]) != KeyOf(next[j]) {
          if j == |table| {
            assert next[i] in table;
          }
        }
      }
    }
  }

  lemma PopularityUnfold(table: seq<PopularityRow>, batch: seq<PopularityRow>)
    requires batch != []
    ensures InsertIgnorePopularity(table, batch) ==
              InsertIgnorePopularity(if KeyOf(batch[0]) in KeysOf(table) then table else table + [batch[0]], batch[1..])
  {
  }

  lemma UniqueKeysTail(batch: seq<PopularityRow>)
    requires batch != [] && UniqueKeys(batch)
    ensures UniqueKeys(batch[1..])
  {
    forall i, j | 0 <= i < j < |batch| - 1 ensures KeyOf(batch[1..][i]) != KeyOf(batch[1..][j]) {
      assert batch[1..][i] == batch[i + 1] && batch[1..][j] == batch[j + 1];
    }
  }

  /** A later row's new key is still new after the first row is inserted. */
  lemma StillNew(table: seq<PopularityRow>, batch: seq<PopularityRow>, i: nat)
    requires 0 < i < |batch| && UniqueKeys(batch)
    requires KeyOf(batch[i]) !in KeysOf(table)
    ensures KeyOf(batch[1..][i - 1]) !in KeysOf(if KeyOf(batch[0]) in KeysOf(table) then table else table + [batch[0]])
  {
    PopularityStep(table, batch);
    assert KeyOf(batch[0]) != KeyOf(batch[i]);
    assert batch[1..][i - 1] == batch[i];
  }

  /** A popularity row whose key is new is stored exactly as given. */
  lemma {:induction false} NewKeyStored(table: seq<PopularityRow>, batch: seq<PopularityRow>, i: nat)
    requires i < |batch| && UniqueKeys(batch)
    requires KeyOf(batch[i]) !in KeysOf(table)
    ensures batch[i] in InsertIgnorePopularity(table, batch)
    decreases |batch|
  {
    var next := if KeyOf(batch[0]) in KeysOf(table) then table else table + [batch[0]];
    var rest := batch[1..];
    PopularityUnfold(table, batch);
    if i == 0 {
      PopularityStep(table, batch);
      var r := InsertIgnorePopularity(next, rest);
      assert next[|table|] == batch[0];
      assert r[|table|] == batch[0];
    } else {
      StillNew(table, batch, i);
      UniqueKeysTail(batch);
      NewKeyStored(next, rest, i - 1);
    }
  }
}
