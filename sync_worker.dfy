/**
  `AutosubmitSyncWorker` (src/workers/workers/autosubmit_sync_worker.py): one
  synchronisation cycle from the Autosubmit SQLite database to TimescaleDB.

  The database reads are inputs (the joined `details`/`experiment` rows, the
  persisted ids, the persisted popularity keys and rows), the writes are the
  batches of insert-or-ignore statements the cycle emits, and a failure of the
  update session is an input flag.
 */
module SyncWorker {
  import opened Wrappers
  import opened PyText
  import opened Grouping
  import opened TimescaleTables
  import MaterializedViews

  /** Raw model values the extraction query excludes, compared exactly and before cleaning. */
  const InvalidModelValues: seq<string> := ["NA", "Blabla", "blabla"]

  /** Rows per insert statement. */
  const BatchSize: nat := 100

  // ---------------------------------------------------------------------------------------------
  // Model-name cleaning

  /** `_clean_model_name`: an empty name is returned as is; otherwise every trailing `/` goes, and
      then, if what is left starts and ends with `'`, one quote at each end. */
  function CleanModelName(name: string): (r: string)
    ensures |r| <= |name|
  {
    if name == [] then name
    else
      var t := RStrip(name, '/');
      if StartsWith(t, '\'') && EndsWith(t, '\'') then Inner(t) else t
  }

  function Slashes(k: nat): (r: string)
    ensures |r| == k && forall i :: 0 <= i < k ==> r[i] == '/'
  {
    if k == 0 then [] else Slashes(k - 1) + ['/']
  }

  lemma {:induction false} RStripSlashes(s: string, k: nat)
    ensures RStrip(s + Slashes(k), '/') == RStrip(s, '/')
  {
    if k > 0 {
      assert (s + Slashes(k))[..|s + Slashes(k)| - 1] == s + Slashes(k - 1);
      RStripSlashes(s, k - 1);
    } else {
      assert s + Slashes(k) == s;
    }
  }

  /** Any number of trailing slashes is ignored. */
  lemma CleanIgnoresTrailingSlashes(s: string, k: nat)
    ensures CleanModelName(s + Slashes(k)) == CleanModelName(s)
  {
    RStripSlashes(s, k);
    if s == [] {
      RStripSlashes([], k);
      assert RStrip([], '/') == [];
    }
  }

  /** One pair of surrounding quotes is removed, whatever is inside, also under trailing slashes. */
  lemma CleanUnquotes(inner: string, k: nat)
    ensures CleanModelName(['\''] + inner + ['\''] + Slashes(k)) == inner
  {
    var q := ['\''] + inner + ['\''];
    CleanIgnoresTrailingSlashes(q, k);
    assert RStrip(q, '/') == q;
    assert Inner(q) == inner;
  }

  /** The names cleaning leaves alone: empty ones, and those that neither end in `/` nor are wrapped in quotes. */
  lemma CleanFixedPoints(t: string)
    ensures CleanModelName(t) == t <==>
              t == [] || (!EndsWith(t, '/') && !(StartsWith(t, '\'') && EndsWith(t, '\'')))
  {
    if t != [] {
      var u := RStrip(t, '/');
      if EndsWith(t, '/') {
        assert |u| < |t|;
        assert |CleanModelName(t)| <= |u|;
      } else {
        assert u == t;
      }
    }
  }

  /** Cleaning is not idempotent: a doubly quoted name loses one quote pair per application, and a
      quoted name with an inner trailing slash loses the slash only on the second application. */
  lemma CleanNotIdempotent()
    ensures CleanModelName("''x''") == "'x'" && CleanModelName(CleanModelName("''x''")) == "x"
    ensures CleanModelName("'a/'") == "a/" && CleanModelName(CleanModelName("'a/'")) == "a"
  {
    CleanDoublyQuoted();
    CleanQuotedSlash();
  }

  lemma CleanDoublyQuoted()
    ensures CleanModelName("''x''") == "'x'" && CleanModelName("'x'") == "x"
  {
    CleanQuoted("'x'");
    assert ['\''] + "'x'" + ['\''] == "''x''";
    CleanQuoted("x");
    assert ['\''] + "x" + ['\''] == "'x'";
  }

  lemma CleanQuotedSlash()
    ensures CleanModelName("'a/'") == "a/" && CleanModelName("a/") == "a"
  {
    CleanQuoted("a/");
    assert ['\''] + "a/" + ['\''] == "'a/'";
    assert Slashes(1) == "/" by { assert Slashes(0) == []; }
    assert "a" + Slashes(1) == "a/";
    CleanIgnoresTrailingSlashes("a", 1);
    CleanFixedPoints("a");
  }

  /** The cleaning examples of the worker's unit tests: trailing slashes go. */
  lemma CleanExamplesSlashes()
    ensures CleanModelName("EC-Earth/") == "EC-Earth"
    ensures CleanModelName("EC-Earth///") == "EC-Earth"
    ensures CleanModelName("EC-Earth") == "EC-Earth"
  {
    var m := "EC-Earth";
    CleanFixedPoints(m);
    assert Slashes(1) == "/" by { assert Slashes(0) == []; }
    assert Slashes(3) == "///" by { assert Slashes(2) == "//"; }
    assert m + Slashes(1) == "EC-Earth/";
    assert m + Slashes(3) == "EC-Earth///";
    CleanIgnoresTrailingSlashes(m, 1);
    CleanIgnoresTrailingSlashes(m, 3);
  }

  /** A name wrapped in one pair of quotes, with nothing after them. */
  lemma CleanQuoted(inner: string)
    ensures CleanModelName(['\''] + inner + ['\'']) == inner
  {
    CleanUnquotes(inner, 0);
    assert ['\''] + inner + ['\''] + Slashes(0) == ['\''] + inner + ['\''];
  }

  /** The cleaning examples of the worker's unit tests: surrounding quotes go. */
  lemma CleanExamplesQuotes()
    ensures CleanModelName("'CMCC-ESM2'") == "CMCC-ESM2"
    ensures CleanModelName("'EC-Earth'") == "EC-Earth"
  {
    CleanQuoted("CMCC-ESM2");
    assert ['\''] + "CMCC-ESM2" + ['\''] == "'CMCC-ESM2'";
    CleanQuoted("EC-Earth");
    assert ['\''] + "EC-Earth" + ['\''] == "'EC-Earth'";
  }

  // ---------------------------------------------------------------------------------------------
  // Extraction

  /** One row of the `details` JOIN `experiment` query: the detail's fields, its `credated` value
      (None when `created` is empty) and the experiment's name. */
  datatype DetailRow = DetailRow(
    expId: int, user: string, model: string, branch: string, hpc: string,
    credated: Option<Timestamp>, name: string)

  predicate IsInvalidModel(model: string) {
    model in InvalidModelValues
  }

  /** The rows the query returns: `WHERE NOT model IN (invalid_model_values)`, in table order. */
  function Selected(rows: seq<DetailRow>): (r: seq<DetailRow>)
    ensures forall x :: x in r <==> x in rows && !IsInvalidModel(x.model)
    ensures |r| <= |rows|
  {
    if rows == [] then []
    else
      var last := rows[|rows| - 1];
      assert forall x :: x in rows <==> x in rows[..|rows| - 1] || x == last;
      Selected(rows[..|rows| - 1]) + (if IsInvalidModel(last.model) then [] else [last])
  }

  /** `_extract_autosubmit_experiments`: each selected row, in order, with its model cleaned.
      `Extracted` below is its specification as a value. */
  method ExtractAutosubmitExperiments(rows: seq<DetailRow>) returns (experiments: seq<DetailRow>)
    ensures |experiments| == |Selected(rows)|
    ensures forall i :: 0 <= i < |experiments| ==>
              experiments[i] == Selected(rows)[i].(model := CleanModelName(Selected(rows)[i].model))
  {
    var result := Selected(rows);
    experiments := [];
    for i := 0 to |result|
      invariant |experiments| == i
      invariant forall j :: 0 <= j < i ==> experiments[j] == result[j].(model := CleanModelName(result[j].model))
    {
      var detail := result[i];
      experiments := experiments + [detail.(model := CleanModelName(detail.model))];
    }
  }

  /** The extraction as a value, for stating properties of whole cycles: the specification of
      `ExtractAutosubmitExperiments`. */
  function Extracted(rows: seq<DetailRow>): (r: seq<DetailRow>)
    ensures |r| == |Selected(rows)|
  {
    var s := Selected(rows);
    seq(|s|, i requires 0 <= i < |s| => s[i].(model := CleanModelName(s[i].model)))
  }

  /** The denylist is matched against the raw value: a row whose model is `NA/` is extracted, and
      its cleaned model is `NA`. */
  lemma DenylistMatchesRawValue(row: DetailRow)
    requires row.model == "NA/"
    ensures Extracted([row]) == [row.(model := "NA")]
  {
    CleanSlashedNA();
    assert !IsInvalidModel(row.model);
    SelectedOne(row);
    assert Extracted([row])[0] == row.(model := CleanModelName("NA/"));
  }

  lemma CleanSlashedNA()
    ensures CleanModelName("NA/") == "NA"
  {
    assert Slashes(1) == "/" by { assert Slashes(0) == []; }
    assert "NA" + Slashes(1) == "NA/";
    CleanIgnoresTrailingSlashes("NA", 1);
    CleanFixedPoints("NA");
  }

  lemma SelectedOne(row: DetailRow)
    requires !IsInvalidModel(row.model)
    ensures Selected([row]) == [row]
  {
    assert [row][..0] == [];
  }

  // ---------------------------------------------------------------------------------------------
  // Grouping by (creation day, model)

  /** An experiment as recorded in a bucket: `{"id", "name", "created_time"}`. */
  datatype ExpRef = ExpRef(id: int, name: string, createdTime: Timestamp)

  /** A bucket of `models_data`: `{"model", "time", "count", "experiments"}`. */
  datatype Bucket = Bucket(model: string, time: Timestamp, count: nat, experiments: seq<ExpRef>)

  /** `models_data`: an insertion-ordered dict from (day, model) to its bucket. */
  datatype ModelsData = ModelsData(order: seq<DayModel>, data: map<DayModel, Bucket>)

  predicate AllDated(exps: seq<DetailRow>) {
    forall i :: 0 <= i < |exps| ==> exps[i].credated.Some?
  }

  /** The bucket key and the bucket entry of a dated experiment. */
  function Pair(e: DetailRow): (DayModel, ExpRef)
    requires e.credated.Some?
  {
    (DayModel(Midnight(e.credated.value), e.model), ExpRef(e.expId, e.name, e.credated.value))
  }

  /** Each experiment paired with its bucket key and its bucket entry. */
  function Keyed(exps: seq<DetailRow>): (r: seq<(DayModel, ExpRef)>)
    requires AllDated(exps)
    ensures |r| == |exps|
    ensures forall i :: 0 <= i < |exps| ==> r[i] == Pair(exps[i])
  {
    if exps == [] then [] else Keyed(exps[..|exps| - 1]) + [Pair(exps[|exps| - 1])]
  }

  /** The buckets of a sequence of keyed experiments. */
  function GroupOf(pairs: seq<(DayModel, ExpRef)>): ModelsData {
    ModelsData(FirstSeen(pairs),
      map k | k in FirstSeen(pairs) :: Bucket(k.model, k.day, |Members(pairs, k)|, Members(pairs, k)))
  }

  /** The grouping as a value: keys in order of first appearance, each bucket holding its members in
      input order and counting them. */
  function Group(exps: seq<DetailRow>): ModelsData
    requires AllDated(exps)
  {
    GroupOf(Keyed(exps))
  }

  /** One more experiment: its key joins the key order when it is new. */
  lemma GroupOfSnocKeys(pairs: seq<(DayModel, ExpRef)>, key: DayModel, ref: ExpRef)
    ensures GroupOf(pairs + [(key, ref)]).order ==
              (if key in GroupOf(pairs).data then GroupOf(pairs).order else GroupOf(pairs).order + [key])
    ensures GroupOf(pairs + [(key, ref)]).data.Keys == GroupOf(pairs).data.Keys + {key}
  {
    var pairs' := pairs + [(key, ref)];
    Snoc(pairs, (key, ref), key);
    GroupOfKeys(pairs);
    GroupOfKeys(pairs');
    SnocKeys(pairs, (key, ref));
  }

  /** The key order of the grouping is the first-appearance order, and its buckets are those keys. */
  lemma GroupOfKeys(pairs: seq<(DayModel, ExpRef)>)
    ensures GroupOf(pairs).order == FirstSeen(pairs)
    ensures GroupOf(pairs).data.Keys == set k | k in FirstSeen(pairs)
  {
  }

  /** One more experiment: its bucket (empty when the key is new) gains it and counts it. */
  lemma GroupOfSnocBucket(pairs: seq<(DayModel, ExpRef)>, key: DayModel, ref: ExpRef)
    ensures GroupOf(pairs + [(key, ref)]).data[key] ==
              Bucket(key.model, key.day, |Members(pairs, key)| + 1, Members(pairs, key) + [ref])
    ensures key !in GroupOf(pairs).data ==> Members(pairs, key) == []
  {
    Snoc(pairs, (key, ref), key);
    MembersNonEmpty(pairs, key);
  }

  /** One more experiment: every other bucket is unchanged. */
  lemma GroupOfSnocOthers(pairs: seq<(DayModel, ExpRef)>, key: DayModel, ref: ExpRef, k: DayModel)
    requires k in GroupOf(pairs).data && k != key
    ensures k in GroupOf(pairs + [(key, ref)]).data
    ensures GroupOf(pairs + [(key, ref)]).data[k] == GroupOf(pairs).data[k]
  {
    var pairs' := pairs + [(key, ref)];
    Snoc(pairs, (key, ref), k);
    GroupOfEntry(pairs, k);
    GroupOfEntry(pairs', k);
  }

  /** The bucket of a key that occurs, unfolded. */
  lemma GroupOfEntry(pairs: seq<(DayModel, ExpRef)>, k: DayModel)
    ensures k in GroupOf(pairs).data <==> k in FirstSeen(pairs)
    ensures k in FirstSeen(pairs) ==>
              GroupOf(pairs).data[k] == Bucket(k.model, k.day, |Members(pairs, k)|, Members(pairs, k))
  {
  }

  /** Each bucket holds exactly the experiments paired with its key: it exists exactly when some pair
      carries the key, counts every such pair, holds no other experiment, and keeps input order (the
      i-th pair sits after the earlier pairs with the same key). */
  lemma BucketContents(pairs: seq<(DayModel, ExpRef)>, k: DayModel)
    ensures k in GroupOf(pairs).data <==> exists i :: 0 <= i < |pairs| && pairs[i].0 == k
    ensures k in GroupOf(pairs).data ==>
              var b := GroupOf(pairs).data[k];
              && b.model == k.model && b.time == k.day
              && b.count == |b.experiments| == CountKey(pairs, k)
              && (forall e :: e in b.experiments <==> (k, e) in pairs)
              && (forall i :: 0 <= i < |pairs| && pairs[i].0 == k ==>
                    CountKey(pairs[..i], k) < |b.experiments| && b.experiments[CountKey(pairs[..i], k)] == pairs[i].1)
  {
    GroupOfEntry(pairs, k);
    MembersExact(pairs, k);
    forall i | 0 <= i < |pairs| && pairs[i].0 == k
      ensures CountKey(pairs[..i], k) == |Members(pairs[..i], k)|
      ensures |Members(pairs[..i], k)| < |Members(pairs, k)| && Members(pairs, k)[|Members(pairs[..i], k)|] == pairs[i].1
    {
      MembersExact(pairs[..i], k);
      MemberAt(pairs, i);
    }
  }

  /** The loop body of `_process_experiments` for one dated record: open its bucket when the key is new,
      then append the record and count it. */
  method AddToBucket(order: seq<DayModel>, data: map<DayModel, Bucket>, key: DayModel, ref: ExpRef,
                     ghost pairs: seq<(DayModel, ExpRef)>)
    returns (order': seq<DayModel>, data': map<DayModel, Bucket>)
    requires ModelsData(order, data) == GroupOf(pairs)
    ensures ModelsData(order', data') == GroupOf(pairs + [(key, ref)])
  {
    GroupOfSnocKeys(pairs, key, ref);
    GroupOfSnocBucket(pairs, key, ref);
    NextBuckets(pairs, key, ref);
    ghost var next := GroupOf(pairs + [(key, ref)]);
    ghost var members := Members(pairs, key);
    order', data' := order, data;
    if key !in data' {
      data' := data'[key := Bucket(key.model, key.day, 0, [])];
      order' := order' + [key];
    }
    var bucket := data'[key];
    assert bucket == Bucket(key.model, key.day, |members|, members);
    data' := data'[key := bucket.(experiments := bucket.experiments + [ref], count := bucket.count + 1)];
    assert data' == data[key := next.data[key]];
  }

  /** The dictionary after one record is the grouping of one more pair: only the record's bucket changes. */
  lemma NextBuckets(pairs: seq<(DayModel, ExpRef)>, key: DayModel, ref: ExpRef)
    ensures key in GroupOf(pairs + [(key, ref)]).data
    ensures GroupOf(pairs).data[key := GroupOf(pairs + [(key, ref)]).data[key]] == GroupOf(pairs + [(key, ref)]).data
  {
    var data := GroupOf(pairs).data;
    var next := GroupOf(pairs + [(key, ref)]).data;
    GroupOfSnocKeys(pairs, key, ref);
    forall k | k in next && k != key ensures k in data && next[k] == data[k] {
      GroupOfSnocOthers(pairs, key, ref, k);
    }
    UpdateOne(data, next, key);
  }

  /** A map that agrees with `m` off `key` and adds nothing else is `m` updated at `key`. */
  lemma UpdateOne<K, V>(m: map<K, V>, n: map<K, V>, key: K)
    requires key in n && n.Keys == m.Keys + {key}
    requires forall k :: k in n && k != key ==> k in m && n[k] == m[k]
    ensures m[key := n[key]] == n
  {
  }

  /** `_process_experiments`. A record without a creation time makes `.replace` fail on None, which
      aborts the cycle (Failure); otherwise the result is the grouping of the records. */
  method ProcessExperiments(experiments: seq<DetailRow>) returns (r: Result<ModelsData, string>)
    ensures r.Failure? <==> !AllDated(experiments)
    ensures r.Success? ==> AllDated(experiments) && r.value == Group(experiments)
  {
    var order: seq<DayModel> := [];
    var data: map<DayModel, Bucket> := map[];
    ghost var pairs: seq<(DayModel, ExpRef)> := [];
    for i := 0 to |experiments|
      invariant AllDated(experiments[..i])
      invariant pairs == Keyed(experiments[..i])
      invariant ModelsData(order, data) == GroupOf(pairs)
    {
      var exp := experiments[i];
      if exp.credated.None? {
        assert !AllDated(experiments);
        return Failure("'NoneType' object has no attribute 'replace'");
      }
      var creationDate := Midnight(exp.credated.value);
      var key := DayModel(creationDate, exp.model);
      var ref := ExpRef(exp.expId, exp.name, exp.credated.value);
      order, data := AddToBucket(order, data, key, ref, pairs);
      KeyedSnoc(experiments, i);
      pairs := pairs + [(key, ref)];
    }
    assert experiments[..|experiments|] == experiments;
    r := Success(ModelsData(order, data));
  }

  lemma KeyedSnoc(exps: seq<DetailRow>, i: nat)
    requires i < |exps| && AllDated(exps[..i]) && exps[i].credated.Some?
    ensures AllDated(exps[..i + 1]) && Keyed(exps[..i + 1]) == Keyed(exps[..i]) + [Pair(exps[i])]
  {
    assert exps[..i + 1] == exps[..i] + [exps[i]];
    assert exps[..i + 1][..i] == exps[..i];
  }

  /** Every bucket counts its own list, and the counts add up to the number of extracted records. */
  lemma BucketCountsConserve(exps: seq<DetailRow>)
    requires AllDated(exps)
    ensures forall k :: k in Group(exps).data ==> Group(exps).data[k].count == |Group(exps).data[k].experiments| > 0
    ensures SumCounts(Group(exps), Group(exps).order) == |exps|
  {
    var g := Group(exps);
    var pairs := Keyed(exps);
    forall k | k in g.data ensures g.data[k].count > 0 {
      MembersNonEmpty(pairs, k);
    }
    SumCountsIsSumSizes(exps, g.order);
    SizesSumToLength(pairs);
  }

  function SumCounts(g: ModelsData, keys: seq<DayModel>): int
    requires forall k :: k in keys ==> k in g.data
  {
    if keys == [] then 0 else SumCounts(g, keys[..|keys| - 1]) + g.data[keys[|keys| - 1]].count
  }

  lemma {:induction false} SumCountsIsSumSizes(exps: seq<DetailRow>, keys: seq<DayModel>)
    requires AllDated(exps)
    requires forall k :: k in keys ==> k in Group(exps).order
    ensures SumCounts(Group(exps), keys) == SumSizes(Keyed(exps), keys)
  {
    if keys != [] {
      SumCountsIsSumSizes(exps, keys[..|keys| - 1]);
    }
  }

  // ---------------------------------------------------------------------------------------------
  // Reconciliation (`_update_timescaledb`)

  /** An experiment id as a Python value: the extraction yields `int` ids, while the `id` column of
      `experiments` is declared `String`, so the ids read back from it are `str`. An `int` never
      equals a `str`. */
  datatype PyId = IntId(n: int) | StrId(text: string)

  /** `{row[0] for row in session.execute(select(ExperimentTimeDB.id))}`: each stored id comes back
      as the text the `VARCHAR` column holds, the decimal digits of the inserted integer. */
  function ReadIds(store: Store): (r: set<PyId>)
    ensures forall x :: x in r ==> x.StrId?
    ensures forall row :: row in store.experiments ==> StrId(IntText(row.id)) in r
  {
    set row | row in store.experiments :: StrId(IntText(row.id))
  }

  /** The integers of a set of ids: `exp["id"] in ids` for an integer id tests exactly these. */
  function IntIds(ids: set<PyId>): (r: set<int>)
    ensures forall x: int :: x in r <==> IntId(x) in ids
  {
    set x | x in ids && x.IntId? :: x.n
  }

  /** What the update session reads before writing: the integers of `existing_experiment_ids` (the
      only members an extracted id can match), the `(time, model)` keys in `metric_models_popularity`,
      its rows (for the per-model baseline), and the cycle's time. */
  datatype Context = Context(existingIds: set<int>, existingPop: set<DayModel>, persisted: seq<PopularityRow>, now: Timestamp)

  function ContextOf(store: Store, now: Timestamp): Context {
    Context(IntIds(ReadIds(store)), KeysOf(store.popularity), store.popularity, now)
  }

  /** `[exp for exp in model_info["experiments"] if exp["id"] not in existing_experiment_ids]`. */
  function NewExperiments(exps: seq<ExpRef>, ids: set<int>): (r: seq<ExpRef>)
    ensures forall e :: e in r <==> e in exps && e.id !in ids
    ensures |r| <= |exps|
  {
    if exps == [] then []
    else
      var last := exps[|exps| - 1];
      assert forall e :: e in exps <==> e in exps[..|exps| - 1] || e == last;
      NewExperiments(exps[..|exps| - 1], ids) + (if last.id in ids then [] else [last])
  }

  function RefIds(exps: seq<ExpRef>): set<int> {
    set e | e in exps :: e.id
  }

  /** The `experiments` rows inserted for a bucket of `model`. */
  function InsertRows(exps: seq<ExpRef>, model: string): (r: seq<ExperimentRow>)
    ensures |r| == |exps|
    ensures forall i :: 0 <= i < |r| ==> r[i] == ExperimentRow(exps[i].id, exps[i].name, model, exps[i].createdTime)
    ensures IdsOf(r) == RefIds(exps)
  {
    var r := seq(|exps|, i requires 0 <= i < |exps| => ExperimentRow(exps[i].id, exps[i].name, model, exps[i].createdTime));
    assert forall x :: x in IdsOf(r) ==> x in RefIds(exps) by {
      forall x | x in IdsOf(r) ensures x in RefIds(exps) {
        var row :| row in r && row.id == x;
        var i :| 0 <= i < |r| && r[i] == row;
        assert exps[i] in exps;
      }
    }
    assert forall x :: x in RefIds(exps) ==> x in IdsOf(r) by {
      forall x | x in RefIds(exps) ensures x in IdsOf(r) {
        var e :| e in exps && e.id == x;
        var i :| 0 <= i < |exps| && exps[i] == e;
        assert r[i] in r;
      }
    }
    r
  }

  /** `ORDER BY extracted_time DESC` then `.first()`: a row of `m` with the greatest `extracted_time`.
      SQL leaves the choice among equal `extracted_time` open; this model takes the first in table order. */
  function LatestByExtracted(rows: seq<PopularityRow>, m: string): (r: Option<PopularityRow>)
    ensures r.None? <==> m !in MaterializedViews.Models(rows)
    ensures r.Some? ==> r.value in rows && r.value.model == m
    ensures r.Some? ==> forall x :: x in rows && x.model == m ==> x.extractedTime <= r.value.extractedTime
  {
    if rows == [] then None
    else
      var rest := LatestByExtracted(rows[1..], m);
      assert forall x :: x in rows <==> x == rows[0] || x in rows[1..];
      if rows[0].model != m then rest
      else if rest.None? || rest.value.extractedTime <= rows[0].extractedTime then Some(rows[0])
      else rest
  }

  /** `SELECT model, SUM(count) ... WHERE model = m GROUP BY model`: no row when `m` has no rows. */
  function HistoricalSum(rows: seq<PopularityRow>, m: string): Option<int> {
    if m in MaterializedViews.Models(rows) then Some(MaterializedViews.SumCount(rows, m)) else None
  }

  /** The baseline the worker reads for a model the first time it needs it in a cycle. */
  function Baseline(rows: seq<PopularityRow>, m: string): int {
    match LatestByExtracted(rows, m)
    case Some(latest) => latest.totalCount
    case None => (match HistoricalSum(rows, m) case Some(total) => total case None => 0)
  }

  /** The historical-sum fallback never contributes: when no latest row exists the model has no rows
      at all, so the baseline is the latest row's `total_count` or 0. */
  lemma BaselineIsLatestTotalOrZero(rows: seq<PopularityRow>, m: string)
    ensures Baseline(rows, m) == (if m in MaterializedViews.Models(rows) then LatestByExtracted(rows, m).value.totalCount else 0)
    ensures m !in MaterializedViews.Models(rows) ==> HistoricalSum(rows, m).None?
  {
  }

  /** One advance of a model's running total: the bucket, its number of new experiments and the
      running total after it. Advances are recorded whether or not the popularity row is written. */
  datatype Advance = Advance(key: DayModel, count: nat, total: int)

  /** The state `_update_timescaledb` carries from bucket to bucket. */
  datatype Ledger = Ledger(
    ids: set<int>,                          // existing_experiment_ids
    hist: map<string, int>,                 // models_historical_count
    advances: seq<Advance>,                 // every advance of a running total, in order
    popRows: seq<PopularityRow>,            // new_model_popularity_entries
    expBatches: seq<seq<ExperimentRow>>)    // the experiment insert statements, in order

  function Init(ctx: Context): Ledger {
    Ledger(ctx.existingIds, map[], [], [], [])
  }

  /** The body of the loop over `models_data.items()` for one bucket. */
  function Step(l: Ledger, key: DayModel, b: Bucket, ctx: Context): Ledger {
    var newExps := NewExperiments(b.experiments, l.ids);
    if |newExps| == 0 then l
    else
      var base := if key.model in l.hist then l.hist[key.model] else Baseline(ctx.persisted, key.model);
      var total := base + |newExps|;
      Ledger(
        l.ids + RefIds(newExps),
        l.hist[key.model := total],
        l.advances + [Advance(key, |newExps|, total)],
        if key in ctx.existingPop then l.popRows
        else l.popRows + [PopularityRow(key.day, key.model, |newExps|, total, ctx.now)],
        l.expBatches + Chunks(InsertRows(newExps, key.model), BatchSize))
  }

  predicate WellFormed(g: ModelsData) {
    forall k :: k in g.order ==> k in g.data
  }

  /** The ledger after the first `n` buckets. */
  function Run(g: ModelsData, ctx: Context, n: nat): Ledger
    requires WellFormed(g) && n <= |g.order|
  {
    if n == 0 then Init(ctx) else Step(Run(g, ctx, n - 1), g.order[n - 1], g.data[g.order[n - 1]], ctx)
  }

  /** The statements one update session issues, before commit. */
  datatype Plan = Plan(expBatches: seq<seq<ExperimentRow>>, popBatches: seq<seq<PopularityRow>>)

  function PlanOf(g: ModelsData, ctx: Context): Plan
    requires WellFormed(g)
  {
    var l := Run(g, ctx, |g.order|);
    Plan(l.expBatches, Chunks(l.popRows, BatchSize))
  }

  // ---------------------------------------------------------------------------------------------
  // Batching (`for i in range(0, len(items), batch_size): batch = items[i : i + batch_size]`)

  function Chunks<T>(s: seq<T>, size: nat): (r: seq<seq<T>>)
    requires size > 0
    ensures forall i :: 0 <= i < |r| ==> 0 < |r[i]| <= size
    decreases |s|
  {
    if s == [] then []
    else if |s| <= size then [s]
    else [s[..size]] + Chunks(s[size..], size)
  }

  function Flatten<T>(ss: seq<seq<T>>): seq<T> {
    if ss == [] then [] else Flatten(ss[..|ss| - 1]) + ss[|ss| - 1]
  }

  lemma {:induction false} FlattenAppend<T>(a: seq<seq<T>>, b: seq<seq<T>>)
    ensures Flatten(a + b) == Flatten(a) + Flatten(b)
    decreases |b|
  {
    if b == [] {
      assert a + b == a;
    } else {
      var init, last := b[..|b| - 1], b[|b| - 1];
      assert Flatten(a + b) == Flatten(a + init) + last by {
        assert a + b == (a + init) + [last];
        FlattenSnoc(a + init, last);
      }
      assert Flatten(b) == Flatten(init) + last by {
        assert b == init + [last];
        FlattenSnoc(init, last);
      }
      FlattenAppend(a, init);
    }
  }

  lemma FlattenSnoc<T>(ss: seq<seq<T>>, s: seq<T>)
    ensures Flatten(ss + [s]) == Flatten(ss) + s
  {
    assert (ss + [s])[..|ss|] == ss;
  }

  /** Batching loses, duplicates and reorders nothing. */
  lemma {:induction false} FlattenChunks<T>(s: seq<T>, size: nat)
    requires size > 0
    ensures Flatten(Chunks(s, size)) == s
    decreases |s|
  {
    if s != [] && |s| > size {
      FlattenChunks(s[size..], size);
      FlattenAppend([s[..size]], Chunks(s[size..], size));
      assert Flatten([s[..size]]) == s[..size] by {
        assert [s[..size]][..0] == [];
      }
      assert s[..size] + s[size..] == s;
    } else if s != [] {
      assert Flatten([s]) == Flatten([s][..0]) + s;
    }
  }

  /** One batch taken at position `i`: at most `size` items, and the batches of the rest follow it. */
  lemma ChunksStep<T>(items: seq<T>, i: nat, end: nat, size: nat)
    requires size > 0 && i < |items|
    requires end == if i + size < |items| then i + size else |items|
    ensures Chunks(items[i..], size) == [items[i..end]] + Chunks(items[end..], size)
  {
    var rest := items[i..];
    if |rest| > size {
      assert rest[..size] == items[i..end];
      assert rest[size..] == items[end..];
    } else {
      assert rest == items[i..end];
      assert items[end..] == [];
    }
  }

  lemma IdsOfSplit(rows: seq<ExperimentRow>, i: nat, end: nat)
    requires i <= end <= |rows|
    ensures IdsOf(rows[..end]) == IdsOf(rows[..i]) + IdsOf(rows[i..end])
  {
    assert rows[..end] == rows[..i] + rows[i..end];
  }

  /** The batch loop over a list. */
  method SplitBatches<T>(items: seq<T>, size: nat) returns (batches: seq<seq<T>>)
    requires size > 0
    ensures batches == Chunks(items, size)
  {
    batches := [];
    var i := 0;
    while i < |items|
      invariant 0 <= i <= |items|
      invariant batches + Chunks(items[i..], size) == Chunks(items, size)
    {
      var end := if i + size < |items| then i + size else |items|;
      ChunksStep(items, i, end, size);
      batches := batches + [items[i..end]];
      i := end;
    }
  }

  /** The experiment batch loop of one bucket: each batch becomes one insert statement, and its ids
      join the set of existing ids. */
  method InsertExperimentBatches(newExps: seq<ExpRef>, model: string, ids: set<int>)
    returns (batches: seq<seq<ExperimentRow>>, idsAfter: set<int>)
    ensures batches == Chunks(InsertRows(newExps, model), BatchSize)
    ensures idsAfter == ids + RefIds(newExps)
  {
    var rows := InsertRows(newExps, model);
    batches := [];
    idsAfter := ids;
    var i := 0;
    while i < |rows|
      invariant 0 <= i <= |rows|
      invariant batches + Chunks(rows[i..], BatchSize) == Chunks(rows, BatchSize)
      invariant idsAfter == ids + IdsOf(rows[..i])
    {
      var end := if i + BatchSize < |rows| then i + BatchSize else |rows|;
      ChunksStep(rows, i, end, BatchSize);
      var batch := rows[i..end];
      batches := batches + [batch];
      IdsOfSplit(rows, i, end);
      idsAfter := idsAfter + IdsOf(batch);
      i := end;
    }
    assert rows[..|rows|] == rows;
  }

  /** The body of the loop over `models_data.items()` for one bucket: filter out the known ids; if
      any remain, read the model's baseline the first time the model is seen in the cycle, advance its
      running total, queue a popularity row unless the day is already persisted, and issue the
      experiment batches. */
  method UpdateBucket(l: Ledger, key: DayModel, info: Bucket, ctx: Context) returns (l': Ledger)
    ensures l' == Step(l, key, info, ctx)
  {
    var newExps := NewExperiments(info.experiments, l.ids);
    if |newExps| == 0 {
      return l;
    }
    var hist := l.hist;
    if key.model !in hist {
      var latest := LatestByExtracted(ctx.persisted, key.model);
      if latest.Some? {
        hist := hist[key.model := latest.value.totalCount];
      } else {
        var sum := HistoricalSum(ctx.persisted, key.model);
        // Unreachable with a result: a model without a latest row has no rows to sum.
        hist := hist[key.model := match sum case Some(historical) => historical case None => 0];
      }
    }
    ghost var base := if key.model in l.hist then l.hist[key.model] else Baseline(ctx.persisted, key.model);
    assert hist[key.model] == base && hist.Keys == l.hist.Keys + {key.model};
    var total := hist[key.model] + |newExps|;
    hist := hist[key.model := total];
    assert hist == l.hist[key.model := total];
    var popRows := l.popRows;
    if key !in ctx.existingPop {
      popRows := popRows + [PopularityRow(key.day, key.model, |newExps|, total, ctx.now)];
    }
    var batches, ids := InsertExperimentBatches(newExps, key.model, l.ids);
    l' := Ledger(ids, hist, l.advances + [Advance(key, |newExps|, total)], popRows, l.expBatches + batches);
  }

  /** `_update_timescaledb` up to the commit: the statements issued for `models_data`. */
  method PlanUpdate(g: ModelsData, ctx: Context) returns (plan: Plan)
    requires WellFormed(g)
    ensures plan == PlanOf(g, ctx)
  {
    var ledger := Init(ctx);
    for i := 0 to |g.order|
      invariant ledger == Run(g, ctx, i)
    {
      var key := g.order[i];
      ledger := UpdateBucket(ledger, key, g.data[key], ctx);
    }
    var popBatches := SplitBatches(ledger.popRows, BatchSize);
    plan := Plan(ledger.expBatches, popBatches);
  }

  // ---------------------------------------------------------------------------------------------
  // Commit and the cycle

  function ApplyExperimentBatches(table: seq<ExperimentRow>, batches: seq<seq<ExperimentRow>>): seq<ExperimentRow> {
    if batches == [] then table
    else InsertIgnoreExperiments(ApplyExperimentBatches(table, batches[..|batches| - 1]), batches[|batches| - 1])
  }

  function ApplyPopularityBatches(table: seq<PopularityRow>, batches: seq<seq<PopularityRow>>): seq<PopularityRow> {
    if batches == [] then table
    else InsertIgnorePopularity(ApplyPopularityBatches(table, batches[..|batches| - 1]), batches[|batches| - 1])
  }

  /** The store once a session that issued `plan` has committed. */
  function ApplyPlan(store: Store, plan: Plan): Store {
    Store(ApplyExperimentBatches(store.experiments, plan.expBatches),
          ApplyPopularityBatches(store.popularity, plan.popBatches))
  }

  /** The TimescaleDB state this worker touches: both tables and the view's catalogue entry. */
  datatype Db = Db(store: Store, catalog: MaterializedViews.Catalog)

  /** `_update_timescaledb`: the statements run in one session; if anything fails before the commit
      completes the session is rolled back and the error re-raised (`raised`). After a successful
      commit the views are refreshed; a refresh failure there is only a warning. */
  method UpdateTimescaleDb(g: ModelsData, db: Db, currentTime: Timestamp, sessionFails: bool)
    returns (after: Db, raised: bool)
    requires WellFormed(g)
    ensures raised == sessionFails
    ensures sessionFails ==> after == db
    ensures !sessionFails ==>
              after.store == ApplyPlan(db.store, PlanOf(g, ContextOf(db.store, currentTime))) &&
              after.catalog == MaterializedViews.Refreshed(db.catalog, after.store.popularity)
  {
    var plan := PlanUpdate(g, ContextOf(db.store, currentTime));
    if sessionFails {
      return db, true;
    }
    var store := ApplyPlan(db.store, plan);
    var catalog, refreshed := MaterializedViews.RefreshMaterializedViews(db.catalog, store.popularity);
    // A failed refresh is logged as a warning and does not undo the commit.
    after := Db(store, catalog);
    raised := false;
  }

  datatype TaskOutcome = Completed | Raised(message: string)

  /** The store a cycle leaves behind when its update session commits. */
  function CycleStore(rows: seq<DetailRow>, store: Store, currentTime: Timestamp): Store
    requires AllDated(Extracted(rows))
  {
    ApplyPlan(store, PlanOf(Group(Extracted(rows)), ContextOf(store, currentTime)))
  }

  /** `execute_task`. No extracted record: nothing is written. A record without a creation time: the
      cycle raises before any write. Otherwise the update runs (its failure is logged and swallowed),
      and the views are refreshed once more, a failure of which is re-raised. `currentTime` is the
      worker's `current_time`, fixed when the worker was constructed. */
  method ExecuteTask(rows: seq<DetailRow>, db: Db, currentTime: Timestamp, sessionFails: bool)
    returns (after: Db, outcome: TaskOutcome)
    ensures Extracted(rows) == [] ==> after == db && outcome == Completed
    ensures Extracted(rows) != [] && !AllDated(Extracted(rows)) ==> after == db && outcome.Raised?
    ensures Extracted(rows) != [] && AllDated(Extracted(rows)) ==>
              after.store == (if sessionFails then db.store else CycleStore(rows, db.store, currentTime)) &&
              after.catalog == MaterializedViews.Refreshed(
                (if sessionFails then db.catalog else MaterializedViews.Refreshed(db.catalog, after.store.popularity)),
                after.store.popularity) &&
              (outcome == Completed <==> MaterializedViews.RefreshSucceeds(db.catalog))
  {
    var experiments := ExtractAutosubmitExperiments(rows);
    assert experiments == Extracted(rows);
    if experiments == [] {
      return db, Completed;
    }
    var processed := ProcessExperiments(experiments);
    if processed.Failure? {
      return db, Raised(processed.error);
    }
    var modelsData := processed.value;
    var updated, raised := UpdateTimescaleDb(modelsData, db, currentTime, sessionFails);
    // An update failure is logged and swallowed.
    var catalog, refreshed := MaterializedViews.RefreshMaterializedViews(updated.catalog, updated.store.popularity);
    after := Db(updated.store, catalog);
    if refreshed.Failure? {
      return after, Raised(refreshed.error.message);
    }
    outcome := Completed;
  }
}
