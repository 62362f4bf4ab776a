/**
  `AutosubmitDataController` (src/data/controllers/autosubmit_data_controller.py): its copy of the
  model-name cleaning rule, the query helpers that clean the models of the rows they return in
  place, and the per-model statistics. The creation time each statistic reads is an abstract
  field of the row.
 */
module DataController {
  import opened Wrappers
  import opened PyText
  import SyncWorker

  /** A row of the `details` table as the controller sees it. */
  datatype Detail = Detail(expId: int, user: string, model: string, branch: string, hpc: string, createdTime: int)

  /** `_clean_model_name`: every trailing `/` goes, then one pair of surrounding quotes. Unlike the
      worker's copy it has no special case for the empty name. */
  function CleanModelName(name: string): (r: string)
    ensures |r| <= |name|
  {
    var t := RStrip(name, '/');
    if StartsWith(t, '\'') && EndsWith(t, '\'') then Inner(t) else t
  }

  /** The two copies of the rule agree on every name. */
  lemma CleanAgreesWithWorker(name: string)
    ensures CleanModelName(name) == SyncWorker.CleanModelName(name)
  {
    if name == [] {
      assert RStrip(name, '/') == [];
    }
  }

  /** A cleaned name ends in `/` only when the argument, once its trailing slashes are gone, was
      wrapped in quotes (and held a `/` just inside the closing one). */
  lemma SlashEndingOnlyFromQuotes(name: string)
    requires EndsWith(CleanModelName(name), '/')
    ensures StartsWith(RStrip(name, '/'), '\'') && EndsWith(RStrip(name, '/'), '\'')
  {
  }

  // ---------------------------------------------------------------------------------------------
  // Query helpers

  /** The rows of `SELECT ... WHERE NOT model IN (invalid_model_values)`, in table order; the
      denylist holds the same three values as the worker's. */
  function Valid(rows: seq<Detail>): (r: seq<Detail>)
    ensures forall x :: x in r <==> x in rows && !SyncWorker.IsInvalidModel(x.model)
  {
    if rows == [] then []
    else
      var last := rows[|rows| - 1];
      assert forall x :: x in rows <==> x in rows[..|rows| - 1] || x == last;
      Valid(rows[..|rows| - 1]) + (if SyncWorker.IsInvalidModel(last.model) then [] else [last])
  }

  /** The rows of `SELECT ... WHERE model = m`, in table order. */
  function WithModel(rows: seq<Detail>, m: string): (r: seq<Detail>)
    ensures forall x :: x in r <==> x in rows && x.model == m
  {
    if rows == [] then []
    else
      var last := rows[|rows| - 1];
      assert forall x :: x in rows <==> x in rows[..|rows| - 1] || x == last;
      WithModel(rows[..|rows| - 1], m) + (if last.model == m then [last] else [])
  }

  /** Each row with its model cleaned. */
  function Cleaned(rows: seq<Detail>): (r: seq<Detail>)
    ensures |r| == |rows|
    ensures forall i :: 0 <= i < |rows| ==> r[i] == rows[i].(model := CleanModelName(rows[i].model))
  {
    seq(|rows|, i requires 0 <= i < |rows| => rows[i].(model := CleanModelName(rows[i].model)))
  }

  /** `for exp in experiments: exp.model = self._clean_model_name(exp.model)`. */
  method CleanModelsInPlace(a: array<Detail>)
    modifies a
    ensures a[..] == Cleaned(old(a[..]))
  {
    for i := 0 to a.Length
      invariant forall j :: 0 <= j < i ==> a[j] == old(a[j]).(model := CleanModelName(old(a[j]).model))
      invariant forall j :: i <= j < a.Length ==> a[j] == old(a[j])
    {
      a[i] := a[i].(model := CleanModelName(a[i].model));
    }
  }

  /** `get_all_experiments`: the non-denylisted rows, with their models cleaned. */
  method GetAllExperiments(rows: seq<Detail>) returns (experiments: array<Detail>)
    ensures fresh(experiments)
    ensures experiments[..] == Cleaned(Valid(rows))
  {
    experiments := new Detail[|Valid(rows)|](i requires 0 <= i < |Valid(rows)| => Valid(rows)[i]);
    assert experiments[..] == Valid(rows);
    CleanModelsInPlace(experiments);
  }

  /** `get_experiments_by_model`: the argument is cleaned, the rows whose stored (raw) model equals it
      are selected, and their models are cleaned in turn. */
  method GetExperimentsByModel(rows: seq<Detail>, modelName: string) returns (experiments: array<Detail>)
    ensures fresh(experiments)
    ensures experiments[..] == Cleaned(WithModel(rows, CleanModelName(modelName)))
  {
    var cleanModelName := CleanModelName(modelName);
    var result := WithModel(rows, cleanModelName);
    experiments := new Detail[|result|](i requires 0 <= i < |result| => result[i]);
    assert experiments[..] == result;
    CleanModelsInPlace(experiments);
  }

  /** The rows `get_experiments_by_model(m)` returns, as a value. */
  function ByModel(rows: seq<Detail>, modelName: string): seq<Detail> {
    Cleaned(WithModel(rows, CleanModelName(modelName)))
  }

  /** A row is returned exactly when its stored model equals the cleaned argument; what is returned
      carries its cleaned model. */
  lemma ByModelMatchesStoredValue(rows: seq<Detail>, modelName: string, x: Detail)
    ensures x in WithModel(rows, CleanModelName(modelName)) <==> x in rows && x.model == CleanModelName(modelName)
    ensures x in WithModel(rows, CleanModelName(modelName)) ==>
              x.(model := CleanModelName(x.model)) in ByModel(rows, modelName)
  {
    var s := WithModel(rows, CleanModelName(modelName));
    if x in s {
      var i :| 0 <= i < |s| && s[i] == x;
      assert ByModel(rows, modelName)[i] == x.(model := CleanModelName(x.model));
    }
  }

  /** A row stored with a trailing slash is not found by its own stored name nor by its cleaned
      name; only the quoted argument `'EC-Earth/'` reaches it. */
  lemma TrailingSlashRowReachedOnlyQuoted(d: Detail)
    requires d.model == "EC-Earth/"
    ensures WithModel([d], CleanModelName("EC-Earth/")) == []
    ensures WithModel([d], CleanModelName("EC-Earth")) == []
    ensures ByModel([d], "'EC-Earth/'") == [d.(model := "EC-Earth")]
  {
    ExampleNames();
    WithModelOne(d, "EC-Earth");
    WithModelOne(d, "EC-Earth/");
  }

  /** What the controller's rule makes of the three spellings of the example model. */
  lemma ExampleNames()
    ensures CleanModelName("EC-Earth/") == "EC-Earth"
    ensures CleanModelName("EC-Earth") == "EC-Earth"
    ensures CleanModelName("'EC-Earth/'") == "EC-Earth/"
  {
    CleanAgreesWithWorker("EC-Earth/"); CleanAgreesWithWorker("EC-Earth"); CleanAgreesWithWorker("'EC-Earth/'");
    SyncWorker.CleanExamplesSlashes(); SyncWorker.CleanQuoted("EC-Earth/");
    assert ['\''] + "EC-Earth/" + ['\''] == "'EC-Earth/'";
  }

  /** The query on a one-row table. */
  lemma WithModelOne(d: Detail, m: string)
    ensures WithModel([d], m) == if d.model == m then [d] else []
  {
    assert [d][..0] == [];
  }


  // ---------------------------------------------------------------------------------------------
  // Per-model statistics (`get_model_stats`)

  /** `{"count", "latest_experiment_date"}` of one model. */
  datatype Stat = Stat(count: nat, latest: Option<int>)

  /** `model_stats`: an insertion-ordered dict from model to its statistics. */
  datatype ModelStats = ModelStats(order: seq<string>, data: map<string, Stat>)

  /** The loop body for one experiment: open the model's entry, count the experiment, and take its
      creation time when there is none yet or it is strictly later. */
  function Record(s: ModelStats, exp: Detail): ModelStats {
    var st := if exp.model in s.data then s.data[exp.model] else Stat(0, None);
    var latest := if st.latest.None? || exp.createdTime > st.latest.value then Some(exp.createdTime) else st.latest;
    ModelStats(if exp.model in s.data then s.order else s.order + [exp.model],
               s.data[exp.model := Stat(st.count + 1, latest)])
  }

  /** The statistics after the given experiments, in order. */
  function StatsOf(exps: seq<Detail>): ModelStats {
    if exps == [] then ModelStats([], map[]) else Record(StatsOf(exps[..|exps| - 1]), exps[|exps| - 1])
  }

  /** The loop body of `get_model_stats` for one experiment. */
  method RecordExperiment(order: seq<string>, data: map<string, Stat>, exp: Detail)
    returns (order': seq<string>, data': map<string, Stat>)
    ensures ModelStats(order', data') == Record(ModelStats(order, data), exp)
  {
    var modelName := exp.model;
    order', data' := order, data;
    if modelName !in data' {
      data' := data'[modelName := Stat(0, None)];
      order' := order' + [modelName];
    }
    var count := data'[modelName].count + 1;
    var latestDate := data'[modelName].latest;
    if latestDate.None? || exp.createdTime > latestDate.value {
      latestDate := Some(exp.createdTime);
    }
    data' := data'[modelName := Stat(count, latestDate)];
  }

  /** `get_model_stats`: one pass over the experiments `get_all_experiments` returns. */
  method GetModelStats(rows: seq<Detail>) returns (stats: ModelStats)
    ensures stats == StatsOf(Cleaned(Valid(rows)))
  {
    var experiments := GetAllExperiments(rows);
    var order: seq<string> := [];
    var data: map<string, Stat> := map[];
    ghost var all := experiments[..];
    for i := 0 to experiments.Length
      invariant experiments[..] == all
      invariant ModelStats(order, data) == StatsOf(all[..i])
    {
      assert all[..i + 1][..i] == all[..i];
      order, data := RecordExperiment(order, data, experiments[i]);
    }
    assert all[..|all|] == all;
    stats := ModelStats(order, data);
  }

  /** The number of experiments with model `m`. */
  function CountOf(exps: seq<Detail>, m: string): nat {
    if exps == [] then 0 else CountOf(exps[..|exps| - 1], m) + (if exps[|exps| - 1].model == m then 1 else 0)
  }

  predicate HasModel(exps: seq<Detail>, m: string) {
    exists i :: 0 <= i < |exps| && exps[i].model == m
  }

  /** The statistics hold one entry per model present, listed once in the order. */
  lemma {:induction false} StatsKeys(exps: seq<Detail>, m: string)
    ensures m in StatsOf(exps).data <==> HasModel(exps, m)
    ensures m in StatsOf(exps).data <==> m in StatsOf(exps).order
  {
    if exps != [] {
      var p := exps[..|exps| - 1];
      var x := exps[|exps| - 1];
      StatsKeys(p, m);
      HasModelSnoc(exps, m);
    }
  }

  lemma HasModelSnoc(exps: seq<Detail>, m: string)
    requires exps != []
    ensures HasModel(exps, m) <==> HasModel(exps[..|exps| - 1], m) || exps[|exps| - 1].model == m
  {
    var p := exps[..|exps| - 1];
    if HasModel(exps, m) && exps[|exps| - 1].model != m {
      var i :| 0 <= i < |exps| && exps[i].model == m;
      assert p[i].model == m;
    }
    if HasModel(p, m) {
      var i :| 0 <= i < |p| && p[i].model == m;
      assert exps[i].model == m;
    }
  }

  /** Each model's count is its number of experiments. */
  lemma {:induction false} StatsCount(exps: seq<Detail>, m: string)
    ensures m in StatsOf(exps).data ==> StatsOf(exps).data[m].count == CountOf(exps, m) > 0
    ensures m !in StatsOf(exps).data ==> CountOf(exps, m) == 0
  {
    if exps != [] {
      StatsCount(exps[..|exps| - 1], m);
    }
  }

  /** Each model's latest date is the greatest creation time among its experiments, taken from the
      first experiment that reaches it (later ties do not replace it). */
  lemma {:induction false} StatsLatest(exps: seq<Detail>, m: string)
    requires m in StatsOf(exps).data
    ensures LatestIsFirstMaximum(exps, m, StatsOf(exps).data[m].latest)
  {
    var p := exps[..|exps| - 1];
    var x := exps[|exps| - 1];
    assert exps == p + [x];
    StatsKeys(p, m);
    if m in StatsOf(p).data {
      StatsLatest(p, m);
      LatestStep(p, x, m, StatsOf(p).data[m].latest);
    } else {
      LatestStep(p, x, m, None);
    }
  }

  /** `latest` is `Some(t)` where `t` is the creation time of the first experiment of `m` whose time
      no experiment of `m` exceeds. */
  ghost predicate LatestIsFirstMaximum(exps: seq<Detail>, m: string, latest: Option<int>) {
    latest.Some? &&
    (forall j :: 0 <= j < |exps| && exps[j].model == m ==> exps[j].createdTime <= latest.value) &&
    exists i :: 0 <= i < |exps| && exps[i].model == m && exps[i].createdTime == latest.value &&
                (forall j :: 0 <= j < i && exps[j].model == m ==> exps[j].createdTime < latest.value)
  }

  lemma LatestStep(p: seq<Detail>, x: Detail, m: string, prev: Option<int>)
    requires prev.Some? ==> LatestIsFirstMaximum(p, m, prev)
    requires prev.None? ==> forall j :: 0 <= j < |p| ==> p[j].model != m
    requires x.model == m || prev.Some?
    ensures LatestIsFirstMaximum(p + [x], m,
              if x.model == m && (prev.None? || x.createdTime > prev.value) then Some(x.createdTime) else prev)
  {
    var s := p + [x];
    if x.model == m && (prev.None? || x.createdTime > prev.value) {
      assert s[|p|] == x;
    } else {
      var i :| 0 <= i < |p| && p[i].model == m && p[i].createdTime == prev.value &&
               (forall j :: 0 <= j < i && p[j].model == m ==> p[j].createdTime < prev.value);
      assert s[i] == p[i];
    }
  }
}
