/**
  `AutosubmitSyncService` (src/domain/services/autosubmit_sync_service.py), the older
  synchronisation path: models are cleaned in SQL, experiments are grouped by model only,
  and each sync writes one popularity row per model holding that model's full extracted
  count, together with the experiments not yet persisted, in a single commit.
 */
module SyncService {
  import opened Wrappers
  import opened PyText
  import opened Grouping
  import opened TimescaleTables
  import MaterializedViews
  import SyncWorker

  // ---------------------------------------------------------------------------------------------
  // The SQL cleaning expression `TRIM(REPLACE(REPLACE(model, '/', ''), "'", ''))`

  function SqlCleanModel(model: string): (r: string)
    ensures '/' !in r && '\'' !in r
    ensures r == [] || (r[0] != ' ' && r[|r| - 1] != ' ')
  {
    var t := Trim(RemoveAll(RemoveAll(model, '/'), '\''));
    RemoveAllKeeps(RemoveAll(model, '/'), '\'');
    TrimKeepsCharacters(RemoveAll(RemoveAll(model, '/'), '\''));
    TrimmedEnds(RemoveAll(RemoveAll(model, '/'), '\''));
    t
  }

  lemma TrimKeepsCharacters(s: string)
    ensures forall c :: c in Trim(s) ==> c in s
  {
    forall c | c in Trim(s) ensures c in s {
      RStripKeeps(LStrip(s, ' '), ' ', c);
      LStripKeeps(s, ' ', c);
    }
  }


  lemma TrimmedEnds(s: string)
    ensures Trim(s) == [] || (Trim(s)[0] != ' ' && Trim(s)[|Trim(s)| - 1] != ' ')
  {
    var l := LStrip(s, ' ');
    var r := RStrip(l, ' ');
    if r != [] {
      assert r[0] == l[0];
    }
  }

  lemma TrimTrimmed(s: string)
    requires s == [] || (s[0] != ' ' && s[|s| - 1] != ' ')
    ensures Trim(s) == s
  {
  }

  /** Unlike the worker's rule, the SQL expression is idempotent. */
  lemma SqlCleanIdempotent(model: string)
    ensures SqlCleanModel(SqlCleanModel(model)) == SqlCleanModel(model)
  {
    var t := SqlCleanModel(model);
    RemoveAbsent(t, '/');
    RemoveAbsent(t, '\'');
    TrimTrimmed(t);
  }

  /** The two rules disagree on an inner slash: the worker keeps a name that neither ends in `/`
      nor is wrapped in quotes, while the SQL expression drops every `/` in it. */
  lemma InnerSlashKeptOnlyByWorker(t: string)
    requires '/' in t && !EndsWith(t, '/') && !(StartsWith(t, '\'') && EndsWith(t, '\''))
    ensures SyncWorker.CleanModelName(t) == t
    ensures SqlCleanModel(t) != t
  {
    SyncWorker.CleanFixedPoints(t);
  }

  /** The two rules agree on a name wrapped in one pair of quotes, when the name inside has no
      slash, no quote and no surrounding space. */
  lemma RulesAgreeOnQuotedName(inner: string)
    requires '/' !in inner && '\'' !in inner
    requires inner == [] || (inner[0] != ' ' && inner[|inner| - 1] != ' ')
    ensures SqlCleanModel(['\''] + inner + ['\'']) == inner
    ensures SyncWorker.CleanModelName(['\''] + inner + ['\'']) == inner
  {
    SqlUnquotes(inner);
    SyncWorker.CleanQuoted(inner);
  }

  lemma SqlUnquotes(inner: string)
    requires '/' !in inner && '\'' !in inner
    requires inner == [] || (inner[0] != ' ' && inner[|inner| - 1] != ' ')
    ensures SqlCleanModel(['\''] + inner + ['\'']) == inner
  {
    RemoveQuotePair(inner);
    TrimTrimmed(inner);
  }

  lemma RemoveQuotePair(inner: string)
    requires '/' !in inner && '\'' !in inner
    ensures RemoveAll(RemoveAll(['\''] + inner + ['\''], '/'), '\'') == inner
  {
    var q := ['\''] + inner + ['\''];
    assert '/' !in q;
    RemoveAbsent(q, '/');
    RemoveQuotes(inner);
  }

  lemma RemoveQuotes(inner: string)
    requires '\'' !in inner
    ensures RemoveAll(['\''] + inner + ['\''], '\'') == inner
  {
    var quote := ['\''];
    assert RemoveAll(quote, '\'') == [] by {
      assert quote[..0] == [];
    }
    RemoveAllAppend(quote, inner, '\'');
    RemoveAbsent(inner, '\'');
    RemoveAllAppend(quote + inner, quote, '\'');
  }

  // ---------------------------------------------------------------------------------------------
  // Extraction

  /** Each row with its model cleaned by the SQL expression, in order. */
  function CleanAll(rows: seq<SyncWorker.DetailRow>): (r: seq<SyncWorker.DetailRow>)
    ensures |r| == |rows|
  {
    if rows == [] then []
    else CleanAll(rows[..|rows| - 1]) + [rows[|rows| - 1].(model := SqlCleanModel(rows[|rows| - 1].model))]
  }

  /** The i-th cleaned row is the i-th row with its model cleaned and every other column kept. */
  lemma {:induction false} CleanAllAt(rows: seq<SyncWorker.DetailRow>, i: nat)
    requires i < |rows|
    ensures CleanAll(rows)[i] == rows[i].(model := SqlCleanModel(rows[i].model))
  {
    if i < |rows| - 1 {
      CleanAllAt(rows[..|rows| - 1], i);
    }
  }

  /** What the query returns: the rows whose raw model is not on the worker's denylist (the same
      three values), in order, each with its model cleaned in SQL. */
  function Extracted(rows: seq<SyncWorker.DetailRow>): seq<SyncWorker.DetailRow> {
    CleanAll(SyncWorker.Selected(rows))
  }

  lemma CleanAllSnoc(rows: seq<SyncWorker.DetailRow>, i: nat)
    requires i < |rows|
    ensures CleanAll(rows[..i + 1]) == CleanAll(rows[..i]) + [rows[i].(model := SqlCleanModel(rows[i].model))]
  {
    assert rows[..i + 1][..i] == rows[..i];
  }

  /** The extraction loop: one `ExperimentDetailDB` per returned row. `Extracted` is its
      specification. */
  method ExtractAutosubmitExperiments(rows: seq<SyncWorker.DetailRow>) returns (experiments: seq<SyncWorker.DetailRow>)
    ensures experiments == Extracted(rows)
  {
    var result := SyncWorker.Selected(rows);
    experiments := [];
    for i := 0 to |result|
      invariant experiments == CleanAll(result[..i])
    {
      var row := result[i];
      CleanAllSnoc(result, i);
      experiments := experiments + [row.(model := SqlCleanModel(row.model))];
    }
    assert result[..|result|] == result;
  }

  /** The service's extraction keeps exactly the rows the worker's does, and differs only in the
      cleaning rule applied to the model. */
  lemma ExtractionMatchesWorker(rows: seq<SyncWorker.DetailRow>, i: nat)
    requires i < |Extracted(rows)|
    ensures |Extracted(rows)| == |SyncWorker.Extracted(rows)|
    ensures Extracted(rows)[i] == SyncWorker.Extracted(rows)[i].(model := SqlCleanModel(SyncWorker.Selected(rows)[i].model))
  {
    CleanAllAt(SyncWorker.Selected(rows), i);
  }

  // ---------------------------------------------------------------------------------------------
  // Grouping by model (`process_experiments`)

  /** An experiment as recorded under its model: `{"id", "name", "created_time"}`; the creation time
      is `credated`, which may be None. */
  datatype ExpRef = ExpRef(id: int, name: string, createdTime: Option<Timestamp>)

  /** `models_data[model]`: `{"model", "count", "experiments"}`. */
  datatype Entry = Entry(model: string, count: nat, experiments: seq<ExpRef>)

  /** `models_data`: an insertion-ordered dict from model name to its entry. */
  datatype ServiceData = ServiceData(order: seq<string>, data: map<string, Entry>)

  function Ref(e: SyncWorker.DetailRow): ExpRef {
    ExpRef(e.expId, e.name, e.credated)
  }

  /** Each experiment paired with its model. */
  function ModelPairs(exps: seq<SyncWorker.DetailRow>): (r: seq<(string, ExpRef)>)
    ensures |r| == |exps|
    ensures forall i :: 0 <= i < |exps| ==> r[i] == (exps[i].model, Ref(exps[i]))
  {
    if exps == [] then [] else ModelPairs(exps[..|exps| - 1]) + [(exps[|exps| - 1].model, Ref(exps[|exps| - 1]))]
  }

  /** The entries of a sequence of (model, experiment) pairs. */
  function ByModel(pairs: seq<(string, ExpRef)>): ServiceData {
    ServiceData(FirstSeen(pairs),
      map m | m in FirstSeen(pairs) :: Entry(m, |Members(pairs, m)|, Members(pairs, m)))
  }

  /** The dict after recording `ref` under `m`: the model joins the order when it is new, and its
      entry (empty when new) gains the experiment and counts it. */
  function Added(g: ServiceData, m: string, ref: ExpRef): ServiceData {
    var e := if m in g.data then g.data[m] else Entry(m, 0, []);
    ServiceData(if m in g.data then g.order else g.order + [m],
                g.data[m := e.(experiments := e.experiments + [ref], count := e.count + 1)])
  }

  /** Grouping one more pair is recording it in the grouping of the others. */
  lemma ByModelSnoc(pairs: seq<(string, ExpRef)>, m: string, ref: ExpRef)
    ensures ByModel(pairs + [(m, ref)]) == Added(ByModel(pairs), m, ref)
  {
    var g' := ByModel(pairs + [(m, ref)]);
    var a := Added(ByModel(pairs), m, ref);
    ByModelSnocOrder(pairs, m, ref);
    ByModelSnocEntry(pairs, m, ref);
    forall k | k in a.data && k != m ensures g'.data[k] == a.data[k] {
      ByModelSnocOther(pairs, m, ref, k);
    }
  }

  lemma ByModelSnocOrder(pairs: seq<(string, ExpRef)>, m: string, ref: ExpRef)
    ensures ByModel(pairs + [(m, ref)]).order == Added(ByModel(pairs), m, ref).order
    ensures ByModel(pairs + [(m, ref)]).data.Keys == Added(ByModel(pairs), m, ref).data.Keys
  {
    Snoc(pairs, (m, ref), m);
  }

  lemma ByModelSnocEntry(pairs: seq<(string, ExpRef)>, m: string, ref: ExpRef)
    ensures m in ByModel(pairs + [(m, ref)]).data
    ensures ByModel(pairs + [(m, ref)]).data[m] == Added(ByModel(pairs), m, ref).data[m]
  {
    Snoc(pairs, (m, ref), m);
    MembersNonEmpty(pairs, m);
  }

  lemma ByModelSnocOther(pairs: seq<(string, ExpRef)>, m: string, ref: ExpRef, k: string)
    requires k in ByModel(pairs).data && k != m
    ensures k in ByModel(pairs + [(m, ref)]).data
    ensures ByModel(pairs + [(m, ref)]).data[k] == ByModel(pairs).data[k]
  {
    Snoc(pairs, (m, ref), k);
  }

  lemma ModelPairsSnoc(exps: seq<SyncWorker.DetailRow>, i: nat)
    requires i < |exps|
    ensures ModelPairs(exps[..i + 1]) == ModelPairs(exps[..i]) + [(exps[i].model, Ref(exps[i]))]
  {
    assert exps[..i + 1] == exps[..i] + [exps[i]];
    assert exps[..i + 1][..i] == exps[..i];
  }

  /** The loop body of `process_experiments`: open the model's entry when it is new, then append
      the experiment and count it. */
  method AddToEntry(order: seq<string>, data: map<string, Entry>, m: string, ref: ExpRef)
    returns (order': seq<string>, data': map<string, Entry>)
    ensures ServiceData(order', data') == Added(ServiceData(order, data), m, ref)
  {
    order', data' := order, data;
    if m !in data' {
      data' := data'[m := Entry(m, 0, [])];
      order' := order' + [m];
    }
    var entry := data'[m];
    data' := data'[m := entry.(experiments := entry.experiments + [ref], count := entry.count + 1)];
  }

  /** `process_experiments`: the entries of the experiments grouped by model. */
  method ProcessExperiments(experiments: seq<SyncWorker.DetailRow>) returns (r: ServiceData)
    ensures r == ByModel(ModelPairs(experiments))
  {
    var order: seq<string> := [];
    var data: map<string, Entry> := map[];
    for i := 0 to |experiments|
      invariant ServiceData(order, data) == ByModel(ModelPairs(experiments[..i]))
    {
      var exp := experiments[i];
      var modelName := exp.model;
      ByModelSnoc(ModelPairs(experiments[..i]), modelName, Ref(exp));
      ModelPairsSnoc(experiments, i);
      order, data := AddToEntry(order, data, modelName, Ref(exp));
    }
    assert experiments[..|experiments|] == experiments;
    r := ServiceData(order, data);
  }

  /** The number of experiments whose model is `m`. */
  function ModelCount(exps: seq<SyncWorker.DetailRow>, m: string): nat {
    if exps == [] then 0 else ModelCount(exps[..|exps| - 1], m) + (if exps[|exps| - 1].model == m then 1 else 0)
  }

  lemma {:induction false} MembersCountModel(exps: seq<SyncWorker.DetailRow>, m: string)
    ensures |Members(ModelPairs(exps), m)| == ModelCount(exps, m)
  {
    if exps != [] {
      var p := exps[..|exps| - 1];
      MembersCountModel(p, m);
      assert ModelPairs(exps)[..|exps| - 1] == ModelPairs(p);
    }
  }

  function SumCounts(g: ServiceData, keys: seq<string>): int
    requires forall k :: k in keys ==> k in g.data
  {
    if keys == [] then 0 else SumCounts(g, keys[..|keys| - 1]) + g.data[keys[|keys| - 1]].count
  }

  lemma {:induction false} SumCountsIsSumSizes(pairs: seq<(string, ExpRef)>, keys: seq<string>)
    requires forall k :: k in keys ==> k in FirstSeen(pairs)
    ensures SumCounts(ByModel(pairs), keys) == SumSizes(pairs, keys)
  {
    if keys != [] {
      SumCountsIsSumSizes(pairs, keys[..|keys| - 1]);
    }
  }

  /** Each model's count is its number of experiments, and the counts add up to the input length. */
  lemma CountsConserve(exps: seq<SyncWorker.DetailRow>)
    ensures forall m :: m in ByModel(ModelPairs(exps)).data ==>
              ByModel(ModelPairs(exps)).data[m].count == |ByModel(ModelPairs(exps)).data[m].experiments| == ModelCount(exps, m) > 0
    ensures SumCounts(ByModel(ModelPairs(exps)), ByModel(ModelPairs(exps)).order) == |exps|
  {
    var pairs := ModelPairs(exps);
    var g := ByModel(pairs);
    forall m | m in g.data ensures g.data[m].count == ModelCount(exps, m) > 0 {
      MembersNonEmpty(pairs, m);
      MembersCountModel(exps, m);
    }
    SumCountsIsSumSizes(pairs, g.order);
    SizesSumToLength(pairs);
  }

  // ---------------------------------------------------------------------------------------------
  // The update session (`update_timescaledb_data`)

  /** An added `ExperimentTimeDB` object; its creation time is None when `credated` was. */
  datatype ExpRecord = ExpRecord(id: int, name: string, model: string, createdTime: Option<Timestamp>)

  predicate WellFormed(g: ServiceData) {
    forall k :: k in g.order ==> k in g.data
  }

  /** The popularity rows added for the models in `keys`: one per model, at the sync time, holding the
      model's full count; `total_count` keeps its default 0. */
  function PopAdds(g: ServiceData, keys: seq<string>, now: Timestamp): (r: seq<PopularityRow>)
    requires forall k :: k in keys ==> k in g.data
    ensures |r| == |keys|
    ensures forall i :: 0 <= i < |keys| ==> r[i] == PopularityRow(now, keys[i], g.data[keys[i]].count, 0, now)
  {
    if keys == [] then [] else PopAdds(g, keys[..|keys| - 1], now) + [PopularityRow(now, keys[|keys| - 1], g.data[keys[|keys| - 1]].count, 0, now)]
  }

  /** The experiment objects added for one model: those whose id no persisted experiment has. */
  function NewRecords(m: string, refs: seq<ExpRef>, ids: set<int>): (r: seq<ExpRecord>)
    ensures forall x :: x in r <==> x.model == m && x.id !in ids && ExpRef(x.id, x.name, x.createdTime) in refs
  {
    if refs == [] then []
    else
      var e := refs[|refs| - 1];
      assert forall x :: x in refs <==> x in refs[..|refs| - 1] || x == e;
      NewRecords(m, refs[..|refs| - 1], ids) + (if e.id in ids then [] else [ExpRecord(e.id, e.name, m, e.createdTime)])
  }

  /** The experiment objects added for the models in `keys`, in dict order. */
  function ExpAdds(g: ServiceData, keys: seq<string>, ids: set<int>): seq<ExpRecord>
    requires forall k :: k in keys ==> k in g.data
  {
    if keys == [] then [] else ExpAdds(g, keys[..|keys| - 1], ids) + NewRecords(keys[|keys| - 1], g.data[keys[|keys| - 1]].experiments, ids)
  }

  /** An experiment object is added exactly for each recorded experiment whose id is not persisted,
      under the model it was recorded for. */
  lemma {:induction false} ExpAddsMembership(g: ServiceData, keys: seq<string>, ids: set<int>, x: ExpRecord)
    requires forall k :: k in keys ==> k in g.data
    ensures x in ExpAdds(g, keys, ids) <==>
              x.id !in ids && x.model in keys && ExpRef(x.id, x.name, x.createdTime) in g.data[x.model].experiments
  {
    if keys != [] {
      var init := keys[..|keys| - 1];
      ExpAddsMembership(g, init, ids, x);
      assert x.model in keys <==> x.model in init || x.model == keys[|keys| - 1];
    }
  }

  function ToRows(exps: seq<ExpRecord>): (r: seq<ExperimentRow>)
    requires forall x :: x in exps ==> x.createdTime.Some?
    ensures |r| == |exps|
  {
    seq(|exps|, i requires 0 <= i < |exps| => ExperimentRow(exps[i].id, exps[i].name, exps[i].model, exps[i].createdTime.value))
  }

  /** Whether `session.commit()` succeeds: every added experiment has a creation time (the column is
      not nullable) and no added row repeats a primary key, persisted or added. */
  predicate Accepts(store: Store, pops: seq<PopularityRow>, exps: seq<ExpRecord>) {
    (forall x :: x in exps ==> x.createdTime.Some?) &&
    UniqueIds(store.experiments + ToRows(exps)) &&
    UniqueKeys(store.popularity + pops)
  }

  /** The store after the session's single commit: everything added, or nothing (None) when the
      commit fails and the session is rolled back. */
  function Commit(store: Store, pops: seq<PopularityRow>, exps: seq<ExpRecord>): (r: Option<Store>)
    ensures r.Some? <==> Accepts(store, pops, exps)
    ensures r.Some? ==> r.value.popularity == store.popularity + pops && store.experiments <= r.value.experiments &&
                        IdsOf(r.value.experiments) == IdsOf(store.experiments) + set x | x in exps :: x.id
  {
    if Accepts(store, pops, exps) then
      var rows := ToRows(exps);
      assert IdsOf(rows) == set x | x in exps :: x.id by {
        forall y | y in IdsOf(rows) ensures y in set x | x in exps :: x.id {
          var i :| 0 <= i < |rows| && rows[i].id == y;
          assert exps[i] in exps;
        }
        forall y | y in set x | x in exps :: x.id ensures y in IdsOf(rows) {
          var x :| x in exps && x.id == y;
          var i :| 0 <= i < |exps| && exps[i] == x;
          assert rows[i] in rows;
        }
      }
      assert IdsOf(store.experiments + rows) == IdsOf(store.experiments) + IdsOf(rows);
      Some(Store(store.experiments + rows, store.popularity + pops))
    else None
  }

  /** The store after syncing `g` at time `now`. */
  function Synced(g: ServiceData, store: Store, now: Timestamp): Option<Store>
    requires WellFormed(g)
  {
    Commit(store, PopAdds(g, g.order, now), ExpAdds(g, g.order, IdsOf(store.experiments)))
  }

  /** The rows added for the first `i + 1` models: those for the first `i`, then the model's own. */
  lemma AddsSnoc(g: ServiceData, i: nat, now: Timestamp, ids: set<int>)
    requires WellFormed(g) && i < |g.order|
    ensures PopAdds(g, g.order[..i + 1], now) ==
              PopAdds(g, g.order[..i], now) + [PopularityRow(now, g.order[i], g.data[g.order[i]].count, 0, now)]
    ensures ExpAdds(g, g.order[..i + 1], ids) ==
              ExpAdds(g, g.order[..i], ids) + NewRecords(g.order[i], g.data[g.order[i]].experiments, ids)
  {
    assert g.order[..i + 1][..i] == g.order[..i];
  }

  lemma NewRecordsSnoc(m: string, refs: seq<ExpRef>, j: nat, ids: set<int>)
    requires j < |refs|
    ensures NewRecords(m, refs[..j + 1], ids) == NewRecords(m, refs[..j], ids) +
              (if refs[j].id in ids then [] else [ExpRecord(refs[j].id, refs[j].name, m, refs[j].createdTime)])
  {
    assert refs[..j + 1][..j] == refs[..j];
  }

  /** `update_timescaledb_data`: for each model add its popularity row, then add each of its
      experiments that the session's query finds no persisted row for (the session does not
      autoflush, so objects added earlier are not seen), and commit once at the end. A failed
      commit rolls back and re-raises. */
  method UpdateTimescaleDbData(g: ServiceData, store: Store, currentTime: Timestamp)
    returns (after: Store, raised: bool)
    requires WellFormed(g)
    ensures raised <==> Synced(g, store, currentTime).None?
    ensures raised ==> after == store
    ensures !raised ==> after == Synced(g, store, currentTime).value
  {
    var pops, exps := AddAll(g, IdsOf(store.experiments), currentTime);
    var committed := Commit(store, pops, exps);
    if committed.None? {
      return store, true;
    }
    after, raised := committed.value, false;
  }

  /** The loop over the models of `update_timescaledb_data`, up to the commit: what the session has
      been given to add. */
  method AddAll(g: ServiceData, ids: set<int>, currentTime: Timestamp)
    returns (pops: seq<PopularityRow>, exps: seq<ExpRecord>)
    requires WellFormed(g)
    ensures pops == PopAdds(g, g.order, currentTime)
    ensures exps == ExpAdds(g, g.order, ids)
  {
    pops, exps := [], [];
    for i := 0 to |g.order|
      invariant pops == PopAdds(g, g.order[..i], currentTime)
      invariant exps == ExpAdds(g, g.order[..i], ids)
    {
      var modelName := g.order[i];
      var info := g.data[modelName];
      AddsSnoc(g, i, currentTime, ids);
      pops := pops + [PopularityRow(currentTime, modelName, info.count, 0, currentTime)];
      var added := AddNew(modelName, info.experiments, ids);
      exps := exps + added;
    }
    assert g.order[..|g.order|] == g.order;
  }

  /** The inner loop: an experiment object for each of the model's experiments whose id the query
      finds no persisted row for. */
  method AddNew(modelName: string, refs: seq<ExpRef>, ids: set<int>) returns (added: seq<ExpRecord>)
    ensures added == NewRecords(modelName, refs, ids)
  {
    added := [];
    for j := 0 to |refs|
      invariant added == NewRecords(modelName, refs[..j], ids)
    {
      var expData := refs[j];
      NewRecordsSnoc(modelName, refs, j, ids);
      if expData.id !in ids {
        added := added + [ExpRecord(expData.id, expData.name, modelName, expData.createdTime)];
      }
    }
    assert refs[..|refs|] == refs;
  }


  /** What one `sync_data` call leaves in the store and whether it raised. */
  datatype SyncOutcome = SyncOutcome(store: Store, raised: bool)

  function SyncResult(rows: seq<SyncWorker.DetailRow>, store: Store, now: Timestamp): SyncOutcome {
    var g := ByModel(ModelPairs(Extracted(rows)));
    if Extracted(rows) == [] then SyncOutcome(store, false)
    else match Synced(g, store, now)
         case Some(s) => SyncOutcome(s, false)
         case None => SyncOutcome(store, true)
  }

  lemma ByModelWellFormed(pairs: seq<(string, ExpRef)>)
    ensures WellFormed(ByModel(pairs))
  {
  }

  /** `sync_data`: nothing is written when extraction yields no experiment; otherwise the
      experiments are grouped by model and the update session runs. */
  method SyncData(rows: seq<SyncWorker.DetailRow>, store: Store, currentTime: Timestamp)
    returns (after: Store, raised: bool)
    ensures Extracted(rows) == [] ==> after == store && !raised
    ensures SyncOutcome(after, raised) == SyncResult(rows, store, currentTime)
  {
    var experiments := ExtractAutosubmitExperiments(rows);
    assert experiments == Extracted(rows);
    if experiments == [] {
      return store, false;
    }
    var modelsData := ProcessExperiments(experiments);
    ByModelWellFormed(ModelPairs(experiments));
    after, raised := UpdateTimescaleDbData(modelsData, store, currentTime);
  }
}
