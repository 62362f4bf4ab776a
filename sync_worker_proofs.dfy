/**
  Properties of one and of two consecutive synchronisation cycles of the worker:
  what the reconciliation emits, what the commit stores, and what a replay does.
 */
module SyncWorkerProofs {
  import opened Wrappers
  import opened Grouping
  import opened TimescaleTables
  import opened SyncWorker

  // ---------------------------------------------------------------------------------------------
  // Ids: what the cycle inserts and what it considers known

  /** The ids of the experiments of the first `n` buckets. */
  function BucketIds(g: ModelsData, n: nat): set<int>
    requires WellFormed(g) && n <= |g.order|
  {
    if n == 0 then {} else BucketIds(g, n - 1) + RefIds(g.data[g.order[n - 1]].experiments)
  }

  lemma {:induction false} BucketIdsCover(g: ModelsData, n: nat, i: nat)
    requires WellFormed(g) && i < n <= |g.order|
    ensures RefIds(g.data[g.order[i]].experiments) <= BucketIds(g, n)
  {
    if i < n - 1 {
      BucketIdsCover(g, n - 1, i);
    }
  }

  lemma IdsOfAppend(a: seq<ExperimentRow>, b: seq<ExperimentRow>)
    ensures IdsOf(a + b) == IdsOf(a) + IdsOf(b)
  {
    forall r | r in a + b ensures r in a || r in b {
    }
  }

  /** Filtering out the known ids and then adding the rest gives the same known set as adding all. */
  lemma NewExperimentsIds(exps: seq<ExpRef>, ids: set<int>)
    ensures ids + RefIds(NewExperiments(exps, ids)) == ids + RefIds(exps)
  {
    var r := NewExperiments(exps, ids);
    forall x | x in RefIds(exps) ensures x in ids + RefIds(r) {
      var e :| e in exps && e.id == x;
      if x !in ids {
        assert e in r;
      }
    }
    forall x | x in RefIds(r) ensures x in RefIds(exps) {
      var e :| e in r && e.id == x;
      assert e in exps;
    }
  }

  /** One bucket: its ids all become known, and the rows it inserts carry exactly its new ids. */
  lemma StepIds(l: Ledger, key: DayModel, b: Bucket, ctx: Context)
    ensures Step(l, key, b, ctx).ids == l.ids + RefIds(b.experiments)
    ensures IdsOf(Flatten(Step(l, key, b, ctx).expBatches)) ==
              IdsOf(Flatten(l.expBatches)) + RefIds(NewExperiments(b.experiments, l.ids))
  {
    var newExps := NewExperiments(b.experiments, l.ids);
    NewExperimentsIds(b.experiments, l.ids);
    if |newExps| > 0 {
      var rows := InsertRows(newExps, key.model);
      FlattenAppend(l.expBatches, Chunks(rows, BatchSize));
      FlattenChunks(rows, BatchSize);
      IdsOfAppend(Flatten(l.expBatches), rows);
    } else {
      assert RefIds(newExps) == {};
    }
  }

  /** After `n` buckets the known ids are the ones the pass started from plus every id of those
      buckets, and equally the starting ones plus every id the cycle inserted. */
  lemma RunIds(g: ModelsData, ctx: Context, n: nat)
    requires WellFormed(g) && n <= |g.order|
    ensures Run(g, ctx, n).ids == ctx.existingIds + BucketIds(g, n)
    ensures Run(g, ctx, n).ids == ctx.existingIds + IdsOf(Flatten(Run(g, ctx, n).expBatches))
  {
    RunKnownIds(g, ctx, n);
    RunInsertedIds(g, ctx, n);
  }

  lemma KnownIdsStep(l: Ledger, l': Ledger, key: DayModel, b: Bucket, ctx: Context, before: set<int>)
    requires l' == Step(l, key, b, ctx) && l.ids == ctx.existingIds + before
    ensures l'.ids == ctx.existingIds + (before + RefIds(b.experiments))
  {
    StepIds(l, key, b, ctx);
  }

  lemma {:induction false} RunKnownIds(g: ModelsData, ctx: Context, n: nat)
    requires WellFormed(g) && n <= |g.order|
    ensures Run(g, ctx, n).ids == ctx.existingIds + BucketIds(g, n)
  {
    if n > 0 {
      RunKnownIds(g, ctx, n - 1);
      var key := g.order[n - 1];
      KnownIdsStep(Run(g, ctx, n - 1), Run(g, ctx, n), key, g.data[key], ctx, BucketIds(g, n - 1));
    }
  }

  lemma InsertedIdsStep(l: Ledger, l': Ledger, key: DayModel, b: Bucket, ctx: Context)
    requires l' == Step(l, key, b, ctx) && l.ids == ctx.existingIds + IdsOf(Flatten(l.expBatches))
    ensures l'.ids == ctx.existingIds + IdsOf(Flatten(l'.expBatches))
  {
    StepIds(l, key, b, ctx);
    NewExperimentsIds(b.experiments, l.ids);
  }

  lemma {:induction false} RunInsertedIds(g: ModelsData, ctx: Context, n: nat)
    requires WellFormed(g) && n <= |g.order|
    ensures Run(g, ctx, n).ids == ctx.existingIds + IdsOf(Flatten(Run(g, ctx, n).expBatches))
  {
    if n > 0 {
      RunInsertedIds(g, ctx, n - 1);
      var key := g.order[n - 1];
      InsertedIdsStep(Run(g, ctx, n - 1), Run(g, ctx, n), key, g.data[key], ctx);
    }
  }

  /** Inserting batches adds exactly their ids to the table's ids. */
  lemma {:induction false} ApplyExperimentIds(table: seq<ExperimentRow>, batches: seq<seq<ExperimentRow>>)
    ensures IdsOf(ApplyExperimentBatches(table, batches)) == IdsOf(table) + IdsOf(Flatten(batches))
  {
    if batches != [] {
      var init := batches[..|batches| - 1];
      ApplyExperimentIds(table, init);
      IdsOfAppend(Flatten(init), batches[|batches| - 1]);
    }
  }

  /** No persisted id ever matches an extracted one: the ids read back are all `str`, so the set the
      reconciliation starts from holds no integer, whatever the table holds. */
  lemma PersistedIdsNeverMatch(store: Store, now: Timestamp)
    ensures forall x: int :: IntId(x) !in ReadIds(store)
    ensures ContextOf(store, now).existingIds == {}
  {
  }

  /** Every cycle sends every id of every bucket again, whatever is persisted already; only the
      `ON CONFLICT (id) DO NOTHING` of the insert keeps a stored row from being duplicated. */
  lemma ReplayReissuesExperiments(g: ModelsData, store: Store, now: Timestamp)
    requires WellFormed(g)
    ensures IdsOf(Flatten(PlanOf(g, ContextOf(store, now)).expBatches)) == BucketIds(g, |g.order|)
  {
    var ctx := ContextOf(store, now);
    PersistedIdsNeverMatch(store, now);
    RunIds(g, ctx, |g.order|);
  }

  /** With no persisted id matching, a bucket whose ids no earlier bucket holds counts all its
      experiments as new: when the buckets' ids are pairwise disjoint, every bucket advances its
      model's total by its full size, in key order. */
  lemma EveryBucketAdvances(g: ModelsData, store: Store, now: Timestamp, n: nat)
    requires WellFormed(g) && n <= |g.order|
    requires forall i :: 0 <= i < n ==> |g.data[g.order[i]].experiments| > 0
    requires forall i, j :: 0 <= i < j < n ==> RefIds(g.data[g.order[i]].experiments) !! RefIds(g.data[g.order[j]].experiments)
    ensures var advs := Run(g, ContextOf(store, now), n).advances;
            |advs| == n &&
            forall i :: 0 <= i < n ==> advs[i].key == g.order[i] && advs[i].count == |g.data[g.order[i]].experiments|
  {
    PersistedIdsNeverMatch(store, now);
    RunAdvancesAll(g, ContextOf(store, now), n);
  }

  /** `advs` holds one advance per bucket among the first `n`, in key order, counting the whole bucket. */
  ghost predicate AdvancesCover(g: ModelsData, advs: seq<Advance>, n: nat)
    requires WellFormed(g) && n <= |g.order|
  {
    |advs| == n &&
    forall i :: 0 <= i < n ==> advs[i].key == g.order[i] && advs[i].count == |g.data[g.order[i]].experiments|
  }

  lemma {:induction false} RunAdvancesAll(g: ModelsData, ctx: Context, n: nat)
    requires WellFormed(g) && n <= |g.order| && ctx.existingIds == {}
    requires forall i :: 0 <= i < n ==> |g.data[g.order[i]].experiments| > 0
    requires forall i, j :: 0 <= i < j < n ==> RefIds(g.data[g.order[i]].experiments) !! RefIds(g.data[g.order[j]].experiments)
    ensures AdvancesCover(g, Run(g, ctx, n).advances, n)
  {
    if n > 0 {
      RunAdvancesAll(g, ctx, n - 1);
      assert RefIds(g.data[g.order[n - 1]].experiments) !! BucketIds(g, n - 1) by {
        BucketIdsDisjoint(g, n - 1, RefIds(g.data[g.order[n - 1]].experiments));
      }
      RunAdvancesStep(g, ctx, n);
    }
  }

  /** The next bucket, disjoint from the ones before it, adds one advance counting all of it. */
  lemma RunAdvancesStep(g: ModelsData, ctx: Context, n: nat)
    requires WellFormed(g) && 0 < n <= |g.order| && ctx.existingIds == {}
    requires |g.data[g.order[n - 1]].experiments| > 0
    requires RefIds(g.data[g.order[n - 1]].experiments) !! BucketIds(g, n - 1)
    requires AdvancesCover(g, Run(g, ctx, n - 1).advances, n - 1)
    ensures AdvancesCover(g, Run(g, ctx, n).advances, n)
  {
    var prev := Run(g, ctx, n - 1).advances;
    var advs := Run(g, ctx, n).advances;
    NextAdvance(g, ctx, n);
    AdvancesExtend(g, prev, advs, n);
  }

  lemma NextAdvance(g: ModelsData, ctx: Context, n: nat)
    requires WellFormed(g) && 0 < n <= |g.order| && ctx.existingIds == {}
    requires |g.data[g.order[n - 1]].experiments| > 0
    requires RefIds(g.data[g.order[n - 1]].experiments) !! BucketIds(g, n - 1)
    requires |Run(g, ctx, n - 1).advances| == n - 1
    ensures var advs := Run(g, ctx, n).advances;
            |advs| == n && advs[..n - 1] == Run(g, ctx, n - 1).advances &&
            advs[n - 1].key == g.order[n - 1] && advs[n - 1].count == |g.data[g.order[n - 1]].experiments|
  {
    var l := Run(g, ctx, n - 1);
    var key := g.order[n - 1];
    var b := g.data[key];
    RunIdsDisjoint(g, ctx, n - 1, RefIds(b.experiments));
    StepAllNew(l, key, b, ctx);
  }

  /** Ids outside every bucket so far, when the pass starts from none, are outside the known ids. */
  lemma RunIdsDisjoint(g: ModelsData, ctx: Context, n: nat, a: set<int>)
    requires WellFormed(g) && n <= |g.order| && ctx.existingIds == {}
    requires a !! BucketIds(g, n)
    ensures a !! Run(g, ctx, n).ids
  {
    RunKnownIds(g, ctx, n);
  }

  lemma AdvancesExtend(g: ModelsData, prev: seq<Advance>, advs: seq<Advance>, n: nat)
    requires WellFormed(g) && 0 < n <= |g.order|
    requires AdvancesCover(g, prev, n - 1)
    requires |advs| == n && advs[..n - 1] == prev
    requires advs[n - 1].key == g.order[n - 1] && advs[n - 1].count == |g.data[g.order[n - 1]].experiments|
    ensures AdvancesCover(g, advs, n)
  {
    forall i | 0 <= i < n ensures advs[i].key == g.order[i] && advs[i].count == |g.data[g.order[i]].experiments| {
      if i < n - 1 {
        assert advs[i] == prev[i];
      }
    }
  }

  /** A non-empty bucket none of whose ids is known yet makes one advance counting all of it. */
  lemma StepAllNew(l: Ledger, key: DayModel, b: Bucket, ctx: Context)
    requires RefIds(b.experiments) !! l.ids && |b.experiments| > 0
    ensures var advs := Step(l, key, b, ctx).advances;
            |advs| == |l.advances| + 1 && advs[..|l.advances|] == l.advances &&
            advs[|l.advances|].key == key && advs[|l.advances|].count == |b.experiments|
  {
    NewExperimentsAll(b.experiments, l.ids);
    var a := StepAdvance(l, key, b, ctx);
    assert (l.advances + [a])[..|l.advances|] == l.advances;
  }

  /** The ledger after a non-empty bucket none of whose ids is known yet. */
  lemma StepFresh(l: Ledger, key: DayModel, b: Bucket, ctx: Context) returns (total: int)
    requires RefIds(b.experiments) !! l.ids && |b.experiments| > 0
    ensures total == (if key.model in l.hist then l.hist[key.model] else Baseline(ctx.persisted, key.model)) + |b.experiments|
    ensures Step(l, key, b, ctx) == NewLedger(l, key, b.experiments, total, ctx)
  {
    NewExperimentsAll(b.experiments, l.ids);
    total := StepNew(l, key, b, ctx);
  }

  /** The ledger after a bucket whose new experiments are `exps`, advancing the total to `total`. */
  function NewLedger(l: Ledger, key: DayModel, exps: seq<ExpRef>, total: int, ctx: Context): Ledger {
    Ledger(l.ids + RefIds(exps), l.hist[key.model := total],
           l.advances + [Advance(key, |exps|, total)],
           if key in ctx.existingPop then l.popRows
           else l.popRows + [PopularityRow(key.day, key.model, |exps|, total, ctx.now)],
           l.expBatches + Chunks(InsertRows(exps, key.model), BatchSize))
  }

  lemma StepNew(l: Ledger, key: DayModel, b: Bucket, ctx: Context) returns (total: int)
    requires |NewExperiments(b.experiments, l.ids)| > 0
    ensures var n := NewExperiments(b.experiments, l.ids);
            total == (if key.model in l.hist then l.hist[key.model] else Baseline(ctx.persisted, key.model)) + |n| &&
            Step(l, key, b, ctx) == NewLedger(l, key, n, total, ctx)
  {
    var n := NewExperiments(b.experiments, l.ids);
    total := (if key.model in l.hist then l.hist[key.model] else Baseline(ctx.persisted, key.model)) + |n|;
  }

  lemma {:induction false} BucketIdsDisjoint(g: ModelsData, n: nat, ids: set<int>)
    requires WellFormed(g) && n <= |g.order|
    requires forall i :: 0 <= i < n ==> RefIds(g.data[g.order[i]].experiments) !! ids
    ensures ids !! BucketIds(g, n)
  {
    if n > 0 {
      BucketIdsDisjoint(g, n - 1, ids);
    }
  }

  /** A bucket none of whose ids is known keeps every experiment. */
  lemma {:induction false} NewExperimentsAll(exps: seq<ExpRef>, ids: set<int>)
    requires RefIds(exps) !! ids
    ensures NewExperiments(exps, ids) == exps
  {
    if exps != [] {
      var init := exps[..|exps| - 1];
      assert exps[|exps| - 1] in exps;
      assert RefIds(init) !! ids by {
        forall x | x in RefIds(init) ensures x in RefIds(exps) {
          var e :| e in init && e.id == x;
          assert e in exps;
        }
      }
      NewExperimentsAll(init, ids);
      assert init + [exps[|exps| - 1]] == exps;
    }
  }

  /** The replay inflates a model's total. Two experiments of model "m" created on day 0 are stored,
      with their popularity row (count 2, total 2). The next cycle extracts them again together with a
      third one created on day 1: the first bucket counts both stored experiments again and advances
      the total to 4 in memory (its row is withheld), so the row written for day 1 carries total 5,
      where the model has 3 experiments. Only the third experiment's row is added to `experiments`. */
  lemma ReplayInflatesTotals(now: Timestamp, created: Timestamp)
    ensures var e1, e2, e3 := ExpRef(1, "a000", created), ExpRef(2, "a001", created), ExpRef(3, "a002", created);
            var d0, d1 := DayModel(0, "m"), DayModel(MicrosPerDay, "m");
            var row1, row2, row3 := ExperimentRow(1, "a000", "m", created), ExperimentRow(2, "a001", "m", created),
                                    ExperimentRow(3, "a002", "m", created);
            var store := Store([row1, row2], [PopularityRow(0, "m", 2, 2, 0)]);
            var g := ModelsData([d0, d1], map[d0 := Bucket("m", 0, 2, [e1, e2]), d1 := Bucket("m", MicrosPerDay, 1, [e3])]);
            var plan := PlanOf(g, ContextOf(store, now));
            && plan.popBatches == [[PopularityRow(MicrosPerDay, "m", 1, 5, now)]]
            && ApplyPlan(store, plan) == Store([row1, row2, row3], store.popularity + [PopularityRow(MicrosPerDay, "m", 1, 5, now)])
  {
    var e1, e2, e3 := ExpRef(1, "a000", created), ExpRef(2, "a001", created), ExpRef(3, "a002", created);
    var d0, d1 := DayModel(0, "m"), DayModel(MicrosPerDay, "m");
    var row1, row2, row3 := ExperimentRow(1, "a000", "m", created), ExperimentRow(2, "a001", "m", created),
                            ExperimentRow(3, "a002", "m", created);
    var pop := PopularityRow(0, "m", 2, 2, 0);
    var store := Store([row1, row2], [pop]);
    var g := ModelsData([d0, d1], map[d0 := Bucket("m", 0, 2, [e1, e2]), d1 := Bucket("m", MicrosPerDay, 1, [e3])]);
    var ctx := ContextOf(store, now);
    PersistedIdsNeverMatch(store, now);
    assert KeysOf([pop]) == {d0} by {
      assert KeyOf(pop) == d0;
    }
    assert Baseline([pop], "m") == 2 by {
      BaselineOfOneRow(pop);
    }
    ReplayPlan(g, ctx, created);
    ReplayApplyExample(row1, row2, row3, pop, PopularityRow(MicrosPerDay, "m", 1, 5, now));
  }

  lemma ReplayPlan(g: ModelsData, ctx: Context, created: Timestamp)
    requires var d0, d1 := DayModel(0, "m"), DayModel(MicrosPerDay, "m");
             g == ModelsData([d0, d1], map[d0 := Bucket("m", 0, 2, [ExpRef(1, "a000", created), ExpRef(2, "a001", created)]),
                                           d1 := Bucket("m", MicrosPerDay, 1, [ExpRef(3, "a002", created)])])
    requires ctx.existingIds == {} && ctx.existingPop == {DayModel(0, "m")} && Baseline(ctx.persisted, "m") == 2
    ensures WellFormed(g)
    ensures PlanOf(g, ctx) == Plan([[ExperimentRow(1, "a000", "m", created), ExperimentRow(2, "a001", "m", created)],
                                    [ExperimentRow(3, "a002", "m", created)]],
                                   [[PopularityRow(MicrosPerDay, "m", 1, 5, ctx.now)]])
  {
    var l1 := ReplayFirstBucket(ctx, created);
    var l2 := ReplaySecondBucket(ctx, l1, created);
    assert Run(g, ctx, 0) == Init(ctx);
    assert Run(g, ctx, 1) == l1;
    assert Run(g, ctx, 2) == l2;
    var newRow := PopularityRow(MicrosPerDay, "m", 1, 5, ctx.now);
    assert Chunks([newRow], BatchSize) == [[newRow]];
  }

  /** The example's first bucket: both stored experiments count as new and advance the total from 2 to 4. */
  lemma ReplayFirstBucket(ctx: Context, created: Timestamp) returns (l: Ledger)
    requires ctx.existingIds == {} && DayModel(0, "m") in ctx.existingPop && Baseline(ctx.persisted, "m") == 2
    ensures l == Step(Init(ctx), DayModel(0, "m"), Bucket("m", 0, 2, [ExpRef(1, "a000", created), ExpRef(2, "a001", created)]), ctx)
    ensures l == Ledger({1, 2}, map["m" := 4], [Advance(DayModel(0, "m"), 2, 4)], [],
                        [[ExperimentRow(1, "a000", "m", created), ExperimentRow(2, "a001", "m", created)]])
  {
    var e1, e2 := ExpRef(1, "a000", created), ExpRef(2, "a001", created);
    var rows := [ExperimentRow(1, "a000", "m", created), ExperimentRow(2, "a001", "m", created)];
    assert RefIds([e1, e2]) == {1, 2};
    var total := StepFresh(Init(ctx), DayModel(0, "m"), Bucket("m", 0, 2, [e1, e2]), ctx);
    assert InsertRows([e1, e2], "m") == rows;
    assert Chunks(rows, BatchSize) == [rows];
    l := Step(Init(ctx), DayModel(0, "m"), Bucket("m", 0, 2, [e1, e2]), ctx);
  }

  /** The example's second bucket: the new experiment advances the total from 4 to 5, and its row is written. */
  lemma ReplaySecondBucket(ctx: Context, l1: Ledger, created: Timestamp) returns (l: Ledger)
    requires DayModel(MicrosPerDay, "m") !in ctx.existingPop
    requires l1 == Ledger({1, 2}, map["m" := 4], [Advance(DayModel(0, "m"), 2, 4)], [],
                          [[ExperimentRow(1, "a000", "m", created), ExperimentRow(2, "a001", "m", created)]])
    ensures l == Step(l1, DayModel(MicrosPerDay, "m"), Bucket("m", MicrosPerDay, 1, [ExpRef(3, "a002", created)]), ctx)
    ensures l.popRows == [PopularityRow(MicrosPerDay, "m", 1, 5, ctx.now)]
    ensures l.expBatches == [[ExperimentRow(1, "a000", "m", created), ExperimentRow(2, "a001", "m", created)],
                             [ExperimentRow(3, "a002", "m", created)]]
  {
    var e3 := ExpRef(3, "a002", created);
    assert RefIds([e3]) == {3};
    var total := StepFresh(l1, DayModel(MicrosPerDay, "m"), Bucket("m", MicrosPerDay, 1, [e3]), ctx);
    assert InsertRows([e3], "m") == [ExperimentRow(3, "a002", "m", created)];
    assert Chunks([ExperimentRow(3, "a002", "m", created)], BatchSize) == [[ExperimentRow(3, "a002", "m", created)]];
    l := Step(l1, DayModel(MicrosPerDay, "m"), Bucket("m", MicrosPerDay, 1, [e3]), ctx);
  }

  lemma ReplayApplyExample(row1: ExperimentRow, row2: ExperimentRow, row3: ExperimentRow, pop: PopularityRow, newRow: PopularityRow)
    requires row1.id == 1 && row2.id == 2 && row3.id == 3 && KeyOf(pop) != KeyOf(newRow)
    ensures ApplyPlan(Store([row1, row2], [pop]), Plan([[row1, row2], [row3]], [[newRow]])) == Store([row1, row2, row3], [pop, newRow])
  {
    ReplayApplyExperiments([row1, row2], [row1, row2], row3);
    ReplayApplyPopularity(pop, newRow);
  }

  lemma ReplayApplyExperiments(table: seq<ExperimentRow>, batch: seq<ExperimentRow>, row3: ExperimentRow)
    requires |batch| == 2 && batch[0].id in IdsOf(table) && batch[1].id in IdsOf(table) && row3.id !in IdsOf(table)
    ensures ApplyExperimentBatches(table, [batch, [row3]]) == table + [row3]
  {
    var first := ReplayKnownRows(table, batch[0], batch[1]);
    assert [batch[0], batch[1]] == batch;
    var batches := [batch, [row3]];
    assert batches[..1] == [batch];
    assert ApplyExperimentBatches(table, batches) == InsertIgnoreExperiments(table, [row3]);
    assert InsertIgnoreExperiments(table, [row3]) == table + [row3] by {
      assert [row3][1..] == [];
      assert InsertIgnoreExperiments(table + [row3], []) == table + [row3];
    }
  }

  lemma ReplayApplyPopularity(pop: PopularityRow, newRow: PopularityRow)
    requires KeyOf(pop) != KeyOf(newRow)
    ensures ApplyPopularityBatches([pop], [[newRow]]) == [pop, newRow]
  {
    assert KeysOf([pop]) == {KeyOf(pop)};
    assert InsertIgnorePopularity([pop], [newRow]) == [pop, newRow] by {
      assert [newRow][1..] == [];
    }
    assert [[newRow]][..0] == [];
  }

  lemma ReplayKnownRows(table: seq<ExperimentRow>, row1: ExperimentRow, row2: ExperimentRow) returns (r: seq<ExperimentRow>)
    requires row1.id in IdsOf(table) && row2.id in IdsOf(table)
    ensures r == ApplyExperimentBatches(table, [[row1, row2]]) && r == table
  {
    assert [[row1, row2]][..0] == [];
    assert InsertIgnoreExperiments(table, [row2]) == table by {
      assert [row2][1..] == [];
    }
    assert InsertIgnoreExperiments(table, [row1, row2]) == table by {
      assert [row1, row2][1..] == [row2];
    }
    r := table;
  }

  lemma BaselineOfOneRow(r: PopularityRow)
    ensures Baseline([r], r.model) == r.totalCount
  {
    BaselineIsLatestTotalOrZero([r], r.model);
    assert r.model in MaterializedViews.Models([r]);
  }

  // ---------------------------------------------------------------------------------------------
  // A second cycle

  /** The keys of a sequence of advances. */
  function AdvanceKeys(advs: seq<Advance>): set<DayModel> {
    set a | a in advs :: a.key
  }

  /** Which ids are inserted and which buckets advance depend only on the ids the pass starts from,
      not on the persisted popularity or the cycle's time. */
  lemma {:induction false} RunShape(g: ModelsData, c1: Context, c2: Context, n: nat)
    requires WellFormed(g) && n <= |g.order| && c1.existingIds == c2.existingIds
    ensures Run(g, c1, n).ids == Run(g, c2, n).ids
    ensures Run(g, c1, n).expBatches == Run(g, c2, n).expBatches
    ensures AdvanceKeys(Run(g, c1, n).advances) == AdvanceKeys(Run(g, c2, n).advances)
  {
    if n > 0 {
      RunShape(g, c1, c2, n - 1);
      var key := g.order[n - 1];
      StepShape(Run(g, c1, n - 1), Run(g, c2, n - 1), key, g.data[key], c1, c2);
    }
  }

  lemma StepShape(l1: Ledger, l2: Ledger, key: DayModel, b: Bucket, c1: Context, c2: Context)
    requires l1.ids == l2.ids && l1.expBatches == l2.expBatches && AdvanceKeys(l1.advances) == AdvanceKeys(l2.advances)
    ensures Step(l1, key, b, c1).ids == Step(l2, key, b, c2).ids
    ensures Step(l1, key, b, c1).expBatches == Step(l2, key, b, c2).expBatches
    ensures AdvanceKeys(Step(l1, key, b, c1).advances) == AdvanceKeys(Step(l2, key, b, c2).advances)
  {
    if |NewExperiments(b.experiments, l1.ids)| > 0 {
      var a1 := StepAdvance(l1, key, b, c1);
      var a2 := StepAdvance(l2, key, b, c2);
      AdvanceKeySetSnoc(l1.advances, a1);
      AdvanceKeySetSnoc(l2.advances, a2);
    }
  }

  lemma AdvanceKeySetSnoc(advs: seq<Advance>, a: Advance)
    ensures AdvanceKeys(advs + [a]) == AdvanceKeys(advs) + {a.key}
  {
    assert forall x :: x in advs + [a] <==> x in advs || x == a;
  }

  /** After a committed cycle every bucket that advanced has its `(time, model)` row stored: it was
      either persisted already or written by the cycle. */
  lemma CommitStoresAdvanceKeys(g: ModelsData, store: Store, now: Timestamp)
    requires WellFormed(g) && Distinct(g.order)
    ensures AdvanceKeys(Run(g, ContextOf(store, now), |g.order|).advances) <=
              KeysOf(ApplyPlan(store, PlanOf(g, ContextOf(store, now))).popularity)
  {
    var ctx := ContextOf(store, now);
    CommitAppendsEmittedRows(g, store, now);
    RunCountsPositive(g, ctx, |g.order|);
    AdvanceKeysStored(Run(g, ctx, |g.order|).advances, ctx, store.popularity);
  }

  lemma RunCountsPositive(g: ModelsData, ctx: Context, n: nat)
    requires WellFormed(g) && n <= |g.order|
    ensures forall a :: a in Run(g, ctx, n).advances ==> a.count > 0
  {
    RunTotalsChain(g, ctx, n);
    var advs := Run(g, ctx, n).advances;
    forall a | a in advs ensures a.count > 0 {
      var j :| 0 <= j < |advs| && advs[j] == a;
    }
  }

  /** Appending the emitted rows to the table they were emitted against stores every advance's key. */
  lemma AdvanceKeysStored(advs: seq<Advance>, ctx: Context, table: seq<PopularityRow>)
    requires ctx.existingPop == KeysOf(table)
    requires forall a :: a in advs ==> a.count > 0
    ensures AdvanceKeys(advs) <= KeysOf(table + Emitted(advs, ctx))
  {
    KeysOfAppend(table, Emitted(advs, ctx));
    forall k | k in AdvanceKeys(advs) ensures k in KeysOf(table + Emitted(advs, ctx)) {
      var a :| a in advs && a.key == k;
      if k !in ctx.existingPop {
        var row := PopularityRow(a.key.day, a.key.model, a.count, a.total, ctx.now);
        assert row in Emitted(advs, ctx);
        assert KeyOf(row) == k;
      }
    }
  }

  /** Advances whose keys are all persisted emit no row. */
  lemma {:induction false} EmittedNone(advs: seq<Advance>, ctx: Context)
    requires AdvanceKeys(advs) <= ctx.existingPop
    ensures Emitted(advs, ctx) == []
  {
    if advs != [] {
      var init := advs[..|advs| - 1];
      assert AdvanceKeys(init) <= AdvanceKeys(advs) by {
        forall k | k in AdvanceKeys(init) ensures k in AdvanceKeys(advs) {
          var a :| a in init && a.key == k;
          assert a in advs;
        }
      }
      EmittedNone(init, ctx);
      assert advs[|advs| - 1] in advs;
    }
  }

  /** Inserting rows whose ids are all stored changes nothing. */
  lemma {:induction false} InsertKnownIds(table: seq<ExperimentRow>, batch: seq<ExperimentRow>)
    requires IdsOf(batch) <= IdsOf(table)
    ensures InsertIgnoreExperiments(table, batch) == table
    decreases |batch|
  {
    if batch != [] {
      ExperimentStep(table, batch);
      InsertKnownIds(table, batch[1..]);
    }
  }

  lemma {:induction false} ApplyKnownIds(table: seq<ExperimentRow>, batches: seq<seq<ExperimentRow>>)
    requires IdsOf(Flatten(batches)) <= IdsOf(table)
    ensures ApplyExperimentBatches(table, batches) == table
  {
    if batches != [] {
      var init, last := batches[..|batches| - 1], batches[|batches| - 1];
      IdsOfAppend(Flatten(init), last);
      ApplyKnownIds(table, init);
      InsertKnownIds(table, last);
    }
  }

  /** A committed cycle is idempotent: a second cycle over an unchanged extraction re-sends every
      experiment and advances every bucket again, yet changes neither table. The experiment rows are
      all ignored on conflict, and every advance's `(time, model)` row is stored by then, so no
      popularity row is written. */
  lemma CycleIdempotent(rows: seq<DetailRow>, store: Store, t1: Timestamp, t2: Timestamp)
    requires AllDated(Extracted(rows))
    ensures CycleStore(rows, CycleStore(rows, store, t1), t2) == CycleStore(rows, store, t1)
  {
    var g := Group(Extracted(rows));
    var c1 := ContextOf(store, t1);
    var after := CycleStore(rows, store, t1);
    var c2 := ContextOf(after, t2);
    var n := |g.order|;
    PersistedIdsNeverMatch(store, t1);
    PersistedIdsNeverMatch(after, t2);
    RunShape(g, c1, c2, n);
    CommitStoresAdvanceKeys(g, store, t1);
    RunPopRows(g, c2, n);
    EmittedNone(Run(g, c2, n).advances, c2);
    assert Chunks(Run(g, c2, n).popRows, BatchSize) == [];
    RunIds(g, c1, n);
    ApplyExperimentIds(store.experiments, Run(g, c1, n).expBatches);
    ApplyKnownIds(after.experiments, Run(g, c2, n).expBatches);
  }

  // ---------------------------------------------------------------------------------------------
  // Running totals

  /** The new experiments of model `m` counted by the given advances. */
  function SumAdv(advs: seq<Advance>, m: string): int {
    if advs == [] then 0
    else SumAdv(advs[..|advs| - 1], m) + (if advs[|advs| - 1].key.model == m then advs[|advs| - 1].count else 0)
  }

  /** Each model's in-memory total is its baseline plus every new experiment of it counted so far;
      a model without advances has no entry. */
  ghost predicate HistChained(hist: map<string, int>, advs: seq<Advance>, ctx: Context) {
    && (forall m :: m in hist ==> hist[m] == Baseline(ctx.persisted, m) + SumAdv(advs, m))
    && (forall m :: m !in hist ==> SumAdv(advs, m) == 0)
  }

  /** Every advance counts at least one experiment, and its total is its model's baseline plus the
      counts of that model up to and including it (withheld rows included). */
  ghost predicate AdvancesChained(advs: seq<Advance>, ctx: Context) {
    forall j :: 0 <= j < |advs| ==>
      advs[j].count > 0 &&
      advs[j].total == Baseline(ctx.persisted, advs[j].key.model) + SumAdv(advs[..j + 1], advs[j].key.model)
  }

  /** The chaining of running totals across a ledger. */
  ghost predicate Chained(l: Ledger, ctx: Context) {
    HistChained(l.hist, l.advances, ctx) && AdvancesChained(l.advances, ctx)
  }

  lemma SumAdvSnoc(advs: seq<Advance>, a: Advance, m: string)
    ensures SumAdv(advs + [a], m) == SumAdv(advs, m) + (if a.key.model == m then a.count else 0)
  {
    assert (advs + [a])[..|advs|] == advs;
  }

  lemma AdvancesSnoc(advs: seq<Advance>, a: Advance, ctx: Context)
    requires AdvancesChained(advs, ctx)
    requires a.count > 0 && a.total == Baseline(ctx.persisted, a.key.model) + SumAdv(advs, a.key.model) + a.count
    ensures AdvancesChained(advs + [a], ctx)
  {
    var advs' := advs + [a];
    SumAdvSnoc(advs, a, a.key.model);
    forall j | 0 <= j < |advs'|
      ensures advs'[j].count > 0
      ensures advs'[j].total == Baseline(ctx.persisted, advs'[j].key.model) + SumAdv(advs'[..j + 1], advs'[j].key.model)
    {
      if j < |advs| {
        assert advs'[..j + 1] == advs[..j + 1];
      } else {
        assert advs'[..j + 1] == advs';
      }
    }
  }

  lemma HistSnoc(hist: map<string, int>, advs: seq<Advance>, a: Advance, ctx: Context)
    requires HistChained(hist, advs, ctx)
    requires a.total == Baseline(ctx.persisted, a.key.model) + SumAdv(advs, a.key.model) + a.count
    ensures HistChained(hist[a.key.model := a.total], advs + [a], ctx)
  {
    var hist' := hist[a.key.model := a.total];
    assert forall m :: m in hist' ==> hist'[m] == Baseline(ctx.persisted, m) + SumAdv(advs + [a], m) by {
      forall m | m in hist' ensures hist'[m] == Baseline(ctx.persisted, m) + SumAdv(advs + [a], m) {
        HistEntrySnoc(hist, advs, a, ctx, m);
      }
    }
    assert forall m :: m !in hist' ==> SumAdv(advs + [a], m) == 0 by {
      forall m | m !in hist' ensures SumAdv(advs + [a], m) == 0 {
        HistAbsentSnoc(advs, a, m);
      }
    }
  }

  lemma HistAbsentSnoc(advs: seq<Advance>, a: Advance, m: string)
    requires SumAdv(advs, m) == 0 && m != a.key.model
    ensures SumAdv(advs + [a], m) == 0
  {
    SumAdvSnoc(advs, a, m);
  }

  lemma HistEntrySnoc(hist: map<string, int>, advs: seq<Advance>, a: Advance, ctx: Context, m: string)
    requires m in hist ==> hist[m] == Baseline(ctx.persisted, m) + SumAdv(advs, m)
    requires a.total == Baseline(ctx.persisted, a.key.model) + SumAdv(advs, a.key.model) + a.count
    requires m in hist || m == a.key.model
    ensures hist[a.key.model := a.total][m] == Baseline(ctx.persisted, m) + SumAdv(advs + [a], m)
  {
    SumAdvSnoc(advs, a, m);
  }

  /** One bucket keeps the running totals chained. */
  lemma StepChained(l: Ledger, key: DayModel, b: Bucket, ctx: Context)
    requires Chained(l, ctx)
    ensures Chained(Step(l, key, b, ctx), ctx)
  {
    if |NewExperiments(b.experiments, l.ids)| > 0 {
      var a := StepAdvance(l, key, b, ctx);
      BaseChained(l, key.model, ctx);
      AdvancesSnoc(l.advances, a, ctx);
      HistSnoc(l.hist, l.advances, a, ctx);
      ChainedOf(Step(l, key, b, ctx), l.hist[a.key.model := a.total], l.advances + [a], ctx);
    } else {
      assert Step(l, key, b, ctx) == l;
    }
  }

  /** What a bucket with new experiments does to the totals: one advance, from the model's current
      total (its baseline the first time). */
  lemma StepAdvance(l: Ledger, key: DayModel, b: Bucket, ctx: Context) returns (a: Advance)
    requires |NewExperiments(b.experiments, l.ids)| > 0
    ensures a.key == key && a.count == |NewExperiments(b.experiments, l.ids)| > 0
    ensures a.total == (if key.model in l.hist then l.hist[key.model] else Baseline(ctx.persisted, key.model)) + a.count
    ensures Step(l, key, b, ctx).advances == l.advances + [a]
    ensures Step(l, key, b, ctx).hist == l.hist[a.key.model := a.total]
    ensures Step(l, key, b, ctx).popRows == l.popRows +
              (if a.key in ctx.existingPop then [] else [PopularityRow(a.key.day, a.key.model, a.count, a.total, ctx.now)])
  {
    var n := |NewExperiments(b.experiments, l.ids)|;
    a := Advance(key, n, (if key.model in l.hist then l.hist[key.model] else Baseline(ctx.persisted, key.model)) + n);
  }

  /** The total a model starts from in a bucket: its baseline plus what was counted before. */
  lemma BaseChained(l: Ledger, m: string, ctx: Context)
    requires HistChained(l.hist, l.advances, ctx)
    ensures (if m in l.hist then l.hist[m] else Baseline(ctx.persisted, m)) ==
              Baseline(ctx.persisted, m) + SumAdv(l.advances, m)
  {
  }

  lemma ChainedOf(l: Ledger, hist: map<string, int>, advs: seq<Advance>, ctx: Context)
    requires l.hist == hist && l.advances == advs
    requires HistChained(hist, advs, ctx) && AdvancesChained(advs, ctx)
    ensures Chained(l, ctx)
  {
  }

  /** Every bucket with new experiments advances its model's total from the previous value (the
      baseline the first time), in the dict's insertion order. */
  lemma {:induction false} RunTotalsChain(g: ModelsData, ctx: Context, n: nat)
    requires WellFormed(g) && n <= |g.order|
    ensures Chained(Run(g, ctx, n), ctx)
  {
    if n > 0 {
      RunTotalsChain(g, ctx, n - 1);
      StepChained(Run(g, ctx, n - 1), g.order[n - 1], g.data[g.order[n - 1]], ctx);
    }
  }

  // ---------------------------------------------------------------------------------------------
  // Popularity rows

  /** The popularity rows for the given advances: one per advance whose `(time, model)` is not
      persisted, carrying the advance's count and total and the cycle's time. */
  function Emitted(advs: seq<Advance>, ctx: Context): (r: seq<PopularityRow>)
    ensures forall x :: x in r ==>
              (KeyOf(x) !in ctx.existingPop && x.extractedTime == ctx.now && x.count >= 0 &&
               Advance(KeyOf(x), x.count, x.totalCount) in advs)
    ensures forall a :: a in advs && a.key !in ctx.existingPop && a.count >= 0 ==>
              PopularityRow(a.key.day, a.key.model, a.count, a.total, ctx.now) in r
  {
    if advs == [] then []
    else
      var init := advs[..|advs| - 1];
      var a := advs[|advs| - 1];
      assert forall b :: b in advs <==> b in init || b == a;
      Emitted(init, ctx) +
        (if a.key in ctx.existingPop then [] else [PopularityRow(a.key.day, a.key.model, a.count, a.total, ctx.now)])
  }

  lemma EmittedSnoc(advs: seq<Advance>, a: Advance, ctx: Context)
    ensures Emitted(advs + [a], ctx) == Emitted(advs, ctx) +
              (if a.key in ctx.existingPop then [] else [PopularityRow(a.key.day, a.key.model, a.count, a.total, ctx.now)])
  {
    assert (advs + [a])[..|advs|] == advs;
  }

  lemma StepPopRows(l: Ledger, key: DayModel, b: Bucket, ctx: Context)
    requires l.popRows == Emitted(l.advances, ctx)
    ensures Step(l, key, b, ctx).popRows == Emitted(Step(l, key, b, ctx).advances, ctx)
  {
    if |NewExperiments(b.experiments, l.ids)| > 0 {
      var a := StepAdvance(l, key, b, ctx);
      EmittedSnoc(l.advances, a, ctx);
    }
  }


  /** The queued popularity rows are exactly those of the advances whose day is not persisted. */
  lemma {:induction false} RunPopRows(g: ModelsData, ctx: Context, n: nat)
    requires WellFormed(g) && n <= |g.order|
    ensures Run(g, ctx, n).popRows == Emitted(Run(g, ctx, n).advances, ctx)
  {
    if n > 0 {
      RunPopRows(g, ctx, n - 1);
      StepPopRows(Run(g, ctx, n - 1), g.order[n - 1], g.data[g.order[n - 1]], ctx);
    }
  }

  /** Advances are made in key order, at most one per bucket, so their keys are distinct. */
  ghost predicate AdvanceKeysFrom(advs: seq<Advance>, keys: seq<DayModel>) {
    && (forall a :: a in advs ==> a.key in keys)
    && (forall i, j :: 0 <= i < j < |advs| ==> advs[i].key != advs[j].key)
  }

  lemma AdvanceKeysSnoc(advs: seq<Advance>, keys: seq<DayModel>, a: Advance)
    requires AdvanceKeysFrom(advs, keys) && a.key !in keys
    ensures AdvanceKeysFrom(advs + [a], keys + [a.key])
  {
    forall x | x in advs + [a] ensures x == a || x in advs {
    }
  }

  lemma AdvanceKeysWiden(advs: seq<Advance>, keys: seq<DayModel>, k: DayModel)
    requires AdvanceKeysFrom(advs, keys)
    ensures AdvanceKeysFrom(advs, keys + [k])
  {
  }

  lemma StepAdvanceKeys(l: Ledger, key: DayModel, b: Bucket, ctx: Context, keys: seq<DayModel>)
    requires AdvanceKeysFrom(l.advances, keys) && key !in keys
    ensures AdvanceKeysFrom(Step(l, key, b, ctx).advances, keys + [key])
  {
    if |NewExperiments(b.experiments, l.ids)| > 0 {
      var a := StepAdvance(l, key, b, ctx);
      AdvanceKeysSnoc(l.advances, keys, a);
    } else {
      AdvanceKeysWiden(l.advances, keys, key);
    }
  }


  lemma {:induction false} RunAdvanceKeys(g: ModelsData, ctx: Context, n: nat)
    requires WellFormed(g) && n <= |g.order| && Distinct(g.order)
    ensures AdvanceKeysFrom(Run(g, ctx, n).advances, g.order[..n])
  {
    if n > 0 {
      RunAdvanceKeys(g, ctx, n - 1);
      var k := g.order[n - 1];
      assert g.order[..n] == g.order[..n - 1] + [k];
      assert k !in g.order[..n - 1];
      StepAdvanceKeys(Run(g, ctx, n - 1), k, g.data[k], ctx, g.order[..n - 1]);
    }
  }

  lemma {:induction false} EmittedUniqueKeys(advs: seq<Advance>, ctx: Context)
    requires forall i, j :: 0 <= i < j < |advs| ==> advs[i].key != advs[j].key
    ensures UniqueKeys(Emitted(advs, ctx))
    ensures forall x :: x in Emitted(advs, ctx) ==> exists i :: 0 <= i < |advs| && advs[i].key == KeyOf(x)
  {
    if advs != [] {
      var init := advs[..|advs| - 1];
      EmittedUniqueKeys(init, ctx);
      var a := advs[|advs| - 1];
      forall x | x in Emitted(init, ctx) ensures KeyOf(x) != a.key {
        var i :| 0 <= i < |init| && init[i].key == KeyOf(x);
        assert advs[i].key == KeyOf(x);
      }
      forall x | x in Emitted(advs, ctx) ensures exists i :: 0 <= i < |advs| && advs[i].key == KeyOf(x) {
        if x in Emitted(init, ctx) {
          var i :| 0 <= i < |init| && init[i].key == KeyOf(x);
          assert advs[i].key == KeyOf(x);
        } else {
          assert advs[|advs| - 1].key == KeyOf(x);
        }
      }
    }
  }

  // ---------------------------------------------------------------------------------------------
  // The commit: insert-or-ignore of rows whose keys are all new stores them all, in order

  lemma KeysOfAppend(a: seq<PopularityRow>, b: seq<PopularityRow>)
    ensures KeysOf(a + b) == KeysOf(a) + KeysOf(b)
  {
    forall r | r in a + b ensures r in a || r in b {
    }
  }

  lemma AllNewTail(table: seq<PopularityRow>, batch: seq<PopularityRow>)
    requires batch != [] && UniqueKeys(batch)
    requires forall i :: 0 <= i < |batch| ==> KeyOf(batch[i]) !in KeysOf(table)
    ensures UniqueKeys(batch[1..])
    ensures forall i :: 0 <= i < |batch[1..]| ==> KeyOf(batch[1..][i]) !in KeysOf(table + [batch[0]])
  {
    KeysOfAppend(table, [batch[0]]);
    assert KeysOf([batch[0]]) == {KeyOf(batch[0])};
    forall i | 0 <= i < |batch[1..]| ensures KeyOf(batch[1..][i]) !in KeysOf(table + [batch[0]]) {
      assert batch[1..][i] == batch[i + 1];
    }
    forall i, j | 0 <= i < j < |batch[1..]| ensures KeyOf(batch[1..][i]) != KeyOf(batch[1..][j]) {
      assert batch[1..][i] == batch[i + 1] && batch[1..][j] == batch[j + 1];
    }
  }

  lemma InsertNewHead(table: seq<PopularityRow>, batch: seq<PopularityRow>)
    requires batch != [] && KeyOf(batch[0]) !in KeysOf(table)
    ensures InsertIgnorePopularity(table, batch) == InsertIgnorePopularity(table + [batch[0]], batch[1..])
  {
  }

  lemma AppendHeadTail<T>(a: seq<T>, b: seq<T>)
    requires b != []
    ensures a + [b[0]] + b[1..] == a + b
  {
    assert b == [b[0]] + b[1..];
  }

  lemma {:induction false} InsertAllNew(table: seq<PopularityRow>, batch: seq<PopularityRow>)
    requires UniqueKeys(batch)
    requires forall i :: 0 <= i < |batch| ==> KeyOf(batch[i]) !in KeysOf(table)
    ensures InsertIgnorePopularity(table, batch) == table + batch
    decreases |batch|
  {
    if batch != [] {
      var next, rest := table + [batch[0]], batch[1..];
      InsertNewHead(table, batch);
      AllNewTail(table, batch);
      InsertAllNew(next, rest);
      AppendHeadTail(table, batch);
    }
  }

  /** Insert-or-ignore works row by row, so splitting a batch in two changes nothing. */
  lemma {:induction false} InsertIgnoreAppend(table: seq<PopularityRow>, a: seq<PopularityRow>, b: seq<PopularityRow>)
    ensures InsertIgnorePopularity(InsertIgnorePopularity(table, a), b) == InsertIgnorePopularity(table, a + b)
    decreases |a|
  {
    if a != [] {
      assert (a + b)[0] == a[0] && (a + b)[1..] == a[1..] + b;
      var next := if KeyOf(a[0]) in KeysOf(table) then table else table + [a[0]];
      InsertIgnoreAppend(next, a[1..], b);
    } else {
      assert a + b == b;
    }
  }

  /** Issuing the batches one after the other inserts the same as one statement over all their rows. */
  lemma {:induction false} ApplyIsInsertFlatten(table: seq<PopularityRow>, batches: seq<seq<PopularityRow>>)
    ensures ApplyPopularityBatches(table, batches) == InsertIgnorePopularity(table, Flatten(batches))
  {
    if batches != [] {
      var init := batches[..|batches| - 1];
      ApplyIsInsertFlatten(table, init);
      InsertIgnoreAppend(table, Flatten(init), batches[|batches| - 1]);
    }
  }

  /** The commit appends exactly the emitted popularity rows: every persisted row stays as it was,
      no emitted row is ignored, and nothing else is written. */
  lemma CommitAppendsEmittedRows(g: ModelsData, store: Store, now: Timestamp)
    requires WellFormed(g) && Distinct(g.order)
    ensures ApplyPlan(store, PlanOf(g, ContextOf(store, now))).popularity ==
              store.popularity + Emitted(Run(g, ContextOf(store, now), |g.order|).advances, ContextOf(store, now))
  {
    var ctx := ContextOf(store, now);
    var l := Run(g, ctx, |g.order|);
    RunPopRows(g, ctx, |g.order|);
    RunAdvanceKeys(g, ctx, |g.order|);
    EmittedUniqueKeys(l.advances, ctx);
    FlattenChunks(l.popRows, BatchSize);
    ApplyIsInsertFlatten(store.popularity, Chunks(l.popRows, BatchSize));
    forall i | 0 <= i < |l.popRows| ensures KeyOf(l.popRows[i]) !in KeysOf(store.popularity) {
      assert l.popRows[i] in l.popRows;
    }
    InsertAllNew(store.popularity, l.popRows);
  }

  /** Persisted experiment rows are never changed, exactly the ids the cycle knows about end up stored,
      and every appended row is the row of an experiment of some bucket: its id, name and creation
      time, and the bucket's model. */
  lemma CommitKeepsExperiments(g: ModelsData, store: Store, now: Timestamp)
    requires WellFormed(g)
    ensures store.experiments <= ApplyPlan(store, PlanOf(g, ContextOf(store, now))).experiments
    ensures IdsOf(ApplyPlan(store, PlanOf(g, ContextOf(store, now))).experiments) ==
              IdsOf(store.experiments) + BucketIds(g, |g.order|)
    ensures var after := ApplyPlan(store, PlanOf(g, ContextOf(store, now))).experiments;
            forall i :: |store.experiments| <= i < |after| ==> RowOfBuckets(g, |g.order|, after[i])
  {
    var ctx := ContextOf(store, now);
    var batches := Run(g, ctx, |g.order|).expBatches;
    RunIds(g, ctx, |g.order|);
    ApplyExperimentIds(store.experiments, batches);
    ApplyExperimentsPrefix(store.experiments, batches);
    ApplyExperimentsFrom(store.experiments, batches);
    RunRowsFromBuckets(g, ctx, |g.order|);
  }

  /** `row` is the row the cycle inserts for an experiment of one of the first `n` buckets: the
      experiment's id, name and creation time, and the bucket's model. */
  ghost predicate RowOfBuckets(g: ModelsData, n: nat, row: ExperimentRow)
    requires WellFormed(g) && n <= |g.order|
  {
    exists j, e :: 0 <= j < n && e in g.data[g.order[j]].experiments &&
      row == ExperimentRow(e.id, e.name, g.order[j].model, e.createdTime)
  }

  /** Every row the first `n` buckets queue is the row of one of their experiments. */
  lemma {:induction false} RunRowsFromBuckets(g: ModelsData, ctx: Context, n: nat)
    requires WellFormed(g) && n <= |g.order|
    ensures forall row :: row in Flatten(Run(g, ctx, n).expBatches) ==> RowOfBuckets(g, n, row)
  {
    if n > 0 {
      RunRowsFromBuckets(g, ctx, n - 1);
      var l := Run(g, ctx, n - 1);
      var key := g.order[n - 1];
      StepRows(l, key, g.data[key], ctx);
      forall row | row in Flatten(Run(g, ctx, n).expBatches) ensures RowOfBuckets(g, n, row) {
        if row in Flatten(l.expBatches) {
          assert RowOfBuckets(g, n - 1, row);
          var j, e :| 0 <= j < n - 1 && e in g.data[g.order[j]].experiments &&
                      row == ExperimentRow(e.id, e.name, g.order[j].model, e.createdTime);
        } else {
          assert RowOfRefs(g.data[key].experiments, key.model, row);
          var e :| e in g.data[key].experiments && row == ExperimentRow(e.id, e.name, key.model, e.createdTime);
          assert g.order[n - 1] == key;
        }
      }
    }
  }

  /** `row` is the row of one of `exps` under `model`. */
  ghost predicate RowOfRefs(exps: seq<ExpRef>, model: string, row: ExperimentRow) {
    exists e :: e in exps && row == ExperimentRow(e.id, e.name, model, e.createdTime)
  }

  /** One bucket queues only rows of its own experiments, under its key's model. */
  lemma StepRows(l: Ledger, key: DayModel, b: Bucket, ctx: Context)
    ensures forall row :: row in Flatten(Step(l, key, b, ctx).expBatches) ==>
              row in Flatten(l.expBatches) || RowOfRefs(b.experiments, key.model, row)
  {
    var newExps := NewExperiments(b.experiments, l.ids);
    if |newExps| > 0 {
      var rows := InsertRows(newExps, key.model);
      assert Step(l, key, b, ctx).expBatches == l.expBatches + Chunks(rows, BatchSize);
      FlattenAppend(l.expBatches, Chunks(rows, BatchSize));
      FlattenChunks(rows, BatchSize);
      InsertRowsFrom(newExps, b.experiments, key.model);
    } else {
      assert Step(l, key, b, ctx) == l;
    }
  }

  lemma InsertRowsFrom(newExps: seq<ExpRef>, exps: seq<ExpRef>, model: string)
    requires forall e :: e in newExps ==> e in exps
    ensures forall row :: row in InsertRows(newExps, model) ==> RowOfRefs(exps, model, row)
  {
    var rows := InsertRows(newExps, model);
    forall row | row in rows ensures RowOfRefs(exps, model, row) {
      var i :| 0 <= i < |rows| && rows[i] == row;
      assert newExps[i] in newExps;
    }
  }

  /** Issuing batches appends only rows of the batches. */
  lemma {:induction false} ApplyExperimentsFrom(table: seq<ExperimentRow>, batches: seq<seq<ExperimentRow>>)
    ensures var after := ApplyExperimentBatches(table, batches);
            forall i :: |table| <= i < |after| ==> after[i] in Flatten(batches)
  {
    if batches != [] {
      var init, last := batches[..|batches| - 1], batches[|batches| - 1];
      ApplyExperimentsFrom(table, init);
      ApplyExperimentsPrefix(table, init);
      var mid := ApplyExperimentBatches(table, init);
      var after := InsertIgnoreExperiments(mid, last);
      assert batches == init + [last];
      FlattenSnoc(init, last);
      forall i | |table| <= i < |after| ensures after[i] in Flatten(batches) {
        if i < |mid| {
          assert after[i] == mid[i];
        }
      }
    }
  }

  lemma {:induction false} ApplyExperimentsPrefix(table: seq<ExperimentRow>, batches: seq<seq<ExperimentRow>>)
    ensures table <= ApplyExperimentBatches(table, batches)
  {
    if batches != [] {
      ApplyExperimentsPrefix(table, batches[..|batches| - 1]);
    }
  }

  // ---------------------------------------------------------------------------------------------
  // Batches

  lemma {:induction false} ConcatBatchSizes<T>(a: seq<seq<T>>, b: seq<seq<T>>, size: nat)
    requires forall i :: 0 <= i < |a| ==> 0 < |a[i]| <= size
    requires forall i :: 0 <= i < |b| ==> 0 < |b[i]| <= size
    ensures forall i :: 0 <= i < |a + b| ==> 0 < |(a + b)[i]| <= size
  {
  }

  /** Every insert statement of a cycle holds between 1 and 100 rows. */
  lemma {:induction false} RunBatchSizes(g: ModelsData, ctx: Context, n: nat)
    requires WellFormed(g) && n <= |g.order|
    ensures forall i :: 0 <= i < |Run(g, ctx, n).expBatches| ==> 0 < |Run(g, ctx, n).expBatches[i]| <= BatchSize
  {
    if n > 0 {
      RunBatchSizes(g, ctx, n - 1);
      StepBatchSizes(Run(g, ctx, n - 1), g.order[n - 1], g.data[g.order[n - 1]], ctx);
    }
  }

  lemma StepBatchSizes(l: Ledger, key: DayModel, b: Bucket, ctx: Context)
    requires forall i :: 0 <= i < |l.expBatches| ==> 0 < |l.expBatches[i]| <= BatchSize
    ensures forall i :: 0 <= i < |Step(l, key, b, ctx).expBatches| ==> 0 < |Step(l, key, b, ctx).expBatches[i]| <= BatchSize
  {
    var newExps := NewExperiments(b.experiments, l.ids);
    if |newExps| > 0 {
      var chunks := Chunks(InsertRows(newExps, key.model), BatchSize);
      assert Step(l, key, b, ctx).expBatches == l.expBatches + chunks;
    }
  }

  lemma PlanBatchSizes(g: ModelsData, ctx: Context)
    requires WellFormed(g)
    ensures forall i :: 0 <= i < |PlanOf(g, ctx).expBatches| ==> 0 < |PlanOf(g, ctx).expBatches[i]| <= BatchSize
    ensures forall i :: 0 <= i < |PlanOf(g, ctx).popBatches| ==> 0 < |PlanOf(g, ctx).popBatches[i]| <= BatchSize
  {
    RunBatchSizes(g, ctx, |g.order|);
  }

  // ---------------------------------------------------------------------------------------------
  // Two consequences of the baseline rule, on concrete states

  /** A withheld popularity row loses its advance: a new experiment on a day whose row for its model
      is already persisted is inserted and advances the running total in memory, but no row records
      that total, so the table, and with it the model's baseline for the next cycle, stays as it was. */
  lemma WithheldAdvanceIsLost(store: Store, now: Timestamp, day: DayModel, e: ExpRef)
    requires day in KeysOf(store.popularity)
    requires e.id !in IdsOf(store.experiments)
    ensures var g := ModelsData([day], map[day := Bucket(day.model, day.day, 1, [e])]);
            var ctx := ContextOf(store, now);
            var after := ApplyPlan(store, PlanOf(g, ctx));
            && Run(g, ctx, 1).advances == [Advance(day, 1, Baseline(store.popularity, day.model) + 1)]
            && after.experiments == store.experiments + [ExperimentRow(e.id, e.name, day.model, e.createdTime)]
            && after.popularity == store.popularity
            && Baseline(after.popularity, day.model) == Baseline(store.popularity, day.model)
  {
    var g := ModelsData([day], map[day := Bucket(day.model, day.day, 1, [e])]);
    var ctx := ContextOf(store, now);
    var row := ExperimentRow(e.id, e.name, day.model, e.createdTime);
    assert ctx.existingIds == {} && day in ctx.existingPop && ctx.persisted == store.popularity by {
      PersistedIdsNeverMatch(store, now);
    }
    WithheldCommit(g, ctx, store, day, e);
  }

  lemma WithheldCommit(g: ModelsData, ctx: Context, store: Store, day: DayModel, e: ExpRef)
    requires g == ModelsData([day], map[day := Bucket(day.model, day.day, 1, [e])])
    requires ctx.existingIds == {} && day in ctx.existingPop && ctx.persisted == store.popularity
    requires e.id !in IdsOf(store.experiments)
    ensures WellFormed(g)
    ensures Run(g, ctx, 1).advances == [Advance(day, 1, Baseline(store.popularity, day.model) + 1)]
    ensures ApplyPlan(store, PlanOf(g, ctx)) ==
              Store(store.experiments + [ExperimentRow(e.id, e.name, day.model, e.createdTime)], store.popularity)
  {
    WithheldPlan(g, ctx, store.popularity, day, e);
    ApplyOneNewRow(store, PlanOf(g, ctx), ExperimentRow(e.id, e.name, day.model, e.createdTime));
  }

  /** The plan of the withheld example: one experiment insert and no popularity row. */
  lemma WithheldPlan(g: ModelsData, ctx: Context, persisted: seq<PopularityRow>, day: DayModel, e: ExpRef)
    requires g == ModelsData([day], map[day := Bucket(day.model, day.day, 1, [e])])
    requires ctx.existingIds == {} && day in ctx.existingPop && ctx.persisted == persisted
    ensures WellFormed(g)
    ensures Run(g, ctx, 1).advances == [Advance(day, 1, Baseline(persisted, day.model) + 1)]
    ensures PlanOf(g, ctx) == Plan([[ExperimentRow(e.id, e.name, day.model, e.createdTime)]], [])
  {
    var row := ExperimentRow(e.id, e.name, day.model, e.createdTime);
    var total := StepFresh(Init(ctx), day, g.data[day], ctx);
    assert InsertRows([e], day.model) == [row];
    assert Chunks([row], BatchSize) == [[row]];
    assert Run(g, ctx, 0) == Init(ctx);
    assert Run(g, ctx, 1) == NewLedger(Init(ctx), day, [e], total, ctx);
  }

  /** Committing a single insert of a row whose id is not stored appends it and leaves the popularity table. */
  lemma ApplyOneNewRow(store: Store, plan: Plan, row: ExperimentRow)
    requires plan == Plan([[row]], []) && row.id !in IdsOf(store.experiments)
    ensures ApplyPlan(store, plan) == Store(store.experiments + [row], store.popularity)
  {
    var t := store.experiments;
    assert [[row]][..0] == [];
    assert ApplyExperimentBatches(t, []) == t;
    assert [row][1..] == [];
    assert InsertIgnoreExperiments(t + [row], []) == t + [row];
    assert InsertIgnoreExperiments(t, [row]) == t + [row];
    assert ApplyExperimentBatches(t, [[row]]) == t + [row];
    assert ApplyPopularityBatches(store.popularity, []) == store.popularity;
  }

  /** The baseline depends on row order when `extracted_time` ties, which every row written by one
      worker instance does (its `current_time` is fixed at construction). */
  lemma BaselineDependsOnRowOrder()
    ensures var a := PopularityRow(0, "m", 1, 1, 5);
            var b := PopularityRow(MicrosPerDay, "m", 1, 2, 5);
            Baseline([a, b], "m") == 1 && Baseline([b, a], "m") == 2
  {
    var a := PopularityRow(0, "m", 1, 1, 5);
    var b := PopularityRow(MicrosPerDay, "m", 1, 2, 5);
    assert [a, b][1..] == [b] && [b, a][1..] == [a];
    assert [b][1..] == [] && [a][1..] == [];
  }
}
