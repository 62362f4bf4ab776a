/**
  Properties of `AutosubmitSyncService` across the update session: what is added per model,
  which experiments are added, and, by contrast with the worker, that its popularity counts are
  totals, so that syncing an unchanged extraction twice counts every experiment twice.
 */
module SyncServiceProofs {
  import opened Wrappers
  import opened Grouping
  import opened TimescaleTables
  import opened SyncService
  import MaterializedViews
  import SyncWorker

  /** The grouping a sync of `rows` works on. */
  function GroupOfRows(rows: seq<SyncWorker.DetailRow>): ServiceData {
    ByModel(ModelPairs(Extracted(rows)))
  }

  /** A model with no recorded experiment was never extracted. */
  lemma AbsentModelCountsZero(exps: seq<SyncWorker.DetailRow>, m: string)
    requires m !in ByModel(ModelPairs(exps)).data
    ensures ModelCount(exps, m) == 0
  {
    MembersNonEmpty(ModelPairs(exps), m);
    MembersCountModel(exps, m);
  }

  /** One popularity row per extracted model, at the sync time, carrying the model's full extracted
      count and the default `total_count` 0. */
  lemma OneRowPerModel(exps: seq<SyncWorker.DetailRow>, now: Timestamp)
    ensures var g := ByModel(ModelPairs(exps));
            var pops := PopAdds(g, g.order, now);
            |pops| == |g.order| &&
            forall i :: 0 <= i < |pops| ==>
              pops[i].time == now && pops[i].extractedTime == now && pops[i].totalCount == 0 &&
              pops[i].count == ModelCount(exps, pops[i].model) > 0
  {
    var g := ByModel(ModelPairs(exps));
    var pops := PopAdds(g, g.order, now);
    forall i | 0 <= i < |pops|
      ensures pops[i].time == now && pops[i].extractedTime == now && pops[i].totalCount == 0
      ensures pops[i].count == ModelCount(exps, pops[i].model) > 0
    {
      PopRowAt(exps, g, pops, now, i);
    }
  }

  lemma PopRowAt(exps: seq<SyncWorker.DetailRow>, g: ServiceData, pops: seq<PopularityRow>, now: Timestamp, i: int)
    requires g == ByModel(ModelPairs(exps))
    requires forall k :: k in g.order ==> k in g.data
    requires pops == PopAdds(g, g.order, now) && 0 <= i < |pops|
    ensures pops[i] == PopularityRow(now, g.order[i], ModelCount(exps, g.order[i]), 0, now)
    ensures ModelCount(exps, g.order[i]) > 0
  {
    EntryCount(exps, g.order[i]);
  }

  lemma EntryCount(exps: seq<SyncWorker.DetailRow>, m: string)
    requires m in ByModel(ModelPairs(exps)).data
    ensures ByModel(ModelPairs(exps)).data[m].count == ModelCount(exps, m) > 0
  {
    MembersNonEmpty(ModelPairs(exps), m);
    MembersCountModel(exps, m);
  }

  /** No two added popularity rows share a `(time, model)` key. */
  lemma PopAddsUniqueKeys(g: ServiceData, now: Timestamp)
    requires WellFormed(g) && Distinct(g.order)
    ensures UniqueKeys(PopAdds(g, g.order, now))
  {
  }

  /** Every extracted model gets its row. */
  lemma EveryModelHasRow(exps: seq<SyncWorker.DetailRow>, now: Timestamp, e: SyncWorker.DetailRow)
    requires e in exps
    ensures var g := ByModel(ModelPairs(exps));
            exists i :: 0 <= i < |g.order| && PopAdds(g, g.order, now)[i].model == e.model
  {
    var g := ByModel(ModelPairs(exps));
    var k :| 0 <= k < |exps| && exps[k] == e;
    assert ModelPairs(exps)[k].0 == e.model;
    var i :| 0 <= i < |g.order| && g.order[i] == e.model;
    assert PopAdds(g, g.order, now)[i].model == e.model;
  }

  /** The rows of model `m` among the added popularity rows sum to `m`'s count. */
  lemma {:induction false} SumCountPopAdds(g: ServiceData, keys: seq<string>, now: Timestamp, m: string)
    requires forall k :: k in keys ==> k in g.data
    requires Distinct(keys)
    ensures MaterializedViews.SumCount(PopAdds(g, keys, now), m) == if m in keys then g.data[m].count else 0
  {
    if keys != [] {
      var init := keys[..|keys| - 1];
      assert Distinct(init);
      SumCountPopAdds(g, init, now, m);
      assert PopAdds(g, keys, now)[..|keys| - 1] == PopAdds(g, init, now);
      assert m in keys <==> m in init || m == keys[|keys| - 1];
      assert !(m in init && m == keys[|keys| - 1]);
    }
  }

  lemma {:induction false} SumCountNoRows(rows: seq<PopularityRow>, m: string)
    requires m !in MaterializedViews.Models(rows)
    ensures MaterializedViews.SumCount(rows, m) == 0
  {
    if rows != [] {
      assert rows[|rows| - 1] in rows;
      assert MaterializedViews.Models(rows[..|rows| - 1]) <= MaterializedViews.Models(rows);
      SumCountNoRows(rows[..|rows| - 1], m);
    }
  }

  /** The service's rows sum, for each model, to its number of extracted experiments. */
  lemma PopAddsCountModel(rows: seq<SyncWorker.DetailRow>, now: Timestamp, m: string)
    ensures MaterializedViews.SumCount(PopAdds(GroupOfRows(rows), GroupOfRows(rows).order, now), m) ==
              ModelCount(Extracted(rows), m)
  {
    var g := GroupOfRows(rows);
    SumCountPopAdds(g, g.order, now, m);
    CountsConserve(Extracted(rows));
    if m !in g.order {
      AbsentModelCountsZero(Extracted(rows), m);
    }
  }

  /** Every recorded experiment's id is persisted once the added experiments are. */
  lemma RecordedIdsCovered(g: ServiceData, ids: set<int>, k: string, e: ExpRef)
    requires WellFormed(g) && k in g.order && e in g.data[k].experiments
    ensures e.id in ids + set x | x in ExpAdds(g, g.order, ids) :: x.id
  {
    if e.id !in ids {
      ExpAddsMembership(g, g.order, ids, ExpRecord(e.id, e.name, k, e.createdTime));
    }
  }

  /** After a committed sync, syncing the same grouping again adds no experiment. */
  lemma ReplayAddsNoExperiments(g: ServiceData, store: Store, t1: Timestamp)
    requires WellFormed(g) && Synced(g, store, t1).Some?
    ensures ExpAdds(g, g.order, IdsOf(Synced(g, store, t1).value.experiments)) == []
  {
    var ids0 := IdsOf(store.experiments);
    var ids1 := IdsOf(Synced(g, store, t1).value.experiments);
    var adds := ExpAdds(g, g.order, ids1);
    if adds != [] {
      var x := adds[0];
      ExpAddsMembership(g, g.order, ids1, x);
      RecordedIdsCovered(g, ids0, x.model, ExpRef(x.id, x.name, x.createdTime));
      assert false;
    }
  }

  lemma UniqueKeysAppend(a: seq<PopularityRow>, b: seq<PopularityRow>)
    requires UniqueKeys(a) && UniqueKeys(b)
    requires forall x, y :: x in a && y in b ==> KeyOf(x) != KeyOf(y)
    ensures UniqueKeys(a + b)
  {
    forall i, j | 0 <= i < j < |a + b| ensures KeyOf((a + b)[i]) != KeyOf((a + b)[j]) {
      if i < |a| && j >= |a| {
        assert (a + b)[i] in a && (a + b)[j] in b;
      }
    }
  }

  lemma UniqueIdsNoNew(a: seq<ExperimentRow>)
    requires UniqueIds(a)
    ensures UniqueIds(a + ToRows([]))
  {
    assert a + ToRows([]) == a;
  }

  /** A sync of the same grouping at a later time, when no persisted row is at that time, commits and
      adds only its popularity rows. */
  lemma ReplayCommits(g: ServiceData, store: Store, t1: Timestamp, t2: Timestamp)
    requires WellFormed(g) && Distinct(g.order) && Synced(g, store, t1).Some?
    requires t1 != t2 && forall r :: r in store.popularity ==> r.time != t2
    ensures Synced(g, Synced(g, store, t1).value, t2).Some?
    ensures Synced(g, Synced(g, store, t1).value, t2).value ==
              Store(Synced(g, store, t1).value.experiments,
                    Synced(g, store, t1).value.popularity + PopAdds(g, g.order, t2))
  {
    var s1 := Synced(g, store, t1).value;
    var pops1 := PopAdds(g, g.order, t1);
    var pops2 := PopAdds(g, g.order, t2);
    var exps1 := ExpAdds(g, g.order, IdsOf(store.experiments));
    ReplayAddsNoExperiments(g, store, t1);
    assert Accepts(store, pops1, exps1);
    assert s1.experiments == store.experiments + ToRows(exps1);
    UniqueIdsNoNew(s1.experiments);
    assert UniqueKeys(pops2);
    forall x, y | x in s1.popularity && y in pops2 ensures KeyOf(x) != KeyOf(y) {
      assert y.time == t2;
    }
    UniqueKeysAppend(s1.popularity, pops2);
    assert Accepts(s1, pops2, []);
    assert s1.experiments + ToRows([]) == s1.experiments;
  }

  /** The contrast with the worker: the service writes totals, not increments. Syncing an unchanged
      extraction twice commits twice, and the popularity table then counts every experiment of a
      model that had no rows before twice over (the view's `SUM(count)` doubles), where the worker's
      replay writes nothing. */
  lemma RepeatedSyncCountsTwice(rows: seq<SyncWorker.DetailRow>, store: Store, t1: Timestamp, t2: Timestamp, m: string)
    requires !SyncResult(rows, store, t1).raised
    requires t1 != t2 && forall r :: r in store.popularity ==> r.time != t2
    requires m !in MaterializedViews.Models(store.popularity)
    ensures !SyncResult(rows, SyncResult(rows, store, t1).store, t2).raised
    ensures MaterializedViews.SumCount(SyncResult(rows, SyncResult(rows, store, t1).store, t2).store.popularity, m) ==
              2 * ModelCount(Extracted(rows), m)
  {
    var exps := Extracted(rows);
    SumCountNoRows(store.popularity, m);
    if exps == [] {
      assert ModelCount(exps, m) == 0;
    } else {
      var g := GroupOfRows(rows);
      ByModelWellFormed(ModelPairs(exps));
      assert Distinct(g.order);
      var s1 := Synced(g, store, t1).value;
      ReplayCommits(g, store, t1, t2);
      var pops1 := PopAdds(g, g.order, t1);
      var pops2 := PopAdds(g, g.order, t2);
      assert s1.popularity == store.popularity + pops1;
      PopAddsCountModel(rows, t1, m);
      PopAddsCountModel(rows, t2, m);
      MaterializedViews.SumCountAppend(store.popularity, pops1, m);
      MaterializedViews.SumCountAppend(s1.popularity, pops2, m);
    }
  }
}
