/**
  `MemoryCache` (src/cache/memory_cache.py): a time-to-live dictionary with per-key hit and miss
  counters. The clock is the `now` argument of each operation (whole seconds); each operation's
  effect is a function of the cache's state, and the class's methods are proved to have exactly
  that effect.
 */
module Cache {
  import opened Wrappers

  /** `(value, expiry)`. */
  datatype Entry<V> = Entry(value: V, expiry: int)

  /** `{"hits", "misses"}` of one key. */
  datatype KeyStat = KeyStat(hits: nat, misses: nat)

  /** The three dictionaries of a cache: `_cache`, and `_stats` as its keys in insertion order plus
      their counters. */
  datatype State<V> = State(entries: map<string, Entry<V>>, statKeys: seq<string>, stats: map<string, KeyStat>)

  ghost predicate Distinct(s: seq<string>) {
    forall i, j :: 0 <= i < j < |s| ==> s[i] != s[j]
  }

  /** `_stats` lists each of its keys exactly once. */
  ghost predicate WellFormed<V>(s: State<V>) {
    Distinct(s.statKeys) && forall k :: k in s.statKeys <==> k in s.stats
  }

  /** The counters of `key`, zero when it has none yet. */
  function StatOf<V>(s: State<V>, key: string): KeyStat {
    if key in s.stats then s.stats[key] else KeyStat(0, 0)
  }

  /** `_stats` after counting one request for `key`, a hit or a miss. */
  function Counted<V>(s: State<V>, key: string, hit: bool): (r: State<V>)
    ensures r.entries == s.entries
  {
    var st := StatOf(s, key);
    State(s.entries,
          if key in s.stats then s.statKeys else s.statKeys + [key],
          s.stats[key := if hit then KeyStat(st.hits + 1, st.misses) else KeyStat(st.hits, st.misses + 1)])
  }

  /** `get(key)` at time `now`: a miss when the key is absent; a miss that also drops the entry when
      it expired strictly before `now`; otherwise a hit returning the stored value. */
  function GetOp<V>(s: State<V>, key: string, now: int): (State<V>, Option<V>) {
    if key !in s.entries then (Counted(s, key, false), None)
    else if s.entries[key].expiry < now then (Counted(s, key, false).(entries := s.entries - {key}), None)
    else (Counted(s, key, true), Some(s.entries[key].value))
  }

  /** `set(key, value, ttl)` at time `now`: stores the value until `now + ttl`, or `now + default_ttl`
      when no ttl is given, replacing any previous entry; statistics are untouched. */
  function SetOp<V>(s: State<V>, key: string, value: V, ttl: Option<int>, defaultTtl: int, now: int): State<V> {
    s.(entries := s.entries[key := Entry(value, now + (if ttl.Some? then ttl.value else defaultTtl))])
  }

  /** `delete(key)`: removes the entry; returns False when there was one, True when there was none. */
  function DeleteOp<V>(s: State<V>, key: string): (State<V>, bool) {
    (s.(entries := s.entries - {key}), key !in s.entries)
  }

  /** `clear()`: drops every entry and keeps the statistics. */
  function ClearOp<V>(s: State<V>): State<V> {
    s.(entries := map[])
  }

  /** The keys whose entry expired strictly before `now`. */
  function Expired<V>(entries: map<string, Entry<V>>, now: int): set<string> {
    set k | k in entries && entries[k].expiry < now
  }

  /** The entries still live at `now`. */
  function Live<V>(entries: map<string, Entry<V>>, now: int): map<string, Entry<V>> {
    map k | k in entries && entries[k].expiry >= now :: entries[k]
  }

  /** `clean_expired()` at time `now`: the live entries stay, and the number removed is returned. */
  function CleanExpiredOp<V>(s: State<V>, now: int): (State<V>, nat) {
    (s.(entries := Live(s.entries, now)), |Expired(s.entries, now)|)
  }

  /** The integer part of one key's report: `{"hits", "misses", "total_requests"}`. */
  datatype KeyReport = KeyReport(hits: nat, misses: nat, totalRequests: nat)

  /** The integer part of `get_stats()`. */
  datatype Report = Report(totalEntries: nat, expiredEntries: nat, activeEntries: int,
                           totalHits: nat, totalMisses: nat, keys: map<string, KeyReport>)

  function SumHits(keys: seq<string>, stats: map<string, KeyStat>): nat
    requires forall k :: k in keys ==> k in stats
  {
    if keys == [] then 0 else SumHits(keys[..|keys| - 1], stats) + stats[keys[|keys| - 1]].hits
  }

  function SumMisses(keys: seq<string>, stats: map<string, KeyStat>): nat
    requires forall k :: k in keys ==> k in stats
  {
    if keys == [] then 0 else SumMisses(keys[..|keys| - 1], stats) + stats[keys[|keys| - 1]].misses
  }

  /** `get_stats()` at time `now`. */
  function StatsOp<V>(s: State<V>, now: int): Report
    requires WellFormed(s)
  {
    Report(|s.entries|, |Expired(s.entries, now)|, |s.entries| - |Expired(s.entries, now)|,
           SumHits(s.statKeys, s.stats), SumMisses(s.statKeys, s.stats),
           map k | k in s.stats :: KeyReport(s.stats[k].hits, s.stats[k].misses, s.stats[k].hits + s.stats[k].misses))
  }

  // ---------------------------------------------------------------------------------------------
  // Properties of the operations

  /** Every `get` counts exactly one request, for its own key, and keeps `_stats` well formed. */
  lemma GetCountsOneRequest<V>(s: State<V>, key: string, now: int, k: string)
    requires WellFormed(s)
    ensures WellFormed(GetOp(s, key, now).0)
    ensures var t := StatOf(GetOp(s, key, now).0, k);
            t.hits + t.misses == StatOf(s, k).hits + StatOf(s, k).misses + (if k == key then 1 else 0)
    ensures GetOp(s, key, now).1.Some? <==> StatOf(GetOp(s, key, now).0, key).hits == StatOf(s, key).hits + 1
  {
    var hit := key in s.entries && s.entries[key].expiry >= now;
    var t := GetOp(s, key, now).0;
    assert t.statKeys == Counted(s, key, hit).statKeys && t.stats == Counted(s, key, hit).stats;
    CountedWellFormed(s, key, hit);
  }

  /** Appending a key adds its counters to the totals. */
  lemma SumSnoc(keys: seq<string>, stats: map<string, KeyStat>, key: string)
    requires forall k :: k in keys ==> k in stats
    requires key in stats
    ensures SumHits(keys + [key], stats) == SumHits(keys, stats) + stats[key].hits
    ensures SumMisses(keys + [key], stats) == SumMisses(keys, stats) + stats[key].misses
  {
    assert (keys + [key])[..|keys|] == keys;
  }

  /** Changing one listed key's counters changes the totals by the difference. */
  lemma {:induction false} SumUpdate(keys: seq<string>, stats: map<string, KeyStat>, key: string, st: KeyStat)
    requires forall k :: k in keys ==> k in stats
    requires Distinct(keys) && key in keys
    ensures SumHits(keys, stats[key := st]) == SumHits(keys, stats) - stats[key].hits + st.hits
    ensures SumMisses(keys, stats[key := st]) == SumMisses(keys, stats) - stats[key].misses + st.misses
  {
    var init := keys[..|keys| - 1];
    var last := keys[|keys| - 1];
    if last == key {
      assert key !in init by {
        assert forall i :: 0 <= i < |init| ==> init[i] == keys[i] != keys[|keys| - 1];
      }
      SumUnaffected(init, stats, key, st);
    } else {
      assert key in init;
      SumUpdate(init, stats, key, st);
    }
  }

  lemma {:induction false} SumUnaffected(keys: seq<string>, stats: map<string, KeyStat>, key: string, st: KeyStat)
    requires forall k :: k in keys ==> k in stats
    requires key !in keys
    ensures SumHits(keys, stats[key := st]) == SumHits(keys, stats)
    ensures SumMisses(keys, stats[key := st]) == SumMisses(keys, stats)
  {
    if keys != [] {
      SumUnaffected(keys[..|keys| - 1], stats, key, st);
    }
  }

  /** Counting one request adds it to the hit total or to the miss total. */
  lemma CountedTotals<V>(s: State<V>, key: string, hit: bool)
    requires WellFormed(s)
    ensures WellFormed(Counted(s, key, hit))
    ensures SumHits(Counted(s, key, hit).statKeys, Counted(s, key, hit).stats) == SumHits(s.statKeys, s.stats) + (if hit then 1 else 0)
    ensures SumMisses(Counted(s, key, hit).statKeys, Counted(s, key, hit).stats) == SumMisses(s.statKeys, s.stats) + (if hit then 0 else 1)
  {
    var st := StatOf(s, key);
    var next := if hit then KeyStat(st.hits + 1, st.misses) else KeyStat(st.hits, st.misses + 1);
    var t := Counted(s, key, hit);
    CountedWellFormed(s, key, hit);
    assert t.stats == s.stats[key := next];
    if key in s.stats {
      assert key in s.statKeys && t.statKeys == s.statKeys;
      SumUpdate(s.statKeys, s.stats, key, next);
    } else {
      assert key !in s.statKeys && t.statKeys == s.statKeys + [key];
      SumAdded(s.statKeys, s.stats, key, next);
    }
  }

  /** Counting a key for the first time appends it with its counters. */
  lemma SumAdded(keys: seq<string>, stats: map<string, KeyStat>, key: string, st: KeyStat)
    requires forall k :: k in keys ==> k in stats
    requires key !in keys
    ensures SumHits(keys + [key], stats[key := st]) == SumHits(keys, stats) + st.hits
    ensures SumMisses(keys + [key], stats[key := st]) == SumMisses(keys, stats) + st.misses
  {
    SumUnaffected(keys, stats, key, st);
    SumSnoc(keys, stats[key := st], key);
  }


  /** Counting a request lists a new key once, at the end. */
  lemma CountedWellFormed<V>(s: State<V>, key: string, hit: bool)
    requires WellFormed(s)
    ensures WellFormed(Counted(s, key, hit))
  {
    if key !in s.stats {
      assert forall i :: 0 <= i < |s.statKeys| ==> s.statKeys[i] != key;
    }
  }


  /** Across a `get`, the reported totals grow by one request: a hit when a value is returned, a miss
      otherwise. */
  lemma GetAddsToTotals<V>(s: State<V>, key: string, now: int, later: int)
    requires WellFormed(s)
    ensures WellFormed(GetOp(s, key, now).0)
    ensures var before := StatsOp(s, later);
            var after := StatsOp(GetOp(s, key, now).0, later);
            after.totalHits == before.totalHits + (if GetOp(s, key, now).1.Some? then 1 else 0) &&
            after.totalMisses == before.totalMisses + (if GetOp(s, key, now).1.None? then 1 else 0)
  {
    var hit := key in s.entries && s.entries[key].expiry >= now;
    var t := GetOp(s, key, now).0;
    assert t.statKeys == Counted(s, key, hit).statKeys && t.stats == Counted(s, key, hit).stats;
    CountedTotals(s, key, hit);
  }

  /** A value set with a ttl is returned by a `get` up to and including its expiry second, and not
      after; the ttl given replaces the default even when it is 0. */
  lemma SetThenGet<V>(s: State<V>, key: string, value: V, ttl: Option<int>, defaultTtl: int, now: int, later: int)
    ensures var expiry := now + (if ttl.Some? then ttl.value else defaultTtl);
            GetOp(SetOp(s, key, value, ttl, defaultTtl, now), key, later).1 == (if later <= expiry then Some(value) else None)
  {
  }

  /** `set` touches only its own key. */
  lemma SetFrame<V>(s: State<V>, key: string, value: V, ttl: Option<int>, defaultTtl: int, now: int, k: string)
    requires k != key
    ensures k in SetOp(s, key, value, ttl, defaultTtl, now).entries <==> k in s.entries
    ensures k in s.entries ==> SetOp(s, key, value, ttl, defaultTtl, now).entries[k] == s.entries[k]
    ensures SetOp(s, key, value, ttl, defaultTtl, now).stats == s.stats
  {
  }

  /** A deleted key is gone, every other entry stays, and the result is True exactly when nothing
      was there to delete (the opposite of what the method's documentation promises). */
  lemma DeleteResult<V>(s: State<V>, key: string, k: string)
    ensures key !in DeleteOp(s, key).0.entries
    ensures DeleteOp(s, key).1 == false <==> key in s.entries
    ensures k != key ==> (k in DeleteOp(s, key).0.entries <==> k in s.entries)
    ensures DeleteOp(s, key).0.stats == s.stats
  {
  }

  /** After `clear`, every key misses, and the counters carry on from where they were. */
  lemma ClearKeepsStats<V>(s: State<V>, key: string, now: int)
    ensures GetOp(ClearOp(s), key, now).1 == None
    ensures StatOf(GetOp(ClearOp(s), key, now).0, key) == KeyStat(StatOf(s, key).hits, StatOf(s, key).misses + 1)
  {
  }

  /** `clean_expired` leaves no expired entry, keeps every live one unchanged, and the entries
      removed and the entries kept add up to the entries before. */
  lemma CleanExpiredExact<V>(s: State<V>, now: int)
    ensures Expired(CleanExpiredOp(s, now).0.entries, now) == {}
    ensures forall k :: k in s.entries && s.entries[k].expiry >= now ==>
              k in CleanExpiredOp(s, now).0.entries && CleanExpiredOp(s, now).0.entries[k] == s.entries[k]
    ensures |CleanExpiredOp(s, now).0.entries| + CleanExpiredOp(s, now).1 == |s.entries|
  {
    LiveAndExpired(s.entries, now);
  }

  /** The entries split into the expired and the live ones. */
  lemma LiveAndExpired<V>(entries: map<string, Entry<V>>, now: int)
    ensures |Live(entries, now)| + |Expired(entries, now)| == |entries|
  {
    var live := Live(entries, now).Keys;
    var expired := Expired(entries, now);
    assert entries.Keys == live + expired;
    assert live * expired == {};
    assert |live + expired| == |live| + |expired|;
  }

  /** `get_stats`: the active entries are exactly the live ones, and every key's request total is the
      sum of its hits and misses. */
  lemma StatsReportLive<V>(s: State<V>, now: int)
    requires WellFormed(s)
    ensures StatsOp(s, now).activeEntries == |Live(s.entries, now)| >= 0
    ensures StatsOp(s, now).expiredEntries + StatsOp(s, now).activeEntries == StatsOp(s, now).totalEntries
    ensures forall k :: k in StatsOp(s, now).keys <==> k in s.stats
  {
    LiveAndExpired(s.entries, now);
  }

  /** The expired-entry count of `get_stats`, one entry at a time. */
  method CountExpired<V>(entries: map<string, Entry<V>>, now: int) returns (expired: nat)
    ensures expired == |Expired(entries, now)|
  {
    expired := 0;
    var pending := entries.Keys;
    while pending != {}
      invariant pending <= entries.Keys
      invariant expired == |Expired(entries, now) - pending|
      decreases |pending|
    {
      var key :| key in pending;
      if entries[key].expiry < now {
        assert Expired(entries, now) - (pending - {key}) == (Expired(entries, now) - pending) + {key};
        expired := expired + 1;
      } else {
        assert Expired(entries, now) - (pending - {key}) == Expired(entries, now) - pending;
      }
      pending := pending - {key};
    }
  }

  /** The hit and miss totals of `get_stats`, summed over the keys in order. */
  method Totals(keys: seq<string>, stats: map<string, KeyStat>) returns (hits: nat, misses: nat)
    requires forall k :: k in keys ==> k in stats
    ensures hits == SumHits(keys, stats) && misses == SumMisses(keys, stats)
  {
    hits, misses := 0, 0;
    for i := 0 to |keys|
      invariant hits == SumHits(keys[..i], stats)
      invariant misses == SumMisses(keys[..i], stats)
    {
      assert keys[..i + 1][..i] == keys[..i];
      hits := hits + stats[keys[i]].hits;
      misses := misses + stats[keys[i]].misses;
    }
    assert keys[..|keys|] == keys;
  }

  // ---------------------------------------------------------------------------------------------
  // The class

  class MemoryCache<V> {
    var entries: map<string, Entry<V>>
    var statKeys: seq<string>
    var stats: map<string, KeyStat>
    const defaultTtl: int

    function Current(): State<V>
      reads this
    {
      State(entries, statKeys, stats)
    }

    ghost predicate Valid()
      reads this
    {
      WellFormed(Current())
    }

    constructor(defaultTtl: int)
      ensures Valid() && this.defaultTtl == defaultTtl
      ensures entries == map[] && statKeys == [] && stats == map[]
    {
      this.defaultTtl := defaultTtl;
      entries := map[];
      statKeys := [];
      stats := map[];
    }

    /** Counts one request for `key` in `_stats`. */
    method Track(key: string, hit: bool)
      requires Valid()
      modifies this
      ensures Valid()
      ensures Current() == Counted(old(Current()), key, hit)
    {
      CountedWellFormed(Current(), key, hit);
      if key !in stats {
        stats := stats[key := KeyStat(0, 0)];
        statKeys := statKeys + [key];
      }
      var st := stats[key];
      stats := stats[key := if hit then st.(hits := st.hits + 1) else st.(misses := st.misses + 1)];
    }

    method Get(key: string, now: int) returns (r: Option<V>)
      requires Valid()
      modifies this
      ensures Valid()
      ensures (Current(), r) == GetOp(old(Current()), key, now)
    {
      GetCountsOneRequest(Current(), key, now, key);
      if key !in entries {
        Track(key, false);
        return None;
      }
      var entry := entries[key];
      if entry.expiry < now {
        Track(key, false);
        entries := entries - {key};
        return None;
      }
      Track(key, true);
      r := Some(entry.value);
    }

    method Set(key: string, value: V, ttl: Option<int>, now: int)
      requires Valid()
      modifies this
      ensures Valid()
      ensures Current() == SetOp(old(Current()), key, value, ttl, defaultTtl, now)
    {
      var expiry := now + (if ttl.Some? then ttl.value else defaultTtl);
      entries := entries[key := Entry(value, expiry)];
    }

    method Delete(key: string) returns (r: bool)
      requires Valid()
      modifies this
      ensures Valid()
      ensures (Current(), r) == DeleteOp(old(Current()), key)
    {
      if key in entries {
        entries := entries - {key};
        return false;
      }
      assert entries - {key} == entries;
      return true;
    }

    method Clear()
      requires Valid()
      modifies this
      ensures Valid()
      ensures Current() == ClearOp(old(Current()))
    {
      entries := map[];
    }

    method CleanExpired(now: int) returns (removed: nat)
      requires Valid()
      modifies this
      ensures Valid()
      ensures (Current(), removed) == CleanExpiredOp(old(Current()), now)
    {
      var expiredKeys := Expired(entries, now);
      ghost var before := entries;
      var pending := expiredKeys;
      removed := 0;
      while pending != {}
        invariant pending <= expiredKeys
        invariant entries == map k | k in before && k !in expiredKeys - pending :: before[k]
        invariant removed == |expiredKeys| - |pending|
        invariant statKeys == old(statKeys) && stats == old(stats)
        decreases |pending|
      {
        var key :| key in pending;
        entries := entries - {key};
        removed := removed + 1;
        pending := pending - {key};
      }
      assert entries == Live(before, now);
    }

    method GetStats(now: int) returns (report: Report)
      requires Valid()
      ensures report == StatsOp(Current(), now)
    {
      var total := |entries|;
      var expired := CountExpired(entries, now);
      var totalHits, totalMisses := Totals(statKeys, stats);
      var keyStats := map k | k in stats :: KeyReport(stats[k].hits, stats[k].misses, stats[k].hits + stats[k].misses);
      report := Report(total, expired, total - expired, totalHits, totalMisses, keyStats);
    }
  }
}
