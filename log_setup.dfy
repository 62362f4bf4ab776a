/**
  `DuplicateFilter` (src/logging/setup.py): drops a log record when a record with the same level and
  message was kept less than half a second before it.
 */
module LogSetup {
  /** What the filter reads of a record: `levelno`, `getMessage()` and `created` (seconds). */
  datatype LogRecord = LogRecord(levelno: int, message: string, created: real)

  type Key = (int, string)

  function KeyOf(r: LogRecord): Key {
    (r.levelno, r.message)
  }

  const DuplicateWindow: real := 0.5

  /** `filter` on one record: dropped exactly when its key was kept before and the last kept one
      is less than the window old; a kept record becomes the key's last. */
  function Decide(lastLog: map<Key, real>, r: LogRecord): (map<Key, real>, bool) {
    var key := KeyOf(r);
    if key in lastLog && r.created - lastLog[key] < DuplicateWindow then (lastLog, false)
    else (lastLog[key := r.created], true)
  }

  /** A fresh filter run over a stream of records: its final `last_log`, and which records it kept. */
  function FilterAll(records: seq<LogRecord>): (r: (map<Key, real>, seq<bool>))
    ensures |r.1| == |records|
  {
    if records == [] then (map[], [])
    else
      var before := FilterAll(records[..|records| - 1]);
      var step := Decide(before.0, records[|records| - 1]);
      (step.0, before.1 + [step.1])
  }

  lemma FilterAllSnoc(records: seq<LogRecord>, r: LogRecord)
    ensures FilterAll(records + [r]).0 == Decide(FilterAll(records).0, r).0
    ensures FilterAll(records + [r]).1 == FilterAll(records).1 + [Decide(FilterAll(records).0, r).1]
  {
    assert (records + [r])[..|records|] == records;
  }

  /** `last_log` remembers, for every key, a time no earlier than any kept record of that key. */
  lemma {:induction false} LastLogDominates(records: seq<LogRecord>)
    ensures forall i :: 0 <= i < |records| && FilterAll(records).1[i] ==>
              KeyOf(records[i]) in FilterAll(records).0 && FilterAll(records).0[KeyOf(records[i])] >= records[i].created
  {
    if records != [] {
      var init := records[..|records| - 1];
      var last := records[|records| - 1];
      assert records == init + [last];
      LastLogDominates(init);
      FilterAllSnoc(init, last);
    }
  }

  /** Two kept records of the same level and message are at least the window apart, whatever the
      order of the timestamps in the stream. */
  lemma KeptAreSpaced(records: seq<LogRecord>, i: nat, j: nat)
    requires i < j < |records|
    requires FilterAll(records).1[i] && FilterAll(records).1[j]
    requires KeyOf(records[i]) == KeyOf(records[j])
    ensures records[j].created >= records[i].created + DuplicateWindow
  {
    var prefix := records[..j];
    var m := FilterAll(prefix).0;
    PrefixDecisions(records, j);
    assert FilterAll(prefix).1[i] by {
      assert FilterAll(records).1[..j][i] == FilterAll(records).1[i];
    }
    DominatesAt(prefix, i);
    KeptDecision(records, j);
  }

  lemma DominatesAt(records: seq<LogRecord>, i: nat)
    requires i < |records| && FilterAll(records).1[i]
    ensures KeyOf(records[i]) in FilterAll(records).0
    ensures FilterAll(records).0[KeyOf(records[i])] >= records[i].created
  {
    LastLogDominates(records);
  }

  /** The decision on record `j` is `Decide` against the `last_log` left by the records before it. */
  lemma KeptDecision(records: seq<LogRecord>, j: nat)
    requires j < |records|
    ensures FilterAll(records).1[j] == Decide(FilterAll(records[..j]).0, records[j]).1
  {
    var prefix, r, full := records[..j], records[j], FilterAll(records).1;
    assert FilterAll(prefix + [r]).1 == full[..j + 1] by {
      PrefixDecisions(records, j + 1);
      assert records[..j + 1] == prefix + [r];
    }
    assert FilterAll(prefix + [r]).1[j] == Decide(FilterAll(prefix).0, r).1 by {
      LastDecision(prefix, r);
    }
    assert full[..j + 1][j] == full[j];
  }

  lemma LastDecision(records: seq<LogRecord>, r: LogRecord)
    ensures FilterAll(records + [r]).1[|records|] == Decide(FilterAll(records).0, r).1
  {
    FilterAllSnoc(records, r);
  }

  /** Filtering a prefix decides the prefix's records as filtering the whole stream does. */
  lemma {:induction false} PrefixDecisions(records: seq<LogRecord>, n: nat)
    requires n <= |records|
    ensures FilterAll(records[..n]).1 == FilterAll(records).1[..n]
    decreases |records|
  {
    if n < |records| {
      var init := records[..|records| - 1];
      assert records == init + [records[|records| - 1]];
      FilterAllSnoc(init, records[|records| - 1]);
      assert init[..n] == records[..n];
      PrefixDecisions(init, n);
    } else {
      assert records[..n] == records;
    }
  }

  /** A key never seen is always kept, whatever else was logged; the same message at another level
      is a different key. */
  lemma FirstOfKeyKept(records: seq<LogRecord>, r: LogRecord)
    requires forall i :: 0 <= i < |records| ==> KeyOf(records[i]) != KeyOf(r)
    ensures FilterAll(records + [r]).1[|records|]
  {
    FilterAllSnoc(records, r);
    KeysOfLastLog(records);
  }

  lemma {:induction false} KeysOfLastLog(records: seq<LogRecord>)
    ensures forall k :: k in FilterAll(records).0 ==> exists i :: 0 <= i < |records| && KeyOf(records[i]) == k
  {
    if records != [] {
      var init := records[..|records| - 1];
      KeysOfLastLog(init);
      forall k | k in FilterAll(records).0 ensures exists i :: 0 <= i < |records| && KeyOf(records[i]) == k {
        if k != KeyOf(records[|records| - 1]) {
          assert records[..|records| - 1] == init;
          assert k in FilterAll(init).0;
          var i :| 0 <= i < |init| && KeyOf(init[i]) == k;
          assert records[i] == init[i];
        }
      }
    }
  }

  /** The window runs from the last kept record, not the last seen one: a message repeated every
      0.3 s is kept at 0.0 and 0.6 and dropped at 0.3. */
  lemma WindowFromLastKept(level: int, message: string)
    ensures FilterAll([LogRecord(level, message, 0.0), LogRecord(level, message, 0.3),
                       LogRecord(level, message, 0.6)]).1 == [true, false, true]
  {
    var a, b, c := LogRecord(level, message, 0.0), LogRecord(level, message, 0.3), LogRecord(level, message, 0.6);
    RepeatWithinWindow(level, message);
    assert [a, b] + [c] == [a, b, c];
    FilterAllSnoc([a, b], c);
  }

  /** The first two records of that example: the repeat 0.3 s later is dropped. */
  lemma RepeatWithinWindow(level: int, message: string)
    ensures FilterAll([LogRecord(level, message, 0.0), LogRecord(level, message, 0.3)]).0 == map[(level, message) := 0.0]
    ensures FilterAll([LogRecord(level, message, 0.0), LogRecord(level, message, 0.3)]).1 == [true, false]
  {
    var a, b := LogRecord(level, message, 0.0), LogRecord(level, message, 0.3);
    var k := (level, message);
    assert [] + [a] == [a] && [a] + [b] == [a, b];
    FilterAllSnoc([], a);
    assert FilterAll([]) == (map[], []);
    assert Decide(map[], a) == (map[k := 0.0], true);
    assert FilterAll([a]).0 == map[k := 0.0];
    assert FilterAll([a]).1 == [true];
    FilterAllSnoc([a], b);
    assert Decide(map[k := 0.0], b) == (map[k := 0.0], false);
  }


  class DuplicateFilter {
    var lastLog: map<Key, real>
    const duplicateWindow: real

    constructor()
      ensures lastLog == map[] && duplicateWindow == DuplicateWindow
    {
      lastLog := map[];
      duplicateWindow := DuplicateWindow;
    }

    /** `filter`: 1 to keep the record, 0 to drop it. */
    method Filter(record: LogRecord) returns (keep: int)
      requires duplicateWindow == DuplicateWindow
      modifies this
      ensures (lastLog, keep == 1) == Decide(old(lastLog), record)
      ensures keep == 0 || keep == 1
    {
      var currentTime := record.created;
      var logKey := (record.levelno, record.message);
      if logKey in lastLog {
        var lastTime := lastLog[logKey];
        if currentTime - lastTime < duplicateWindow {
          return 0;
        }
      }
      lastLog := lastLog[logKey := currentTime];
      return 1;
    }
  }
}
