/**
  `BaseWorker` (src/workers/base_worker.py): a loop that runs its task, sleeps its interval, and goes
  round again for as long as its `is_running` flag stays set. The asyncio scheduler is replaced by a
  script: for each iteration, how the task ended and whether `stop` was called while it ran or slept.
 */
module Workers {
  import opened Wrappers

  /** How one `execute_task` call ended. */
  datatype TaskOutcome = Completed | Raised(message: string)

  /** One iteration as the environment plays it. */
  datatype Iteration = Iteration(outcome: TaskOutcome, stopRequested: bool)

  /** What the loop does, in order. */
  datatype Action = Execute(outcome: TaskOutcome) | Sleep(seconds: int)

  /** The actions of `start` under a script: every iteration runs the task and then sleeps, whatever
      the task's outcome, and the loop ends after the iteration in which `stop` was called. */
  function Run(script: seq<Iteration>, interval: int): seq<Action> {
    if script == [] then []
    else [Execute(script[0].outcome), Sleep(interval)] +
         (if script[0].stopRequested then [] else Run(script[1..], interval))
  }

  predicate StopRequested(script: seq<Iteration>) {
    exists k :: 0 <= k < |script| && script[k].stopRequested
  }

  /** Iteration `k` runs exactly when no earlier iteration saw a `stop`; it runs the task to its end,
      an exception included, and then sleeps the full interval. */
  lemma {:induction false} RunIterations(script: seq<Iteration>, interval: int, k: nat)
    requires k < |script|
    ensures 2 * k + 1 < |Run(script, interval)| <==> forall j :: 0 <= j < k ==> !script[j].stopRequested
    ensures 2 * k + 1 < |Run(script, interval)| ==>
              Run(script, interval)[2 * k] == Execute(script[k].outcome) &&
              Run(script, interval)[2 * k + 1] == Sleep(interval)
  {
    if k > 0 && !script[0].stopRequested {
      RunIterations(script[1..], interval, k - 1);
      assert forall j :: 1 <= j < k ==> script[j] == script[1..][j - 1];
    }
  }

  /** The loop never stops by itself: without a `stop`, every scripted iteration runs. */
  lemma {:induction false} RunWithoutStop(script: seq<Iteration>, interval: int)
    requires !StopRequested(script)
    ensures |Run(script, interval)| == 2 * |script|
  {
    if script != [] {
      assert !script[0].stopRequested;
      assert !StopRequested(script[1..]) by {
        forall k | 0 <= k < |script| - 1 ensures !script[1..][k].stopRequested {
          assert script[1..][k] == script[k + 1];
        }
      }
      RunWithoutStop(script[1..], interval);
    }
  }

  /** One iteration of `Run` from position `i`. */
  lemma RunFrom(script: seq<Iteration>, i: nat, interval: int)
    requires i < |script|
    ensures Run(script[i..], interval) ==
              [Execute(script[i].outcome), Sleep(interval)] +
              (if script[i].stopRequested then [] else Run(script[i + 1..], interval))
  {
    assert script[i..][1..] == script[i + 1..];
  }

  /** The trace after iteration `i`: complete when it saw a `stop`, otherwise the rest still to come. */
  lemma RunStep(script: seq<Iteration>, i: nat, interval: int, trace: seq<Action>)
    requires i < |script| && trace + Run(script[i..], interval) == Run(script, interval)
    ensures var next := trace + [Execute(script[i].outcome), Sleep(interval)];
            if script[i].stopRequested then next == Run(script, interval)
            else next + Run(script[i + 1..], interval) == Run(script, interval)
  {
    RunFrom(script, i, interval);
    var step := [Execute(script[i].outcome), Sleep(interval)];
    var rest := if script[i].stopRequested then [] else Run(script[i + 1..], interval);
    assert trace + (step + rest) == (trace + step) + rest;
  }

  class BaseWorker {
    const intervalSeconds: int
    var isRunning: bool
    var sharedTimestamp: Option<int>

    constructor(intervalSeconds: int)
      ensures this.intervalSeconds == intervalSeconds && !isRunning && sharedTimestamp.None?
    {
      this.intervalSeconds := intervalSeconds;
      isRunning := false;
      sharedTimestamp := None;
    }

    method SetTimestamp(timestamp: int)
      modifies this`sharedTimestamp
      ensures sharedTimestamp == Some(timestamp)
    {
      sharedTimestamp := Some(timestamp);
    }

    /** Clears the flag only; an iteration in flight runs to its end. */
    method Stop()
      modifies this`isRunning
      ensures !isRunning
    {
      isRunning := false;
    }

    /** `start`, for as many iterations as the script holds. */
    method Start(script: seq<Iteration>) returns (trace: seq<Action>)
      modifies this
      ensures trace == Run(script, intervalSeconds)
      ensures isRunning <==> !StopRequested(script)
      ensures sharedTimestamp == old(sharedTimestamp)
    {
      isRunning := true;
      trace := [];
      var i := 0;
      while isRunning && i < |script|
        invariant 0 <= i <= |script|
        invariant sharedTimestamp == old(sharedTimestamp)
        invariant isRunning ==> trace + Run(script[i..], intervalSeconds) == Run(script, intervalSeconds)
        invariant isRunning ==> forall j :: 0 <= j < i ==> !script[j].stopRequested
        invariant !isRunning ==> trace == Run(script, intervalSeconds) && 0 < i && script[i - 1].stopRequested
        decreases |script| - i
      {
        var iteration := script[i];
        RunStep(script, i, intervalSeconds, trace);
        if iteration.stopRequested {
          isRunning := false;  // `stop` ran while the task or the sleep was awaited
        }
        trace := trace + [Execute(iteration.outcome), Sleep(intervalSeconds)];
        i := i + 1;
      }
      if isRunning {
        assert script[i..] == [];
      }
    }
  }
}
