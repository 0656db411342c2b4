/** Failure streaks (src/cron/schedule.ts:235-355; src/routes/cron.ts:133-150): when a schedule switches
    itself off.
 */
module AutoDisable {

  /** A schedule, with the failure count each attempt in flight read when it began. */
  datatype Job = Job(enabled: bool, failures: nat, inFlight: seq<nat>)

  datatype Step =
    | Begin(force: bool)
    | End(k: nat, ok: bool)     // the k-th attempt in flight ends
    | Skip                      // over the budget, or its agent is gone
    | Switch(on: bool)          // the operator's edit

  predicate Enabled(j: Job, step: Step) {
    match step
    case Begin(force) => force || j.enabled
    case End(k, _) => k < |j.inFlight|
    case _ => true
  }

  function Do(j: Job, step: Step, ceiling: nat): Job
    requires Enabled(j, step)
  {
    match step
    case Begin(_) => j.(inFlight := j.inFlight + [j.failures])
    case End(k, ok) =>
      var rest := j.inFlight[..k] + j.inFlight[k + 1..];
      if ok then Job(j.enabled, 0, rest)
      else
        var failures := j.inFlight[k] + 1;
        Job(j.enabled && failures < ceiling, failures, rest)
    case Skip => j
    case Switch(on) => if on && !j.enabled then Job(true, 0, j.inFlight) else j.(enabled := on)
  }

  predicate Allowed(j: Job, steps: seq<Step>, ceiling: nat)
    decreases |steps|
  {
    steps == [] || (Enabled(j, steps[0]) && Allowed(Do(j, steps[0], ceiling), steps[1..], ceiling))
  }

  function After(j: Job, steps: seq<Step>, ceiling: nat): Job
    requires Allowed(j, steps, ceiling)
    decreases |steps|
  {
    if steps == [] then j else After(Do(j, steps[0], ceiling), steps[1..], ceiling)
  }

  /** However attempts overlap, an enabled schedule stays below the ceiling. */
  lemma {:induction false} EnabledBelowCeiling(j: Job, steps: seq<Step>, ceiling: nat)
    requires ceiling > 0 && Allowed(j, steps, ceiling) && (j.enabled ==> j.failures < ceiling)
    ensures var j' := After(j, steps, ceiling); j'.enabled ==> j'.failures < ceiling
    decreases |steps|
  {
    if steps != [] {
      EnabledBelowCeiling(Do(j, steps[0], ceiling), steps[1..], ceiling);
    }
  }

  // ---- What the counter counts ---------------------------------------------------------------

  datatype Outcome = Done | Failed | Skipped | SwitchedOn | SwitchedOff

  /** A schedule with its log of outcomes, in the order they are written. */
  datatype Logged = Logged(job: Job, log: seq<Outcome>)

  /** What a step adds to the log; switching on is logged when it changes something. */
  function Entries(j: Job, step: Step): seq<Outcome> {
    match step
    case Begin(_) => []
    case End(_, ok) => [if ok then Done else Failed]
    case Skip => [Skipped]
    case Switch(on) => if !on then [SwitchedOff] else if !j.enabled then [SwitchedOn] else []
  }

  function Next(l: Logged, step: Step, ceiling: nat): Logged
    requires Enabled(l.job, step)
  {
    Logged(Do(l.job, step, ceiling), l.log + Entries(l.job, step))
  }

  /** The failures at the end of a log, skips and switching off left out, back to the last run that was done
      or the last time the schedule was switched on. */
  function Streak(log: seq<Outcome>): nat {
    if log == [] then 0
    else
      match log[|log| - 1]
      case Failed => 1 + Streak(log[..|log| - 1])
      case Done => 0
      case SwitchedOn => 0
      case _ => Streak(log[..|log| - 1])
  }

  lemma {:induction false} StreakNext(log: seq<Outcome>, outcome: Outcome)
    ensures Streak(log + [outcome])
            == match outcome
               case Failed => 1 + Streak(log)
               case Done => 0
               case SwitchedOn => 0
               case _ => Streak(log)
  {
    assert (log + [outcome])[..|log|] == log;
  }

  /** A failure that ends on the count it read is fresh; successes always are. */
  predicate Fresh(j: Job, step: Step)
    requires Enabled(j, step)
  {
    step.End? ==> step.ok || j.inFlight[step.k] == j.failures
  }

  /** A step keeps the counter equal to the streak if and only if it is no failure on a stale count. */
  lemma {:induction false} CounterExact(l: Logged, step: Step, ceiling: nat)
    requires Enabled(l.job, step) && l.job.failures == Streak(l.log)
    ensures Next(l, step, ceiling).job.failures == Streak(Next(l, step, ceiling).log) <==> Fresh(l.job, step)
  {
    if Entries(l.job, step) == [] {
      assert l.log + [] == l.log;
    } else {
      StreakNext(l.log, Entries(l.job, step)[0]);
    }
  }

  /** While it is, a failure switches an enabled schedule off if and only if it completes a full ceiling of
      consecutive ones. */
  lemma {:induction false} DisableExact(l: Logged, step: Step, ceiling: nat)
    requires Enabled(l.job, step) && l.job.failures == Streak(l.log) && Fresh(l.job, step)
    requires l.job.enabled && step != Switch(false)
    ensures var l' := Next(l, step, ceiling);
            !l'.job.enabled <==> step.End? && !step.ok && Streak(l'.log) >= ceiling
  {
    CounterExact(l, step, ceiling);
  }

  ghost predicate CountsThroughout(l: Logged, steps: seq<Step>, ceiling: nat)
    requires Allowed(l.job, steps, ceiling)
    decreases |steps|
  {
    l.job.failures == Streak(l.log)
    && (steps == [] || CountsThroughout(Next(l, steps[0], ceiling), steps[1..], ceiling))
  }

  predicate FreshThroughout(j: Job, steps: seq<Step>, ceiling: nat)
    requires Allowed(j, steps, ceiling)
    decreases |steps|
  {
    steps == [] || (Fresh(j, steps[0]) && FreshThroughout(Do(j, steps[0], ceiling), steps[1..], ceiling))
  }

  /** Under any interleaving the counter is the streak throughout if and only if no failure ends on a stale
      count. */
  lemma {:induction false} RunsCountExact(l: Logged, steps: seq<Step>, ceiling: nat)
    requires Allowed(l.job, steps, ceiling) && l.job.failures == Streak(l.log)
    ensures CountsThroughout(l, steps, ceiling) <==> FreshThroughout(l.job, steps, ceiling)
    decreases |steps|
  {
    if steps != [] {
      CounterExact(l, steps[0], ceiling);
      if Fresh(l.job, steps[0]) {
        RunsCountExact(Next(l, steps[0], ceiling), steps[1..], ceiling);
      } else {
        var l' := Next(l, steps[0], ceiling);
        assert l'.job.failures != Streak(l'.log);
      }
    }
  }

  /** One attempt at a time, and no switching on while it is under way. */
  predicate Serial(j: Job, steps: seq<Step>, ceiling: nat)
    requires Allowed(j, steps, ceiling)
    decreases |steps|
  {
    steps == [] ||
    (((steps[0].Begin? || (steps[0] == Switch(true) && !j.enabled)) ==> j.inFlight == [])
     && Serial(Do(j, steps[0], ceiling), steps[1..], ceiling))
  }

  /** Serial attempts are counted right: the counter is the number of failures since the last success. */
  lemma {:induction false} SerialCounter(l: Logged, steps: seq<Step>, ceiling: nat)
    requires Allowed(l.job, steps, ceiling) && Serial(l.job, steps, ceiling) && l.job.failures == Streak(l.log)
    requires l.job.inFlight == [] || l.job.inFlight == [l.job.failures]
    ensures CountsThroughout(l, steps, ceiling)
    decreases |steps|
  {
    if steps != [] {
      CounterExact(l, steps[0], ceiling);
      SerialCounter(Next(l, steps[0], ceiling), steps[1..], ceiling);
    }
  }

  predicate NoSwitchOn(steps: seq<Step>) {
    steps == [] || (steps[0] != Switch(true) && NoSwitchOn(steps[1..]))
  }

  /** A schedule that is off stays off until the operator switches it on: no run, forced ones included, does. */
  lemma {:induction false} OffUntilSwitchedOn(j: Job, steps: seq<Step>, ceiling: nat)
    requires !j.enabled && Allowed(j, steps, ceiling) && NoSwitchOn(steps)
    ensures !After(j, steps, ceiling).enabled
    decreases |steps|
  {
    if steps != [] {
      OffUntilSwitchedOn(Do(j, steps[0], ceiling), steps[1..], ceiling);
    }
  }

  /** A full ceiling of real failures lies behind every streak that long. */
  lemma {:induction false} StreakIsFailures(log: seq<Outcome>, n: nat)
    requires n <= Streak(log)
    ensures multiset(log)[Failed] >= n
  {
    if n > 0 {
      assert log == log[..|log| - 1] + [log[|log| - 1]];
      StreakIsFailures(log[..|log| - 1], if log[|log| - 1] == Failed then n - 1 else n);
    }
  }

  // ---- Stale counts --------------------------------------------------------------------------

  /** A failure that began before a success was written: the counter goes on as if the success had not
      been, up to switching off a schedule after one failure. */
  lemma {:induction false} StaleFailure(j: Job, ceiling: nat)
    requires j.enabled && j.inFlight == []
    ensures var j1 := Do(j, Begin(false), ceiling);
            var j2 := Do(j1, Begin(true), ceiling);
            var j3 := Do(j2, End(1, true), ceiling);
            var j4 := Do(j3, End(0, false), ceiling);
            && j3.failures == 0 && (Fresh(j3, End(0, false)) <==> j.failures == 0)
            && j4.failures == j.failures + 1
            && (!j4.enabled <==> j.failures + 1 >= ceiling)
  {
  }

  /** A schedule switched on again while a forced attempt is under way is switched off by that attempt's
      failure, if it had been one failure short of the ceiling or more. */
  lemma {:induction false} SwitchedOffAgain(j: Job, ceiling: nat)
    requires !j.enabled && j.inFlight == []
    ensures var j2 := Do(Do(j, Begin(true), ceiling), Switch(true), ceiling);
            && j2.enabled && j2.failures == 0
            && (Do(j2, End(0, false), ceiling).enabled <==> j.failures + 1 < ceiling)
  {
  }

  /** Failures of attempts that began together count as one, however many they are. */
  lemma {:induction false} TogetherCountOnce(j: Job, n: nat, ceiling: nat)
    requires n > 0 && |j.inFlight| == n && (forall k | 0 <= k < n :: j.inFlight[k] == j.inFlight[0])
    ensures Allowed(j, seq(n, i => End(0, false)), ceiling)
    ensures After(j, seq(n, i => End(0, false)), ceiling).failures == j.inFlight[0] + 1
    decreases n
  {
    var steps := seq(n, i => End(0, false));
    var j1 := Do(j, End(0, false), ceiling);
    assert steps[0] == End(0, false) && steps[1..] == seq(n - 1, i => End(0, false));
    assert j1.inFlight == j.inFlight[1..];
    if n > 1 {
      TogetherCountOnce(j1, n - 1, ceiling);
    }
  }
}
