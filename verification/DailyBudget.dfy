/** The daily budget gate (src/cron/schedule.ts:204-227, 268-286): how far a day's scheduled spend can go
    past it.
 */
module DailyBudget {

  /** One day's ledger: all that was spent, what scheduled runs of the day spent, the usage without a price,
      and the scheduled runs in flight, those begun today and those begun before. */
  datatype Day = Day(spent: nat, scheduled: nat, unpriced: nat, running: nat, carried: nat)

  datatype Step =
    | Begin                    // a scheduled attempt that passes the gate
    | End(cost: nat)           // a scheduled run begun today is charged
    | EndCarried(cost: nat)    // one begun before today is
    | Other(cost: nat)         // a manual run, a chat
    | Unpriced
    | Midnight

  /** `budgetBlock`, when a budget is set. */
  predicate Blocked(d: Day, budget: nat) { d.unpriced > 0 || d.spent >= budget }

  predicate Enabled(d: Day, step: Step, budget: nat, k: nat, c: nat) {
    match step
    case Begin => !Blocked(d, budget) && d.running + d.carried < k
    case End(cost) => d.running > 0 && cost <= c
    case EndCarried(cost) => d.carried > 0 && cost <= c
    case _ => true
  }

  function Do(d: Day, step: Step): Day {
    match step
    case Begin => d.(running := d.running + 1)
    case End(cost) =>
      d.(spent := d.spent + cost, scheduled := d.scheduled + cost, running := if d.running > 0 then d.running - 1 else 0)
    case EndCarried(cost) => d.(spent := d.spent + cost, carried := if d.carried > 0 then d.carried - 1 else 0)
    case Other(cost) => d.(spent := d.spent + cost)
    case Unpriced => d.(unpriced := d.unpriced + 1)
    case Midnight => Day(0, 0, 0, 0, d.running + d.carried)
  }

  predicate Allowed(d: Day, steps: seq<Step>, budget: nat, k: nat, c: nat)
    decreases |steps|
  {
    steps == [] || (Enabled(d, steps[0], budget, k, c) && Allowed(Do(d, steps[0]), steps[1..], budget, k, c))
  }

  function After(d: Day, steps: seq<Step>): Day
    decreases |steps|
  {
    if steps == [] then d else After(Do(d, steps[0]), steps[1..])
  }

  /** The scheduled spend with what the runs in flight may still add stays under the budget and the price of
      `k` runs; a budget of zero lets nothing begin. */
  predicate Within(d: Day, budget: nat, k: nat, c: nat) {
    && d.scheduled <= d.spent
    && d.running + d.carried <= k
    && if budget == 0 then d.scheduled == 0 && d.running == 0
       else d.scheduled + d.running * c < budget + k * c
  }

  lemma {:induction false} MulStep(n: nat, k: nat, c: nat)
    requires n < k
    ensures (n + 1) * c == n * c + c && (n + 1) * c <= k * c
  {
  }

  lemma {:induction false} StepWithin(d: Day, step: Step, budget: nat, k: nat, c: nat)
    requires Within(d, budget, k, c) && Enabled(d, step, budget, k, c)
    ensures Within(Do(d, step), budget, k, c)
  {
    match step
    case Begin => MulStep(d.running, k, c);
    case End(cost) =>
      MulStep(d.running - 1, d.running, c);
    case Midnight => assert 0 <= k * c;
    case _ =>
  }

  /** A day's scheduled spend stays below the daily budget plus the price of the runs that may overlap. */
  lemma {:induction false} Overshoot(d: Day, steps: seq<Step>, budget: nat, k: nat, c: nat)
    requires Within(d, budget, k, c) && Allowed(d, steps, budget, k, c)
    ensures Within(After(d, steps), budget, k, c)
    decreases |steps|
  {
    if steps != [] {
      StepWithin(d, steps[0], budget, k, c);
      Overshoot(Do(d, steps[0]), steps[1..], budget, k, c);
    }
  }

  function Times(step: Step, n: nat): seq<Step> { if n == 0 then [] else [step] + Times(step, n - 1) }

  lemma {:induction false} Begins(d: Day, n: nat, budget: nat, k: nat, c: nat, more: seq<Step>)
    requires d.running + d.carried + n <= k && !Blocked(d, budget)
    ensures var d' := d.(running := d.running + n);
            && (Allowed(d, Times(Begin, n) + more, budget, k, c) <==> Allowed(d', more, budget, k, c))
            && After(d, Times(Begin, n) + more) == After(d', more)
    decreases n
  {
    if n == 0 {
      assert Times(Begin, n) + more == more;
    } else {
      assert (Times(Begin, n) + more)[1..] == Times(Begin, n - 1) + more;
      Begins(d.(running := d.running + 1), n - 1, budget, k, c, more);
    }
  }

  lemma {:induction false} Ends(d: Day, n: nat, budget: nat, k: nat, c: nat)
    requires n <= d.running
    ensures Allowed(d, Times(End(c), n), budget, k, c)
    ensures After(d, Times(End(c), n)).scheduled == d.scheduled + n * c
    decreases n
  {
    if n > 0 {
      assert Times(End(c), n)[1..] == Times(End(c), n - 1);
      Ends(Do(d, End(c)), n - 1, budget, k, c);
      MulStep(n - 1, n, c);
    }
  }

  /** The bound cannot be lowered: one micro-dollar short of the budget, `k` runs begin and all are charged. */
  lemma {:induction false} OvershootReached(d: Day, budget: nat, k: nat, c: nat)
    requires 0 < budget && d == Day(budget - 1, budget - 1, 0, 0, 0)
    ensures var steps := Times(Begin, k) + Times(End(c), k);
            Allowed(d, steps, budget, k, c) && After(d, steps).scheduled == budget + k * c - 1
  {
    Begins(d, k, budget, k, c, Times(End(c), k));
    Ends(d.(running := k), k, budget, k, c);
  }

  // ---- The gate and the ledger ---------------------------------------------------------------

  predicate NoMidnight(steps: seq<Step>) { steps == [] || (!steps[0].Midnight? && NoMidnight(steps[1..])) }

  predicate NoBegin(steps: seq<Step>) { steps == [] || (!steps[0].Begin? && NoBegin(steps[1..])) }

  /** Once a run of the day has no known price, or the day's spend has come to the budget, no scheduled run begins
      before midnight. */
  lemma {:induction false} BlockedUntilMidnight(d: Day, steps: seq<Step>, budget: nat, k: nat, c: nat)
    requires (d.unpriced > 0 || d.spent >= budget) && Allowed(d, steps, budget, k, c) && NoMidnight(steps)
    ensures NoBegin(steps)
    decreases |steps|
  {
    if steps != [] {
      BlockedUntilMidnight(Do(d, steps[0]), steps[1..], budget, k, c);
    }
  }

  /** And only then is it held back: with all prices known and the budget not reached a run can begin. */
  lemma {:induction false} OpenUntilReached(d: Day, budget: nat, k: nat, c: nat)
    requires d.running + d.carried < k
    ensures Enabled(d, Begin, budget, k, c) <==> d.unpriced == 0 && d.spent < budget
  {
  }

  function CostOf(step: Step): nat {
    match step
    case End(cost) => cost
    case EndCarried(cost) => cost
    case Other(cost) => cost
    case _ => 0
  }

  function Costs(steps: seq<Step>): nat { if steps == [] then 0 else CostOf(steps[0]) + Costs(steps[1..]) }

  function WithoutPrice(steps: seq<Step>): nat {
    if steps == [] then 0 else (if steps[0].Unpriced? then 1 else 0) + WithoutPrice(steps[1..])
  }

  /** Within a day the ledger has every cost, scheduled or not, and every usage without a price. */
  lemma {:induction false} LedgerAdds(d: Day, steps: seq<Step>)
    requires NoMidnight(steps)
    ensures After(d, steps).spent == d.spent + Costs(steps)
    ensures After(d, steps).unpriced == d.unpriced + WithoutPrice(steps)
    decreases |steps|
  {
    if steps != [] {
      LedgerAdds(Do(d, steps[0]), steps[1..]);
    }
  }
}
