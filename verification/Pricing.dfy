/** Usage and its price (src/frames.ts:62-74, src/pricing.ts:118-184, src/runner/turn.ts:229-243), with rates
    as exact numbers of micro-USD per token.
 */
module Pricing {
  import opened Options

  /** Token counts; the optional ones may be absent. */
  datatype Tokens = Tokens(
    input: nat, output: nat, cacheRead: Option<nat>, cacheWrite: Option<nat>, reasoning: Option<nat>)

  datatype Rate = Rate(input: real, output: real, cacheRead: Option<real>, cacheWrite: Option<real>)

  datatype ModelPricing = ModelPricing(offPeak: Rate, peak: Option<Rate>)

  datatype Window = Window(start: nat, end: nat)

  // ---- Accumulating usage --------------------------------------------------------------------

  function OrZero(n: Option<nat>): nat { if n.Some? then n.value else 0 }

  function AddCounts(a: Option<nat>, b: Option<nat>): Option<nat> {
    if a.None? && b.None? then None else Some(OrZero(a) + OrZero(b))
  }

  /** `sumUsage`. */
  function SumUsage(total: Option<Tokens>, step: Option<Tokens>): Option<Tokens> {
    if step.None? then total
    else if total.None? then step
    else
      var a, b := total.value, step.value;
      Some(Tokens(a.input + b.input, a.output + b.output, AddCounts(a.cacheRead, b.cacheRead),
                  AddCounts(a.cacheWrite, b.cacheWrite), AddCounts(a.reasoning, b.reasoning)))
  }

  /** Usage is a commutative monoid under the sum, absence its identity. */
  lemma {:induction false} UsageMonoid(a: Option<Tokens>, b: Option<Tokens>, c: Option<Tokens>)
    ensures SumUsage(SumUsage(a, b), c) == SumUsage(a, SumUsage(b, c))
    ensures SumUsage(a, b) == SumUsage(b, a)
    ensures SumUsage(a, None) == a == SumUsage(None, a)
  {
    if a.Some? && b.Some? && c.Some? {
      CountsAssociate(a.value.cacheRead, b.value.cacheRead, c.value.cacheRead);
      CountsAssociate(a.value.cacheWrite, b.value.cacheWrite, c.value.cacheWrite);
      CountsAssociate(a.value.reasoning, b.value.reasoning, c.value.reasoning);
    }
  }

  lemma {:induction false} CountsAssociate(a: Option<nat>, b: Option<nat>, c: Option<nat>)
    ensures AddCounts(AddCounts(a, b), c) == AddCounts(a, AddCounts(b, c))
  {
  }

  // ---- One price -----------------------------------------------------------------------------

  function RateOr(rate: Option<real>, other: real): real { if rate.Some? then rate.value else other }

  function Times(tokens: nat, rate: real): real { tokens as real * rate }

  /** The exact price of a usage, in micro-USD. */
  function Exact(u: Tokens, rate: Rate): real {
    Times(u.input, rate.input) + Times(u.output, rate.output)
    + Times(OrZero(u.cacheRead), RateOr(rate.cacheRead, rate.input))
    + Times(OrZero(u.cacheWrite), RateOr(rate.cacheWrite, rate.input))
  }

  /** `Math.round`. */
  function Round(x: real): int { (x + 0.5).Floor }

  /** The minute of the day lies in a window, which may run over midnight. */
  predicate InWindow(minute: nat, w: Window) {
    if w.start <= w.end then w.start <= minute < w.end else w.start <= minute || minute < w.end
  }

  predicate IsPeak(minute: nat, windows: seq<Window>) {
    windows != [] && (InWindow(minute, windows[0]) || IsPeak(minute, windows[1..]))
  }

  function RateAt(p: ModelPricing, peakTime: bool): Rate { if peakTime && p.peak.Some? then p.peak.value else p.offPeak }

  /** A price in micro-USD, and which side of the clock it was charged at. */
  datatype Cost = Cost(microUsd: int, peak: bool)

  /** `computeCost`, the clock and the calendar already read. */
  function ComputeCost(u: Option<Tokens>, pricing: Option<ModelPricing>, peakTime: bool): Option<Cost> {
    if u.None? || pricing.None? then None
    else Some(Cost(Round(Exact(u.value, RateAt(pricing.value, peakTime))), peakTime && pricing.value.peak.Some?))
  }

  predicate Clock(w: Window) { w.start < 1440 && w.end < 1440 }

  /** A minute lies in a window when it comes after its start, going round, by less than its length. */
  predicate Within(minute: nat, w: Window) { (minute - w.start) % 1440 < (w.end - w.start) % 1440 }

  lemma {:induction false} WindowIsCyclic(minute: nat, w: Window)
    requires minute < 1440 && Clock(w)
    ensures InWindow(minute, w) <==> Within(minute, w)
  {
  }

  /** A minute is peak time when it lies within some window, going round the clock. */
  lemma {:induction false} PeakIsCyclic(minute: nat, windows: seq<Window>)
    requires minute < 1440 && forall w | w in windows :: Clock(w)
    ensures IsPeak(minute, windows) <==> exists w :: w in windows && Within(minute, w)
  {
    if windows != [] {
      WindowIsCyclic(minute, windows[0]);
      PeakIsCyclic(minute, windows[1..]);
      assert windows == [windows[0]] + windows[1..];
    }
  }

  predicate NonNegative(rate: Rate) {
    && rate.input >= 0.0 && rate.output >= 0.0
    && RateOr(rate.cacheRead, 0.0) >= 0.0 && RateOr(rate.cacheWrite, 0.0) >= 0.0
  }

  predicate AtMost(a: Tokens, b: Tokens) {
    && a.input <= b.input && a.output <= b.output
    && OrZero(a.cacheRead) <= OrZero(b.cacheRead) && OrZero(a.cacheWrite) <= OrZero(b.cacheWrite)
  }

  lemma {:induction false} MulMonotone(a: nat, b: nat, r: real)
    requires a <= b && r >= 0.0
    ensures Times(a, r) <= Times(b, r)
  {
  }

  /** More tokens never cost less. */
  lemma {:induction false} CostMonotone(a: Tokens, b: Tokens, p: ModelPricing, peakTime: bool)
    requires AtMost(a, b) && NonNegative(RateAt(p, peakTime))
    ensures ComputeCost(Some(a), Some(p), peakTime).value.microUsd
            <= ComputeCost(Some(b), Some(p), peakTime).value.microUsd
  {
    ExactMonotone(a, b, RateAt(p, peakTime));
    RoundMonotone(Exact(a, RateAt(p, peakTime)), Exact(b, RateAt(p, peakTime)));
  }

  lemma {:induction false} ExactMonotone(a: Tokens, b: Tokens, rate: Rate)
    requires AtMost(a, b) && NonNegative(rate)
    ensures Exact(a, rate) <= Exact(b, rate)
  {
    MulMonotone(a.input, b.input, rate.input);
    MulMonotone(a.output, b.output, rate.output);
    MulMonotone(OrZero(a.cacheRead), OrZero(b.cacheRead), RateOr(rate.cacheRead, rate.input));
    MulMonotone(OrZero(a.cacheWrite), OrZero(b.cacheWrite), RateOr(rate.cacheWrite, rate.input));
  }

  lemma {:induction false} RoundMonotone(x: real, y: real)
    requires x <= y
    ensures Round(x) <= Round(y)
  {
  }

  // ---- A turn's prices -----------------------------------------------------------------------

  /** What a turn's accounts have come to: usage, cost so far, the part of it charged at peak rates, and
      whether every response had a rate. */
  datatype Account = Account(usage: Option<Tokens>, cost: int, peakCost: int, known: bool)

  /** A response as it arrives: its usage and whether its instant is peak time. */
  datatype Response = Response(usage: Option<Tokens>, peakTime: bool)

  function Charge(a: Account, r: Response, pricing: Option<ModelPricing>): Account {
    var price := ComputeCost(r.usage, pricing, r.peakTime);
    Account(SumUsage(a.usage, r.usage),
            a.cost + (if price.Some? then price.value.microUsd else 0),
            a.peakCost + (if price.Some? && price.value.peak then price.value.microUsd else 0),
            a.known && (r.usage.None? || price.Some?))
  }

  function ChargeAll(responses: seq<Response>, pricing: Option<ModelPricing>): Account {
    if responses == [] then Account(None, 0, 0, true)
    else Charge(ChargeAll(responses[..|responses| - 1], pricing), responses[|responses| - 1], pricing)
  }

  /** The part of `handleTurnFrame` that keeps the accounts, over a turn's messages. */
  method Accrue(responses: seq<Response>, pricing: Option<ModelPricing>) returns (account: Account)
    ensures account == ChargeAll(responses, pricing)
  {
    var usage: Option<Tokens>, cost, peakCost, known := None, 0, 0, true;
    for i := 0 to |responses|
      invariant Account(usage, cost, peakCost, known) == ChargeAll(responses[..i], pricing)
    {
      assert responses[..i + 1][..i] == responses[..i];
      var r := responses[i];
      usage := SumUsage(usage, r.usage);
      if r.usage.Some? {
        var price := ComputeCost(r.usage, pricing, r.peakTime);
        if price.None? {
          known := false;
        } else {
          cost := cost + price.value.microUsd;
          if price.value.peak {
            peakCost := peakCost + price.value.microUsd;
          }
        }
      }
    }
    assert responses[..|responses|] == responses;
    account := Account(usage, cost, peakCost, known);
  }

  function ExactOf(r: Response, p: ModelPricing): real {
    if r.usage.None? then 0.0 else Exact(r.usage.value, RateAt(p, r.peakTime))
  }

  function ExactTotal(responses: seq<Response>, p: ModelPricing): real {
    if responses == [] then 0.0
    else ExactTotal(responses[..|responses| - 1], p) + ExactOf(responses[|responses| - 1], p)
  }

  /** How many responses are charged at all. */
  function Charged(responses: seq<Response>): nat {
    if responses == [] then 0
    else Charged(responses[..|responses| - 1]) + if responses[|responses| - 1].usage.Some? then 1 else 0
  }

  function Abs(x: real): real { if x < 0.0 then -x else x }

  /** A turn's cost is off the exact one by at most half a micro-USD for each response charged. */
  lemma {:induction false} RoundingBound(responses: seq<Response>, p: ModelPricing)
    ensures ChargeAll(responses, Some(p)).known
    ensures Abs(ChargeAll(responses, Some(p)).cost as real - ExactTotal(responses, p))
            <= Charged(responses) as real / 2.0
  {
    if responses != [] {
      RoundingBound(responses[..|responses| - 1], p);
    }
  }

  lemma {:induction false} Distribute(a: nat, b: nat, r: real)
    ensures Times(a + b, r) == Times(a, r) + Times(b, r)
  {
  }

  lemma {:induction false} ExactIsLinear(a: Tokens, b: Tokens, rate: Rate)
    ensures Exact(SumUsage(Some(a), Some(b)).value, rate) == Exact(a, rate) + Exact(b, rate)
  {
    var sum := SumUsage(Some(a), Some(b)).value;
    var read, write := RateOr(rate.cacheRead, rate.input), RateOr(rate.cacheWrite, rate.input);
    assert OrZero(sum.cacheRead) == OrZero(a.cacheRead) + OrZero(b.cacheRead);
    assert OrZero(sum.cacheWrite) == OrZero(a.cacheWrite) + OrZero(b.cacheWrite);
    Distribute(a.input, b.input, rate.input);
    Distribute(a.output, b.output, rate.output);
    Distribute(OrZero(a.cacheRead), OrZero(b.cacheRead), read);
    Distribute(OrZero(a.cacheWrite), OrZero(b.cacheWrite), write);
  }

  predicate AllAt(responses: seq<Response>, peakTime: bool) {
    responses == [] || (AllAt(responses[..|responses| - 1], peakTime) && responses[|responses| - 1].peakTime == peakTime)
  }

  lemma {:induction false} TotalOfSum(responses: seq<Response>, p: ModelPricing, peakTime: bool)
    requires AllAt(responses, peakTime)
    ensures var usage := ChargeAll(responses, Some(p)).usage;
            (if usage.None? then 0.0 else Exact(usage.value, RateAt(p, peakTime))) == ExactTotal(responses, p)
  {
    if responses != [] {
      var init, last := responses[..|responses| - 1], responses[|responses| - 1];
      TotalOfSum(init, p, peakTime);
      var before := ChargeAll(init, Some(p)).usage;
      if before.Some? && last.usage.Some? {
        ExactIsLinear(before.value, last.usage.value, RateAt(p, peakTime));
      }
    }
  }

  /** Pricing the summed usage at once differs from the sum of the prices by at most half a micro-USD more
      than there are responses. */
  lemma {:induction false} SumPriceBound(responses: seq<Response>, p: ModelPricing, peakTime: bool)
    requires AllAt(responses, peakTime) && ChargeAll(responses, Some(p)).usage.Some?
    ensures var account := ChargeAll(responses, Some(p));
            Abs((ComputeCost(account.usage, Some(p), peakTime).value.microUsd - account.cost) as real)
            <= (Charged(responses) + 1) as real / 2.0
  {
    RoundingBound(responses, p);
    TotalOfSum(responses, p, peakTime);
  }

  predicate RatesNonNegative(p: ModelPricing) {
    NonNegative(p.offPeak) && (p.peak.Some? ==> NonNegative(p.peak.value))
  }

  lemma {:induction false} PriceNonNegative(u: Tokens, rate: Rate)
    requires NonNegative(rate)
    ensures Round(Exact(u, rate)) >= 0
  {
    MulMonotone(0, u.input, rate.input);
    MulMonotone(0, u.output, rate.output);
    MulMonotone(0, OrZero(u.cacheRead), RateOr(rate.cacheRead, rate.input));
    MulMonotone(0, OrZero(u.cacheWrite), RateOr(rate.cacheWrite, rate.input));
  }

  /** The responses of one side of the clock. */
  function AtPeak(responses: seq<Response>): seq<Response> {
    if responses == [] then []
    else
      AtPeak(responses[..|responses| - 1])
      + if responses[|responses| - 1].peakTime then [responses[|responses| - 1]] else []
  }

  /** The peak share of a turn's cost is what its peak-time responses alone would have cost, if the model has
      a peak rate, and nothing otherwise; it is never more than the whole. */
  lemma {:induction false} PeakShare(responses: seq<Response>, p: ModelPricing)
    requires RatesNonNegative(p)
    ensures var account := ChargeAll(responses, Some(p));
            && account.peakCost == (if p.peak.Some? then ChargeAll(AtPeak(responses), Some(p)).cost else 0)
            && 0 <= account.peakCost <= account.cost
  {
    if responses != [] {
      var init, last := responses[..|responses| - 1], responses[|responses| - 1];
      PeakShare(init, p);
      if last.usage.Some? {
        PriceNonNegative(last.usage.value, RateAt(p, last.peakTime));
      }
      if last.peakTime {
        assert (AtPeak(init) + [last])[..|AtPeak(init)|] == AtPeak(init);
      } else {
        assert AtPeak(responses) == AtPeak(init);
      }
    }
  }

  /** Without a rate a turn that used anything has no known cost, rather than a cost of zero. */
  lemma {:induction false} UnpricedIsUnknown(responses: seq<Response>)
    ensures ChargeAll(responses, None).known <==> ChargeAll(responses, None).usage.None?
    ensures ChargeAll(responses, None).usage.None? <==> Charged(responses) == 0
  {
    if responses != [] {
      UnpricedIsUnknown(responses[..|responses| - 1]);
    }
  }

  // ---- What each counter costs ---------------------------------------------------------------

  datatype Counter = Input | Output | CacheRead | CacheWrite | Reasoning

  /** What a response says of a counter, if anything. */
  function Says(u: Option<Tokens>, counter: Counter): Option<nat> {
    if u.None? then None
    else
      match counter
      case Input => Some(u.value.input)
      case Output => Some(u.value.output)
      case CacheRead => u.value.cacheRead
      case CacheWrite => u.value.cacheWrite
      case Reasoning => u.value.reasoning
  }

  function TotalOf(responses: seq<Response>, counter: Counter): nat {
    if responses == [] then 0
    else
      TotalOf(responses[..|responses| - 1], counter)
      + match Says(responses[|responses| - 1].usage, counter) case Some(n) => n case None => 0
  }

  predicate AnySays(responses: seq<Response>, counter: Counter) {
    responses != [] &&
    (Says(responses[|responses| - 1].usage, counter).Some? || AnySays(responses[..|responses| - 1], counter))
  }

  lemma {:induction false} SumSays(a: Option<Tokens>, b: Option<Tokens>, counter: Counter)
    ensures Says(SumUsage(a, b), counter) == AddCounts(Says(a, counter), Says(b, counter))
  {
  }

  /** The usage of a turn has each counter some response has, and it is the sum of what they say. */
  lemma {:induction false} UsageTotals(responses: seq<Response>, pricing: Option<ModelPricing>, counter: Counter)
    ensures Says(ChargeAll(responses, pricing).usage, counter)
            == if AnySays(responses, counter) then Some(TotalOf(responses, counter)) else None
    ensures !AnySays(responses, counter) ==> TotalOf(responses, counter) == 0
  {
    if responses != [] {
      var init, last := responses[..|responses| - 1], responses[|responses| - 1];
      UsageTotals(init, pricing, counter);
      SumSays(ChargeAll(init, pricing).usage, last.usage, counter);
    }
  }

  function OrElse(n: Option<nat>): real { if n.Some? then n.value as real else 0.0 }

  /** The charge for a usage is within half a micro-USD of its input tokens at the input rate, its output tokens
      at the output rate, and what was read from and written to the cache at rates of their own or else at the
      input rate; peak rates are those of a model that has some, at peak time. */
  lemma {:induction false} PriceExact(u: Tokens, p: ModelPricing, peakTime: bool)
    ensures var rate := match p.peak case Some(peak) => (if peakTime then peak else p.offPeak) case None => p.offPeak;
            var read := match rate.cacheRead case Some(r) => r case None => rate.input;
            var write := match rate.cacheWrite case Some(r) => r case None => rate.input;
            var price := u.input as real * rate.input + u.output as real * rate.output
                         + OrElse(u.cacheRead) * read + OrElse(u.cacheWrite) * write;
            price - 0.5 <= ComputeCost(Some(u), Some(p), peakTime).value.microUsd as real <= price + 0.5
  {
    var rate := RateAt(p, peakTime);
    assert OrZero(u.cacheRead) as real == OrElse(u.cacheRead);
    assert OrZero(u.cacheWrite) as real == OrElse(u.cacheWrite);
    RoundNear(Exact(u, rate));
  }

  lemma {:induction false} RoundNear(x: real)
    ensures x - 0.5 <= Round(x) as real <= x + 0.5
  {
  }

  /** A usage of one kind of tokens alone. */
  function Only(counter: Counter, n: nat): Tokens {
    match counter
    case Input => Tokens(n, 0, None, None, None)
    case Output => Tokens(0, n, None, None, None)
    case CacheRead => Tokens(0, 0, Some(n), None, None)
    case CacheWrite => Tokens(0, 0, None, Some(n), None)
    case Reasoning => Tokens(0, 0, None, None, Some(n))
  }

  /** What one kind of tokens alone is charged at: reasoning, which is part of the output, costs nothing of its
      own. */
  lemma {:induction false} CounterPriced(counter: Counter, n: nat, p: ModelPricing)
    ensures var rate := match counter
                        case Input => p.offPeak.input
                        case Output => p.offPeak.output
                        case CacheRead => (match p.offPeak.cacheRead case Some(r) => r case None => p.offPeak.input)
                        case CacheWrite => (match p.offPeak.cacheWrite case Some(r) => r case None => p.offPeak.input)
                        case Reasoning => 0.0;
            var cost := ComputeCost(Some(Only(counter, n)), Some(p), false).value.microUsd as real;
            n as real * rate - 0.5 <= cost <= n as real * rate + 0.5
  {
    PriceExact(Only(counter, n), p, false);
  }

  /** The price of a turn's summed counters. */
  function PriceOfTotals(responses: seq<Response>, rate: Rate): real {
    PriceOf(TotalOf(responses, Input), TotalOf(responses, Output), TotalOf(responses, CacheRead),
            TotalOf(responses, CacheWrite), rate)
  }

  function PriceOf(input: nat, output: nat, read: nat, write: nat, rate: Rate): real {
    input as real * rate.input + output as real * rate.output
    + read as real * RateOr(rate.cacheRead, rate.input) + write as real * RateOr(rate.cacheWrite, rate.input)
  }

  /** A turn on one side of the clock costs its summed counters at their rates, but for half a micro-USD for each
      response charged. */
  lemma {:induction false} TurnPriced(responses: seq<Response>, p: ModelPricing, peakTime: bool)
    requires AllAt(responses, peakTime)
    ensures var rate := match p.peak case Some(peak) => (if peakTime then peak else p.offPeak) case None => p.offPeak;
            Abs(ChargeAll(responses, Some(p)).cost as real - PriceOfTotals(responses, rate))
            <= Charged(responses) as real / 2.0
  {
    RoundingBound(responses, p);
    TotalOfSum(responses, p, peakTime);
    TotalsPriced(responses, p, RateAt(p, peakTime));
  }

  lemma {:induction false} TotalsPriced(responses: seq<Response>, p: ModelPricing, rate: Rate)
    ensures var usage := ChargeAll(responses, Some(p)).usage;
            PriceOfTotals(responses, rate) == if usage.None? then 0.0 else Exact(usage.value, rate)
  {
    var usage := ChargeAll(responses, Some(p)).usage;
    TotalIs(responses, p, Input);
    TotalIs(responses, p, Output);
    TotalIs(responses, p, CacheRead);
    TotalIs(responses, p, CacheWrite);
    if usage.None? {
      NothingCosts(rate);
    } else {
      CountsCost(usage.value, rate);
    }
  }

  lemma {:induction false} CountsCost(u: Tokens, rate: Rate)
    ensures PriceOf(u.input, u.output, OrZero(u.cacheRead), OrZero(u.cacheWrite), rate) == Exact(u, rate)
  {
  }

  lemma {:induction false} NothingCosts(rate: Rate)
    ensures PriceOf(0, 0, 0, 0, rate) == 0.0
  {
    Nothing(rate.input);
    Nothing(rate.output);
    Nothing(RateOr(rate.cacheRead, rate.input));
    Nothing(RateOr(rate.cacheWrite, rate.input));
  }

  lemma {:induction false} TotalIs(responses: seq<Response>, p: ModelPricing, counter: Counter)
    ensures TotalOf(responses, counter) == OrZero(Says(ChargeAll(responses, Some(p)).usage, counter))
  {
    UsageTotals(responses, Some(p), counter);
  }

  lemma {:induction false} Nothing(rate: real)
    ensures 0 as real * rate == 0.0
  {
  }
}
