/** Missed-run accounting (src/cron/schedule.ts:67-87, 158-195): what a boot records of the times a schedule
    should have fired while the process was down.

    A schedule is the strictly increasing list of its occurrence times, up to some time not before the
    present; croner finds them.
 */
module MissedRuns {
  import opened Options

  const MISSED_CAP := 100

  ghost predicate Schedule(occ: seq<int>) { forall i, j | 0 <= i < j < |occ| :: occ[i] < occ[j] }

  /** The first `cap` occurrences after `since`. */
  function NextRuns(occ: seq<int>, since: int, cap: nat): seq<int> {
    if occ == [] || cap == 0 then []
    else if occ[0] <= since then NextRuns(occ[1..], since, cap)
    else [occ[0]] + NextRuns(occ[1..], since, cap - 1)
  }

  function UpTo(times: seq<int>, now: int): seq<int> {
    if times == [] then [] else (if times[0] <= now then [times[0]] else []) + UpTo(times[1..], now)
  }

  function Passed(occ: seq<int>, since: int, now: int, cap: nat): seq<int> { UpTo(NextRuns(occ, since, cap), now) }

  /** How many occurrences lie in `(lo, hi]`. */
  function Count(occ: seq<int>, lo: int, hi: int): nat {
    if occ == [] then 0 else (if lo < occ[0] <= hi then 1 else 0) + Count(occ[1..], lo, hi)
  }

  function Min(a: nat, b: nat): nat { if a < b then a else b }

  lemma {:induction false} CountSplit(occ: seq<int>, lo: int, mid: int, hi: int)
    requires lo <= mid <= hi
    ensures Count(occ, lo, hi) == Count(occ, lo, mid) + Count(occ, mid, hi)
  {
    if occ != [] {
      CountSplit(occ[1..], lo, mid, hi);
    }
  }

  lemma {:induction false} CountNone(occ: seq<int>, lo: int, hi: int)
    requires forall t | t in occ :: t <= lo || hi < t
    ensures Count(occ, lo, hi) == 0
  {
    if occ != [] {
      assert occ[0] in occ && forall t | t in occ[1..] :: t in occ;
      CountNone(occ[1..], lo, hi);
    }
  }

  lemma {:induction false} NonePassed(occ: seq<int>, since: int, now: int, cap: nat)
    requires forall t | t in occ :: now < t
    ensures Passed(occ, since, now, cap) == []
  {
    if occ != [] && cap > 0 {
      assert occ[0] in occ && forall t | t in occ[1..] :: t in occ;
      if occ[0] <= since {
        NonePassed(occ[1..], since, now, cap);
      } else {
        NonePassed(occ[1..], since, now, cap - 1);
        var rest := NextRuns(occ[1..], since, cap - 1);
        assert ([occ[0]] + rest)[1..] == rest;
      }
    }
  }

  /** A boot sees the pending occurrences up to the cap, and its last one is where it stops counting. */
  lemma {:induction false} PassedIs(occ: seq<int>, since: int, now: int, cap: nat)
    requires Schedule(occ)
    ensures var p := Passed(occ, since, now, cap);
            && |p| == Min(cap, Count(occ, since, now))
            && (p != [] ==> since < p[|p| - 1] <= now && Count(occ, since, p[|p| - 1]) == |p|)
  {
    if occ != [] && cap > 0 {
      var t, rest := occ[0], occ[1..];
      if t <= since {
        PassedIs(rest, since, now, cap);
      } else {
        var later := NextRuns(rest, since, cap - 1);
        assert ([t] + later)[1..] == later;
        assert forall x | x in rest :: t < x;
        if t <= now {
          PassedIs(rest, since, now, cap - 1);
          var p := Passed(rest, since, now, cap - 1);
          assert Passed(occ, since, now, cap) == [t] + p;
          if p == [] {
            CountNone(rest, since, t);
          } else if p[|p| - 1] <= t {
            CountNone(rest, since, p[|p| - 1]);
            assert false;
          }
        } else {
          NonePassed(rest, since, now, cap - 1);
          CountNone(rest, since, now);
        }
      }
    }
  }

  // ---- One row -------------------------------------------------------------------------------

  datatype State = Never | Done | Failed | Missed

  datatype Row = Row(
    id: string, enabled: bool, failures: nat, lastRunAt: Option<int>, createdAt: int, lastState: State)

  /** The times a missed record accounts for: `count` of them, after `after` and up to `last`. */
  datatype Record = Record(cron: string, after: int, last: int, count: nat)

  function Since(row: Row): int { if row.lastRunAt.Some? then row.lastRunAt.value else row.createdAt }

  function Boot(row: Row, occ: seq<int>, now: int): (Row, seq<Record>) {
    if !row.enabled then (row, [])
    else if Since(row) <= 0 then (row.(lastRunAt := Some(now)), [])
    else
      var passed := Passed(occ, Since(row), now, MISSED_CAP);
      if passed == [] then (row, [])
      else
        (row.(lastRunAt := Some(passed[|passed| - 1]), lastState := Missed),
         [Record(row.id, Since(row), passed[|passed| - 1], |passed|)])
  }

  /** An attempt that runs or is skipped, at its end. */
  function Attempt(row: Row, now: int): Row { row.(lastRunAt := Some(now)) }

  // ---- Boots and attempts over time ----------------------------------------------------------

  datatype Event = Booted(at: int) | Attempted(at: int)

  /** A row with what has been recorded of it, and how many of its occurrences an attempt or a first boot
      stepped over. */
  datatype History = History(row: Row, records: seq<Record>, steppedOver: nat)

  function Next(h: History, occ: seq<int>, event: Event): History {
    match event
    case Attempted(at) =>
      History(Attempt(h.row, at), h.records, h.steppedOver + Count(occ, Since(h.row), at))
    case Booted(at) =>
      var (row, records) := Boot(h.row, occ, at);
      History(row, h.records + records,
              h.steppedOver + if records == [] then Count(occ, Since(h.row), Since(row)) else 0)
  }

  function After(h: History, occ: seq<int>, events: seq<Event>): History
    decreases |events|
  {
    if events == [] then h else After(Next(h, occ, events[0]), occ, events[1..])
  }

  function Total(records: seq<Record>): nat {
    if records == [] then 0 else Total(records[..|records| - 1]) + records[|records| - 1].count
  }

  /** The windows of the records follow one another within `(from, to]`, and each counts exactly its own
      occurrences. */
  ghost predicate Disjoint(records: seq<Record>, occ: seq<int>, from: int, to: int) {
    && (forall i | 0 <= i < |records| ::
          from <= records[i].after < records[i].last <= to
          && records[i].count == Count(occ, records[i].after, records[i].last))
    && forall i, j | 0 <= i < j < |records| :: records[i].last <= records[j].after
  }

  /** A clock that does not run backwards. */
  predicate Ticks(clock: int, events: seq<Event>)
    decreases |events|
  {
    events == [] || (clock <= events[0].at && Ticks(events[0].at, events[1..]))
  }

  /** What holds of a row whose time of creation or last run was `from`. */
  ghost predicate Accounted(h: History, occ: seq<int>, from: int) {
    && from <= Since(h.row)
    && Disjoint(h.records, occ, from, Since(h.row))
    && Count(occ, from, Since(h.row)) == Total(h.records) + h.steppedOver
  }

  lemma {:induction false} BootAccounts(h: History, occ: seq<int>, from: int, at: int)
    requires Schedule(occ) && Accounted(h, occ, from) && Since(h.row) <= at
    ensures var h' := Next(h, occ, Booted(at));
            Accounted(h', occ, from) && Since(h.row) <= Since(h'.row) <= at
  {
    var since := Since(h.row);
    var (row, records) := Boot(h.row, occ, at);
    PassedIs(occ, since, at, MISSED_CAP);
    CountSplit(occ, from, since, Since(row));
    if records == [] {
      assert h.records + records == h.records;
    } else {
      RecordAccounts(h, occ, from, records[0]);
    }
  }

  lemma {:induction false} RecordAccounts(h: History, occ: seq<int>, from: int, r: Record)
    requires Accounted(h, occ, from)
    requires r.after == Since(h.row) < r.last && r.count == Count(occ, r.after, r.last)
    ensures Disjoint(h.records + [r], occ, from, r.last)
    ensures Total(h.records + [r]) + h.steppedOver == Count(occ, from, r.last)
  {
    CountSplit(occ, from, r.after, r.last);
    assert (h.records + [r])[..|h.records|] == h.records;
  }

  lemma {:induction false} AttemptAccounts(h: History, occ: seq<int>, from: int, at: int)
    requires Accounted(h, occ, from) && Since(h.row) <= at
    ensures var h' := Next(h, occ, Attempted(at));
            Accounted(h', occ, from) && Since(h.row) <= Since(h'.row) <= at
  {
    CountSplit(occ, from, Since(h.row), at);
  }

  /** Over any sequence of boots and attempts the last accounted time never moves back, the windows of the
      missed records are disjoint, and every occurrence up to that time is either in exactly one of them or
      was stepped over by an attempt. */
  lemma {:induction false} EveryOccurrenceOnce(h: History, occ: seq<int>, from: int, clock: int, events: seq<Event>)
    requires Schedule(occ) && Accounted(h, occ, from) && Since(h.row) <= clock && Ticks(clock, events)
    ensures var h' := After(h, occ, events);
            Accounted(h', occ, from) && Since(h.row) <= Since(h'.row)
    decreases |events|
  {
    if events != [] {
      var at := events[0].at;
      if events[0].Booted? {
        BootAccounts(h, occ, from, at);
      } else {
        AttemptAccounts(h, occ, from, at);
      }
      EveryOccurrenceOnce(Next(h, occ, events[0]), occ, from, at, events[1..]);
    }
  }

  // ---- Boots at one instant ------------------------------------------------------------------

  function Boots(now: int, k: nat): seq<Event> { seq(k, i => Booted(now)) }

  lemma {:induction false} BootsNext(now: int, k: nat)
    requires k > 0
    ensures Boots(now, k)[0] == Booted(now) && Boots(now, k)[1..] == Boots(now, k - 1)
  {
  }

  lemma {:induction false} TotalOne(records: seq<Record>, r: Record)
    ensures Total(records + [r]) == Total(records) + r.count
  {
  }

  /** With N occurrences pending, k boots at one instant record exactly the first 100 k of them. */
  lemma {:induction false} BootsRecord(h: History, occ: seq<int>, now: int, k: nat)
    requires Schedule(occ) && h.row.enabled && 0 < Since(h.row) <= now
    ensures var h' := After(h, occ, Boots(now, k));
            && Total(h'.records) - Total(h.records) == Min(MISSED_CAP * k, Count(occ, Since(h.row), now))
            && (MISSED_CAP * k >= Count(occ, Since(h.row), now) ==> Boot(h'.row, occ, now) == (h'.row, []))
    decreases k
  {
    var since := Since(h.row);
    PassedIs(occ, since, now, MISSED_CAP);
    if k > 0 {
      BootsNext(now, k);
      var h1 := Next(h, occ, Booted(now));
      var (row, records) := Boot(h.row, occ, now);
      if records == [] {
        assert h.records + records == h.records;
      } else {
        TotalOne(h.records, records[0]);
        CountSplit(occ, since, Since(row), now);
      }
      BootsRecord(h1, occ, now, k - 1);
    }
  }

  // ---- What a boot leaves alone --------------------------------------------------------------

  predicate OnlyBoots(events: seq<Event>) { events == [] || (events[0].Booted? && OnlyBoots(events[1..])) }

  /** A schedule that is switched off misses nothing, however often and when the process boots. */
  lemma {:induction false} DisabledMissesNothing(h: History, occ: seq<int>, events: seq<Event>)
    requires !h.row.enabled && OnlyBoots(events)
    ensures After(h, occ, events).row == h.row && After(h, occ, events).records == h.records
    decreases |events|
  {
    if events != [] {
      assert h.records + [] == h.records;
      DisabledMissesNothing(Next(h, occ, events[0]), occ, events[1..]);
    }
  }

  /** A row without a time to count from misses nothing at its first boot: counting begins there. */
  lemma {:induction false} FirstBootMissesNothing(h: History, occ: seq<int>, now: int, k: nat)
    requires Schedule(occ) && h.row.enabled && Since(h.row) <= 0 < now && k > 0
    ensures var h' := After(h, occ, Boots(now, k));
            h'.records == h.records && Since(h'.row) == now && h'.row == h.row.(lastRunAt := Some(now))
  {
    BootsNext(now, k);
    var h1 := Next(h, occ, Booted(now));
    assert h.records + [] == h.records;
    NothingPending(h1, occ, now, k - 1);
  }

  lemma {:induction false} NothingPending(h: History, occ: seq<int>, now: int, k: nat)
    requires Schedule(occ) && h.row.enabled && 0 < Since(h.row) == now
    ensures After(h, occ, Boots(now, k)).records == h.records && After(h, occ, Boots(now, k)).row == h.row
    decreases k
  {
    if k > 0 {
      BootsNext(now, k);
      PassedIs(occ, now, now, MISSED_CAP);
      assert Count(occ, now, now) == 0 by { NoneBetween(occ, now); }
      assert h.records + [] == h.records;
      assert Next(h, occ, Booted(now)).row == h.row;
      NothingPending(Next(h, occ, Booted(now)), occ, now, k - 1);
    }
  }

  lemma {:induction false} NoneBetween(occ: seq<int>, t: int)
    ensures Count(occ, t, t) == 0
  {
    if occ != [] {
      NoneBetween(occ[1..], t);
    }
  }

  /** Whatever a boot records is about its row, from where counting stood, and marks the row; nothing else of the
      row changes but where counting goes on. */
  lemma {:induction false} BootMarks(row: Row, occ: seq<int>, now: int)
    ensures var (row', records) := Boot(row, occ, now);
            && row' == row.(lastRunAt := row'.lastRunAt, lastState := if records == [] then row.lastState else Missed)
            && |records| <= 1
            && (records != [] ==>
                  row.enabled && records[0].cron == row.id && records[0].after == Since(row)
                  && row'.lastRunAt == Some(records[0].last) && 0 < records[0].count <= 100)
  {
    UpToCap(occ, Since(row), now, MISSED_CAP);
  }

  lemma {:induction false} UpToCap(occ: seq<int>, since: int, now: int, cap: nat)
    ensures |Passed(occ, since, now, cap)| <= cap
  {
    NextRunsCap(occ, since, cap);
    UpToShortens(NextRuns(occ, since, cap), now);
  }

  lemma {:induction false} NextRunsCap(occ: seq<int>, since: int, cap: nat)
    ensures |NextRuns(occ, since, cap)| <= cap
  {
    if occ != [] && cap > 0 {
      NextRunsCap(occ[1..], since, if occ[0] <= since then cap else cap - 1);
    }
  }

  lemma {:induction false} UpToShortens(times: seq<int>, now: int)
    ensures |UpTo(times, now)| <= |times|
  {
    if times != [] {
      UpToShortens(times[1..], now);
    }
  }
}
