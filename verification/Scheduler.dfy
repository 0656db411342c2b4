/** The scheduler's own operations on its rows (src/cron/schedule.ts).  The boot is the loop of
    `recordMissed`; an attempt is split where it awaits its run.
 */
module Schedulers {
  import opened Options
  import opened MissedRuns
  import AutoDisable
  import DailyBudget

  /** Why an attempt produced no run, or the row it goes on with. */
  datatype Decision = Disabled | Misconfigured | OverBudget | Go(row: Row)

  /** A row as `AutoDisable` sees it, with one attempt in flight. */
  function JobOf(row: Row, captured: nat): AutoDisable.Job { AutoDisable.Job(row.enabled, row.failures, [captured]) }

  class Scheduler {
    var rows: seq<Row>
    var missed: seq<Record>
    /** The occurrences of each schedule; one whose pattern does not parse has none. */
    const occurrences: map<string, seq<int>>
    const ceiling: nat
    const budget: Option<nat>

    constructor (rows: seq<Row>, occurrences: map<string, seq<int>>, ceiling: nat, budget: Option<nat>)
      ensures this.rows == rows && missed == []
      ensures this.occurrences == occurrences && this.ceiling == ceiling && this.budget == budget
    {
      this.rows, this.occurrences, this.ceiling, this.budget := rows, occurrences, ceiling, budget;
      missed := [];
    }

    function Occ(row: Row): seq<int> { if row.id in occurrences then occurrences[row.id] else [] }

    function BootRecords(rows: seq<Row>, now: int): seq<Record> {
      if rows == [] then []
      else BootRecords(rows[..|rows| - 1], now) + Boot(rows[|rows| - 1], Occ(rows[|rows| - 1]), now).1
    }

    lemma {:induction false} RecordsNext(all: seq<Row>, i: nat, now: int)
      requires i < |all|
      ensures BootRecords(all[..i + 1], now) == BootRecords(all[..i], now) + Boot(all[i], Occ(all[i]), now).1
    {
      assert all[..i + 1][..i] == all[..i];
    }

    /** `recordMissed`. */
    method RecordMissed(now: int)
      modifies this`rows, this`missed
      ensures |rows| == |old(rows)|
      ensures forall k | 0 <= k < |rows| :: rows[k] == Boot(old(rows)[k], Occ(old(rows)[k]), now).0
      ensures missed == old(missed) + BootRecords(old(rows), now)
    {
      ghost var all := rows;
      for i := 0 to |rows|
        invariant |rows| == |all|
        invariant forall k | 0 <= k < |all| :: rows[k] == if k < i then Boot(all[k], Occ(all[k]), now).0 else all[k]
        invariant missed == old(missed) + BootRecords(all[..i], now)
      {
        ghost var before := missed;
        RecordMissedOf(i, now);
        RecordsNext(all, i, now);
        assert missed == before + Boot(all[i], Occ(all[i]), now).1;
      }
      assert all[..|all|] == all;
    }

    /** One row of it. */
    method RecordMissedOf(k: nat, now: int)
      requires k < |rows|
      modifies this`rows, this`missed
      ensures rows == old(rows)[k := Boot(old(rows)[k], Occ(old(rows)[k]), now).0]
      ensures missed == old(missed) + Boot(old(rows)[k], Occ(old(rows)[k]), now).1
    {
      var row := rows[k];
      if !row.enabled {
        return;
      }
      var since := if row.lastRunAt.Some? then row.lastRunAt.value else row.createdAt;
      if since <= 0 {
        rows := rows[k := row.(lastRunAt := Some(now))];
        return;
      }
      var passed := Passed(Occ(row), since, now, MISSED_CAP);
      if passed == [] {
        return;
      }
      var last := passed[|passed| - 1];
      missed := missed + [Record(row.id, since, last, |passed|)];
      rows := rows[k := row.(lastRunAt := Some(last), lastState := Missed)];
    }

    /** `attempt`, up to the run. */
    method BeginAttempt(k: nat, force: bool, configured: bool, day: DailyBudget.Day, now: int) returns (d: Decision)
      requires k < |rows|
      modifies this`rows
      ensures d.Disabled? <==> !force && !old(rows)[k].enabled
      ensures d.Misconfigured? <==> !configured && (force || old(rows)[k].enabled)
      ensures d.OverBudget?
              <==> configured && !force && old(rows)[k].enabled && budget.Some? && DailyBudget.Blocked(day, budget.value)
      ensures d.Go? ==> d.row == old(rows)[k]
      ensures rows == if d.Misconfigured? || d.OverBudget?
                      then old(rows)[k := Attempt(old(rows)[k], now).(lastState := Missed)] else old(rows)
    {
      var row := rows[k];
      if !force && !row.enabled {
        return Disabled;
      }
      if !configured {
        rows := rows[k := row.(lastState := Missed, lastRunAt := Some(now))];
        return Misconfigured;
      }
      if !force && budget.Some? && (day.unpriced > 0 || day.spent >= budget.value) {
        rows := rows[k := row.(lastState := Missed, lastRunAt := Some(now))];
        return OverBudget;
      }
      return Go(row);
    }

    /** The run ended well. */
    method EndDone(k: nat, ghost captured: nat, now: int)
      requires k < |rows|
      modifies this`rows
      ensures |rows| == |old(rows)| && (forall i | 0 <= i < |rows| && i != k :: rows[i] == old(rows)[i])
      ensures var job := AutoDisable.Do(JobOf(old(rows)[k], captured), AutoDisable.End(0, true), ceiling);
              rows[k] == Attempt(old(rows)[k], now).(enabled := job.enabled, failures := job.failures, lastState := Done)
    {
      rows := rows[k := rows[k].(failures := 0, lastRunAt := Some(now), lastState := Done)];
    }

    /** `countFailure`, with the row as the attempt read it when it began. */
    method CountFailure(k: nat, row: Row, now: int)
      requires k < |rows|
      modifies this`rows
      ensures |rows| == |old(rows)| && (forall i | 0 <= i < |rows| && i != k :: rows[i] == old(rows)[i])
      ensures var job := AutoDisable.Do(JobOf(old(rows)[k], row.failures), AutoDisable.End(0, false), ceiling);
              rows[k] == Attempt(old(rows)[k], now).(enabled := job.enabled, failures := job.failures, lastState := Failed)
    {
      var failures := row.failures + 1;
      var disable := failures >= ceiling;
      var was := rows[k];
      rows := rows[k := was.(failures := failures, lastRunAt := Some(now), lastState := Failed,
                             enabled := if disable then false else was.enabled)];
    }
  }
}
