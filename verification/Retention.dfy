/** Backup retention: which snapshots `pruneSnapshots` leaves behind (src/backup.ts).

    Times are local milliseconds, that is, UTC plus one fixed offset, so a calendar day and a
    calendar week (Monday to Sunday) are integer divisions of time.  A backup directory is the set
    of its snapshots; no two of them carry the same time.
 */
module Retention {

  const HOUR := 3_600_000
  const DAY := 24 * HOUR

  /** How long the first snapshot of a day, and the first of a week, is kept. */
  const DAILY := 30 * DAY
  const WEEKLY := 12 * 7 * DAY

  datatype Snapshot = Snapshot(file: string, at: int)

  function Day(at: int): int { at / DAY }

  /** 1970-01-01 was a Thursday, three days after the Monday its week starts on. */
  function Week(at: int): int { (Day(at) + 3) / 7 }

  function WeekStart(week: int): int { (7 * week - 3) * DAY }

  function WeekEnd(week: int): int { WeekStart(week + 1) - 1 }

  lemma {:induction false} WeekBounds(at: int)
    ensures WeekStart(Week(at)) <= at <= WeekEnd(Week(at))
  {
  }

  lemma {:induction false} SameDay(a: int, b: int)
    requires Day(a) == Day(b)
    ensures -DAY < a - b < DAY
  {
  }

  ghost predicate DistinctTimes(all: set<Snapshot>) {
    forall r, s | r in all && s in all && r.at == s.at :: r == s
  }

  ghost predicate FirstOfDay(all: set<Snapshot>, s: Snapshot) {
    forall r | r in all && Day(r.at) == Day(s.at) :: s.at <= r.at
  }

  ghost predicate FirstOfWeek(all: set<Snapshot>, s: Snapshot) {
    forall r | r in all && Week(r.at) == Week(s.at) :: s.at <= r.at
  }

  /** No earlier first-of-day snapshot of the same week is still inside the weekly window. */
  ghost predicate WeekUnclaimed(all: set<Snapshot>, s: Snapshot, now: int) {
    forall r | r in all && r.at < s.at && FirstOfDay(all, r) && Week(r.at) == Week(s.at) :: now - r.at > WEEKLY
  }

  /** The policy: everything for a day, then one a day for 30 days, then one a week for 12 weeks. */
  ghost predicate Keeps(all: set<Snapshot>, s: Snapshot, now: int) {
    || now - s.at <= DAY
    || (FirstOfDay(all, s) && (now - s.at <= DAILY || (now - s.at <= WEEKLY && WeekUnclaimed(all, s, now))))
  }

  ghost function Survivors(all: set<Snapshot>, now: int): set<Snapshot> {
    set s | s in all && Keeps(all, s, now)
  }

  // ---- What one prune leaves -----------------------------------------------------------------

  /** Every day has an earliest snapshot. */
  lemma {:induction false} EarliestOfDayExists(all: set<Snapshot>, s: Snapshot) returns (first: Snapshot)
    requires s in all
    ensures first in all && Day(first.at) == Day(s.at) && first.at <= s.at && FirstOfDay(all, first)
    decreases s.at - Day(s.at) * DAY
  {
    if FirstOfDay(all, s) {
      first := s;
    } else {
      var r :| r in all && Day(r.at) == Day(s.at) && r.at < s.at;
      first := EarliestOfDayExists(all, r);
    }
  }

  /** Every week that has a first-of-day snapshot inside the weekly window has an earliest such one. */
  lemma {:induction false} WeekKeeperExists(all: set<Snapshot>, s: Snapshot, now: int) returns (keeper: Snapshot)
    requires s in all && FirstOfDay(all, s) && now - s.at <= WEEKLY
    ensures keeper in all && FirstOfDay(all, keeper) && Week(keeper.at) == Week(s.at) && keeper.at <= s.at
    ensures now - keeper.at <= WEEKLY && WeekUnclaimed(all, keeper, now)
    decreases s.at - WeekStart(Week(s.at))
  {
    if WeekUnclaimed(all, s, now) {
      keeper := s;
    } else {
      var r :| r in all && r.at < s.at && FirstOfDay(all, r) && Week(r.at) == Week(s.at) && now - r.at <= WEEKLY;
      WeekBounds(r.at);
      keeper := WeekKeeperExists(all, r, now);
    }
  }

  /** After a prune, snapshots older than a day lie on different days and those older than 30 days
      in different weeks, and nothing is older than 12 weeks. */
  lemma {:induction false} SurvivorsAreSparse(all: set<Snapshot>, now: int, r: Snapshot, s: Snapshot)
    requires DistinctTimes(all)
    requires r in Survivors(all, now) && s in Survivors(all, now) && r != s
    ensures now - s.at <= WEEKLY
    ensures now - r.at > DAY && now - s.at > DAY ==> Day(r.at) != Day(s.at)
    ensures now - r.at > DAILY && now - s.at > DAILY ==> Week(r.at) != Week(s.at)
  {
  }

  // ---- Pruning twice -------------------------------------------------------------------------

  /** A snapshot that a prune at `t1` drops and a prune at `t2` alone would keep: at `t1` its week is
      held by an earlier snapshot, which by `t2` has left the weekly window while this one has not. */
  ghost predicate WeekHandedOver(all: set<Snapshot>, t1: int, t2: int, keeper: Snapshot, s: Snapshot) {
    && keeper in all && s in all && keeper.at < s.at
    && FirstOfDay(all, keeper) && FirstOfDay(all, s) && Week(keeper.at) == Week(s.at)
    && t1 - keeper.at <= WEEKLY < t2 - keeper.at
    && t1 - s.at > DAILY && t2 - s.at <= WEEKLY
  }

  lemma {:induction false} FirstsSurvive(all: set<Snapshot>, t1: int, s: Snapshot)
    requires s in Survivors(all, t1) && FirstOfDay(Survivors(all, t1), s)
    ensures FirstOfDay(all, s)
  {
    if t1 - s.at <= DAY {
      var first := EarliestOfDayExists(all, s);
      SameDay(s.at, first.at);
      assert t1 - first.at <= DAILY;
      assert first in Survivors(all, t1);
    }
  }

  /** Pruning at `t1` and then at `t2` leaves exactly what one prune at `t2` leaves, if and only if no
      week is handed over between the two. */
  lemma {:induction false} PruneTwiceExact(all: set<Snapshot>, t1: int, t2: int)
    requires DistinctTimes(all) && t1 <= t2
    ensures Survivors(Survivors(all, t1), t2) == Survivors(all, t2)
            <==> !exists keeper, s :: WeekHandedOver(all, t1, t2, keeper, s)
  {
    if keeper, s :| WeekHandedOver(all, t1, t2, keeper, s) {
      HandOverShows(all, t1, t2, keeper, s);
    } else {
      forall s: Snapshot
        ensures s in Survivors(Survivors(all, t1), t2) <==> s in Survivors(all, t2)
      {
        if s in all {
          NoHandOverAgrees(all, t1, t2, s);
        }
      }
    }
  }

  lemma {:induction false} HandOverShows(all: set<Snapshot>, t1: int, t2: int, keeper: Snapshot, s: Snapshot)
    requires DistinctTimes(all) && t1 <= t2 && WeekHandedOver(all, t1, t2, keeper, s)
    ensures exists x :: x in Survivors(all, t2) && x !in Survivors(all, t1)
    ensures Survivors(Survivors(all, t1), t2) != Survivors(all, t2)
  {
    var x := WeekKeeperExists(all, s, t2);
    assert keeper.at < x.at;
    assert t2 - x.at > DAILY;
    assert t1 - x.at > DAILY;
    assert !WeekUnclaimed(all, x, t1);
    assert x in Survivors(all, t2) && x !in Survivors(all, t1);
  }

  lemma {:induction false} NoHandOverAgrees(all: set<Snapshot>, t1: int, t2: int, s: Snapshot)
    requires DistinctTimes(all) && t1 <= t2 && s in all
    requires !exists keeper, x :: WeekHandedOver(all, t1, t2, keeper, x)
    ensures s in Survivors(Survivors(all, t1), t2) <==> s in Survivors(all, t2)
  {
    var mid := Survivors(all, t1);
    if s in Survivors(all, t2) {
      if s !in mid {
        var keeper := WeekKeeperExists(all, s, t1);
        assert WeekHandedOver(all, t1, t2, keeper, s);
      }
      forall r | r in mid && r.at < s.at && FirstOfDay(mid, r) && Week(r.at) == Week(s.at) && t2 - s.at > DAILY
        ensures t2 - r.at > WEEKLY
      {
        FirstsSurvive(all, t1, r);
      }
    }
    if s in Survivors(mid, t2) && t2 - s.at > DAY {
      FirstsSurvive(all, t1, s);
      if t2 - s.at > DAILY {
        forall r | r in all && r.at < s.at && FirstOfDay(all, r) && Week(r.at) == Week(s.at)
          ensures t2 - r.at > WEEKLY
        {
          if t2 - r.at <= WEEKLY {
            if r !in mid {
              var keeper := WeekKeeperExists(all, r, t1);
              assert t1 - r.at > DAILY;
              assert keeper in mid;
              assert FirstOfDay(mid, keeper);
              assert WeekHandedOver(all, t1, t2, keeper, r);
            }
          }
        }
      }
    }
  }

  /** Pruning again at the same instant deletes nothing. */
  lemma {:induction false} PruneIdempotent(all: set<Snapshot>, now: int)
    requires DistinctTimes(all)
    ensures Survivors(Survivors(all, now), now) == Survivors(all, now)
  {
  }

  // ---- Whole runs of backups and prunes ------------------------------------------------------

  /** Everything ever backed up, what is in the directory, and the time of the last prune. */
  datatype History = History(taken: set<Snapshot>, store: set<Snapshot>, pruned: int)

  datatype Op = Backup(snapshot: Snapshot) | Prune(now: int)

  ghost predicate CanDo(h: History, op: Op) {
    match op
    case Backup(s) => h.pruned <= s.at && forall r | r in h.taken :: r.at < s.at
    case Prune(now) => h.pruned <= now
  }

  ghost function Do(h: History, op: Op): History {
    match op
    case Backup(s) => History(h.taken + {s}, h.store + {s}, h.pruned)
    case Prune(now) => History(h.taken, Survivors(h.store, now), now)
  }

  ghost predicate CanRun(h: History, ops: seq<Op>)
    decreases |ops|
  {
    ops == [] || (CanDo(h, ops[0]) && CanRun(Do(h, ops[0]), ops[1..]))
  }

  ghost function Run(h: History, ops: seq<Op>): History
    decreases |ops|
  {
    if ops == [] then h else Run(Do(h, ops[0]), ops[1..])
  }

  function Start(at: int): History { History({}, {}, at) }

  /** The snapshots the policy promises to still have at `now`: those of the last day, the earliest ever
      taken on a day until it is 30 days old, and the earliest of a week until it is 84 days old. */
  ghost predicate Owed(taken: set<Snapshot>, s: Snapshot, now: int) {
    || now - s.at <= DAY
    || (FirstOfDay(taken, s) && now - s.at <= DAILY)
    || (FirstOfWeek(taken, s) && now - s.at <= WEEKLY)
  }

  /** What every run of backups and prunes keeps true. */
  ghost predicate Covered(h: History) {
    && h.store <= h.taken
    && DistinctTimes(h.taken)
    && (forall s | s in h.taken && Owed(h.taken, s, h.pruned) :: s in h.store)
    && (forall s | s in h.store && h.pruned - s.at > DAY :: FirstOfDay(h.taken, s))
  }

  /** Under the invariant, being first of a day in the directory is being first of all ever taken. */
  lemma {:induction false} FirstInStore(h: History, s: Snapshot)
    requires Covered(h) && s in h.store
    ensures FirstOfDay(h.store, s) <==> FirstOfDay(h.taken, s)
  {
    if FirstOfDay(h.store, s) && h.pruned - s.at <= DAY {
      var first := EarliestOfDayExists(h.taken, s);
      SameDay(s.at, first.at);
      assert first in h.store;
    }
  }

  lemma {:induction false} BackupKeepsCovered(h: History, s: Snapshot)
    requires Covered(h) && CanDo(h, Backup(s))
    ensures Covered(Do(h, Backup(s)))
  {
  }

  lemma {:induction false} PruneKeepsOwed(h: History, now: int, s: Snapshot)
    requires Covered(h) && CanDo(h, Prune(now)) && s in h.taken && Owed(h.taken, s, now)
    ensures s in Survivors(h.store, now)
  {
  }

  lemma {:induction false} PruneKeepsCovered(h: History, now: int)
    requires Covered(h) && CanDo(h, Prune(now))
    ensures Covered(Do(h, Prune(now)))
  {
    forall s | s in h.taken && Owed(h.taken, s, now) ensures s in Survivors(h.store, now) {
      PruneKeepsOwed(h, now, s);
    }
    forall s | s in Survivors(h.store, now) && now - s.at > DAY ensures FirstOfDay(h.taken, s) {
      FirstInStore(h, s);
    }
  }

  lemma {:induction false} DoKeepsCovered(h: History, op: Op)
    requires Covered(h) && CanDo(h, op)
    ensures Covered(Do(h, op))
  {
    match op
    case Backup(s) => BackupKeepsCovered(h, s);
    case Prune(now) => PruneKeepsCovered(h, now);
  }

  lemma {:induction false} RunKeepsCovered(h: History, ops: seq<Op>)
    requires Covered(h) && CanRun(h, ops)
    ensures Covered(Run(h, ops))
    ensures h.taken <= Run(h, ops).taken
    decreases |ops|
  {
    if ops != [] {
      DoKeepsCovered(h, ops[0]);
      RunKeepsCovered(Do(h, ops[0]), ops[1..]);
    }
  }

  /** Over any run of backups and prunes, a prune at `now` still leaves everything owed at `now`. */
  lemma {:induction false} NoCoverageLost(ops: seq<Op>, start: int, now: int, s: Snapshot)
    requires CanRun(Start(start), ops) && Run(Start(start), ops).pruned <= now
    ensures var h := Run(Start(start), ops);
            s in h.taken && Owed(h.taken, s, now) ==> s in Survivors(h.store, now)
  {
    RunKeepsCovered(Start(start), ops);
    var h := Run(Start(start), ops);
    if s in h.taken && Owed(h.taken, s, now) {
      PruneKeepsOwed(h, now, s);
    }
  }

  /** A week that lies wholly on one side of the 84-day edge. */
  predicate OneSided(week: int, now: int) {
    now - WeekStart(week) <= WEEKLY || now - WeekEnd(week) > WEEKLY
  }

  /** Path independence over whole runs.  However often the directory was pruned before, a prune at
      `now` leaves of every one-sided week exactly what a single prune at `now` of everything ever
      backed up would leave. */
  lemma {:induction false} PathIndependent(ops: seq<Op>, start: int, now: int, s: Snapshot)
    requires CanRun(Start(start), ops) && Run(Start(start), ops).pruned <= now
    requires OneSided(Week(s.at), now)
    ensures var h := Run(Start(start), ops);
            s in Survivors(h.store, now) <==> s in Survivors(h.taken, now)
  {
    RunKeepsCovered(Start(start), ops);
    PathIndependentStep(Run(Start(start), ops), now, s);
  }

  lemma {:induction false} PathIndependentStep(h: History, now: int, s: Snapshot)
    requires Covered(h) && h.pruned <= now && OneSided(Week(s.at), now)
    ensures s in Survivors(h.store, now) <==> s in Survivors(h.taken, now)
  {
    WeekBounds(s.at);
    if s in h.store {
      FirstInStore(h, s);
    }
    if s in h.taken && now - s.at > DAILY && now - s.at <= WEEKLY && FirstOfDay(h.taken, s) {
      var first := EarliestOfWeekExists(h.taken, s);
      WeekBounds(first.at);
      assert now - first.at <= WEEKLY;
      assert first in h.store;
      if s != first {
        assert first.at < s.at;
        FirstInStore(h, first);
        assert !WeekUnclaimed(h.taken, s, now) && !WeekUnclaimed(h.store, s, now);
      }
    }
  }

  lemma {:induction false} EarliestOfWeekExists(all: set<Snapshot>, s: Snapshot) returns (first: Snapshot)
    requires s in all
    ensures first in all && Week(first.at) == Week(s.at) && first.at <= s.at
    ensures FirstOfWeek(all, first) && FirstOfDay(all, first)
    decreases s.at - WeekStart(Week(s.at))
  {
    if FirstOfWeek(all, s) {
      first := s;
    } else {
      var r :| r in all && Week(r.at) == Week(s.at) && r.at < s.at;
      WeekBounds(r.at);
      first := EarliestOfWeekExists(all, r);
    }
  }

  /** The restriction to one-sided weeks is needed: a Monday and a Wednesday snapshot of one week, pruned
      on day 40 and again on day 89, lose their week, while a single prune on day 89 keeps Wednesday's. */
  lemma {:induction false} StraddlingWeekDiffers()
    ensures var mon := Snapshot("mon", 4 * DAY);
            var wed := Snapshot("wed", 6 * DAY);
            var all := {mon, wed};
            && Survivors(all, 89 * DAY) == {wed}
            && Survivors(Survivors(all, 40 * DAY), 89 * DAY) == {}
  {
  }

  // ---- The pruning loop ----------------------------------------------------------------------

  function Filter(all: seq<Snapshot>, keep: set<string>): seq<Snapshot> {
    if all == [] then [] else
      Filter(all[..|all| - 1], keep) + if all[|all| - 1].file in keep then [all[|all| - 1]] else []
  }

  function FilesOutside(all: seq<Snapshot>, keep: set<string>): seq<string> {
    if all == [] then [] else
      FilesOutside(all[..|all| - 1], keep) + if all[|all| - 1].file in keep then [] else [all[|all| - 1].file]
  }

  function Files(all: set<Snapshot>): set<string> { set s | s in all :: s.file }

  function Elements(all: seq<Snapshot>): set<Snapshot> { set s | s in all }

  /** What `listSnapshots` returns: ascending times, distinct file names. */
  predicate Precedes(r: Snapshot, s: Snapshot) { r.at < s.at && r.file != s.file }

  ghost predicate Listing(all: seq<Snapshot>) {
    forall i, j | 0 <= i < j < |all| :: Precedes(all[i], all[j])
  }

  lemma {:induction false} FilterElements(all: seq<Snapshot>, keep: set<string>)
    ensures forall s :: s in Filter(all, keep) <==> s in all && s.file in keep
  {
    if all != [] {
      FilterElements(all[..|all| - 1], keep);
      assert all == all[..|all| - 1] + [all[|all| - 1]];
    }
  }

  lemma {:induction false} FilterListing(all: seq<Snapshot>, keep: set<string>)
    requires Listing(all)
    ensures Listing(Filter(all, keep))
  {
    if all != [] {
      var init, last := all[..|all| - 1], all[|all| - 1];
      FilterListing(init, keep);
      FilterElements(init, keep);
      var rest := Filter(init, keep);
      forall i | 0 <= i < |rest| ensures Precedes(rest[i], last) {
        assert rest[i] in init;
        var k :| 0 <= k < |init| && init[k] == rest[i];
        assert all[k] == rest[i];
      }
    }
  }

  lemma {:induction false} OutsideKept(all: seq<Snapshot>, keep: set<string>)
    ensures forall f | f in keep :: f !in FilesOutside(all, keep)
  {
    if all != [] {
      OutsideKept(all[..|all| - 1], keep);
    }
  }

  /** A backup directory, seen through `listSnapshots`. */
  class BackupDir {
    var listing: seq<Snapshot>

    ghost predicate Valid()
      reads this
    {
      Listing(listing)
    }

    ghost function Contents(): set<Snapshot>
      reads this
    {
      Elements(listing)
    }

    constructor ()
      ensures Valid() && Contents() == {}
    {
      listing := [];
    }

    /** `pruneSnapshots`: one ascending pass fills `kept`, a second deletes the rest. */
    method Prune(now: int) returns (removed: seq<string>)
      requires Valid()
      modifies this
      ensures Valid()
      ensures Contents() == Survivors(old(Contents()), now)
      ensures listing == Filter(old(listing), Files(Survivors(old(Contents()), now)))
      ensures removed == FilesOutside(old(listing), Files(Survivors(old(Contents()), now)))
    {
      var kept := MarkKept(listing, now);
      removed := DeleteOthers(kept);
      KeptAreSurvivors(old(listing), now);
      FilterListing(old(listing), kept);
      FilesIdentify(old(listing), Survivors(old(Contents()), now));
    }

    /** `backupNow`: a snapshot newer than all there are, then a prune at its time.  The snapshot itself is
        always kept. */
    method BackupNow(s: Snapshot) returns (pruned: seq<string>)
      requires Valid()
      requires forall r | r in listing :: Precedes(r, s)
      modifies this
      ensures Valid()
      ensures Contents() == Survivors(old(Contents()) + {s}, s.at) && s in Contents()
      ensures s.file !in pruned
    {
      ghost var before := Contents();
      listing := listing + [s];
      assert Contents() == before + {s};
      ghost var all := listing;
      pruned := Prune(s.at);
      assert s in Survivors(before + {s}, s.at);
      OutsideKept(all, Files(Survivors(before + {s}, s.at)));
    }

    method DeleteOthers(kept: set<string>) returns (removed: seq<string>)
      modifies this
      ensures removed == FilesOutside(old(listing), kept)
      ensures listing == Filter(old(listing), kept)
    {
      var all := listing;
      removed := [];
      listing := [];
      var i := 0;
      while i < |all|
        invariant 0 <= i <= |all|
        invariant removed == FilesOutside(all[..i], kept)
        invariant listing == Filter(all[..i], kept)
      {
        assert all[..i + 1][..i] == all[..i];
        if all[i].file !in kept {
          removed := removed + [all[i].file];
        } else {
          listing := listing + [all[i]];
        }
        i := i + 1;
      }
      assert all[..|all|] == all;
    }
  }

  // The sets the marking pass has built after `n` snapshots.

  ghost function KeptUpTo(all: seq<Snapshot>, n: nat, now: int): set<string>
    requires n <= |all|
  {
    set j | 0 <= j < n && Keeps(Elements(all), all[j], now) :: all[j].file
  }

  ghost function DaysUpTo(all: seq<Snapshot>, n: nat, now: int): set<int>
    requires n <= |all|
  {
    set j | 0 <= j < n && now - all[j].at > DAY :: Day(all[j].at)
  }

  ghost function WeeksUpTo(all: seq<Snapshot>, n: nat, now: int): set<int>
    requires n <= |all|
  {
    set j | 0 <= j < n && FirstOfDay(Elements(all), all[j]) && DAILY < now - all[j].at <= WEEKLY :: Week(all[j].at)
  }

  lemma {:induction false} KeptStep(all: seq<Snapshot>, n: nat, now: int)
    requires n < |all|
    ensures KeptUpTo(all, n + 1, now)
            == KeptUpTo(all, n, now) + (if Keeps(Elements(all), all[n], now) then {all[n].file} else {})
  {
  }

  lemma {:induction false} KeysStep(all: seq<Snapshot>, n: nat, now: int, days: set<int>, weeks: set<int>)
    requires n < |all|
    requires days == (var s := all[n]; if now - s.at > DAY && Day(s.at) !in DaysUpTo(all, n, now)
                      then DaysUpTo(all, n, now) + {Day(s.at)} else DaysUpTo(all, n, now))
    requires weeks == (var s := all[n];
                       if FirstOfDay(Elements(all), s) && DAILY < now - s.at <= WEEKLY
                          && Week(s.at) !in WeeksUpTo(all, n, now)
                       then WeeksUpTo(all, n, now) + {Week(s.at)} else WeeksUpTo(all, n, now))
    ensures days == DaysUpTo(all, n + 1, now)
    ensures weeks == WeeksUpTo(all, n + 1, now)
  {
  }

  lemma {:induction false} DayUnseen(all: seq<Snapshot>, n: nat, now: int)
    requires Listing(all) && n < |all| && now - all[n].at > DAY
    ensures Day(all[n].at) in DaysUpTo(all, n, now) <==> !FirstOfDay(Elements(all), all[n])
  {
  }

  lemma {:induction false} WeekUnseen(all: seq<Snapshot>, n: nat, now: int)
    requires Listing(all) && n < |all| && now - all[n].at > DAILY
    ensures Week(all[n].at) in WeeksUpTo(all, n, now) <==> !WeekUnclaimed(Elements(all), all[n], now)
  {
  }

  method MarkKept(all: seq<Snapshot>, now: int) returns (kept: set<string>)
    requires Listing(all)
    ensures kept == KeptUpTo(all, |all|, now)
  {
    kept := {};
    var firstOfDay: set<int> := {};
    var firstOfWeek: set<int> := {};
    for i := 0 to |all|
      invariant kept == KeptUpTo(all, i, now)
      invariant firstOfDay == DaysUpTo(all, i, now)
      invariant firstOfWeek == WeeksUpTo(all, i, now)
    {
      var s := all[i];
      KeptStep(all, i, now);
      if now - s.at <= DAY {
        kept := kept + {s.file};
      } else {
        DayUnseen(all, i, now);
        var dayKey := Day(s.at);
        if dayKey !in firstOfDay {
          firstOfDay := firstOfDay + {dayKey};
          if now - s.at <= DAILY {
            kept := kept + {s.file};
          } else {
            WeekUnseen(all, i, now);
            var weekKey := Week(s.at);
            if weekKey !in firstOfWeek && now - s.at <= WEEKLY {
              firstOfWeek := firstOfWeek + {weekKey};
              kept := kept + {s.file};
            }
          }
        }
      }
      KeysStep(all, i, now, firstOfDay, firstOfWeek);
    }
  }

  lemma {:induction false} KeptAreSurvivors(all: seq<Snapshot>, now: int)
    ensures KeptUpTo(all, |all|, now) == Files(Survivors(Elements(all), now))
  {
  }

  lemma {:induction false} FilesIdentify(all: seq<Snapshot>, some: set<Snapshot>)
    requires Listing(all) && some <= Elements(all)
    ensures Elements(Filter(all, Files(some))) == some
  {
    FilterElements(all, Files(some));
    forall s | s in all && s.file in Files(some) ensures s in some {
      var r :| r in some && r.file == s.file;
      var j :| 0 <= j < |all| && all[j] == s;
      var k :| 0 <= k < |all| && all[k] == r;
    }
  }
}
