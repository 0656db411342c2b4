/** Retention of node-home archives (src/nodebackup.ts): the loop of `pruneSnapshots` with the day and
    week sets kept per node.  It is proved to be that policy applied to each node's archives alone.
 */
module NodeRetention {
  import opened Retention

  datatype Archive = Archive(file: string, at: int, node: string)

  function AsSnapshot(a: Archive): Snapshot { Snapshot(a.file, a.at) }

  /** The archives of one node, as the manager's policy sees snapshots. */
  ghost function OfNode(all: seq<Archive>, node: string): set<Snapshot> {
    set a | a in all && a.node == node :: AsSnapshot(a)
  }

  /** Ascending times, distinct file names; two archives of one node never share a time. */
  predicate Precedes(a: Archive, b: Archive) {
    a.at <= b.at && a.file != b.file && (a.node == b.node ==> a.at != b.at)
  }

  ghost predicate ArchiveListing(all: seq<Archive>) {
    forall i, j | 0 <= i < j < |all| :: Precedes(all[i], all[j])
  }

  ghost predicate KeepsArchive(all: seq<Archive>, a: Archive, now: int) {
    Keeps(OfNode(all, a.node), AsSnapshot(a), now)
  }

  ghost predicate FirstOfItsDay(all: seq<Archive>, a: Archive) {
    FirstOfDay(OfNode(all, a.node), AsSnapshot(a))
  }

  // What the marking pass has built after `n` archives.

  ghost function KeptFiles(all: seq<Archive>, n: nat, now: int): set<string>
    requires n <= |all|
  {
    set j | 0 <= j < n && KeepsArchive(all, all[j], now) :: all[j].file
  }

  ghost function DaysOf(all: seq<Archive>, n: nat, now: int, node: string): set<int>
    requires n <= |all|
  {
    set j | 0 <= j < n && all[j].node == node && now - all[j].at > DAY :: Day(all[j].at)
  }

  ghost function WeeksOf(all: seq<Archive>, n: nat, now: int, node: string): set<int>
    requires n <= |all|
  {
    set j | 0 <= j < n && all[j].node == node && FirstOfItsDay(all, all[j]) && DAILY < now - all[j].at <= WEEKLY
      :: Week(all[j].at)
  }

  lemma {:induction false} KeptStep(all: seq<Archive>, n: nat, now: int)
    requires n < |all|
    ensures KeptFiles(all, n + 1, now)
            == KeptFiles(all, n, now) + (if KeepsArchive(all, all[n], now) then {all[n].file} else {})
  {
  }

  /** The key sets of every node are up to date after `n` archives. */
  ghost predicate DaysTracked(all: seq<Archive>, n: nat, now: int, dayKeys: map<string, set<int>>)
    requires n <= |all|
  {
    forall node :: Lookup(dayKeys, node) == DaysOf(all, n, now, node)
  }

  ghost predicate WeeksTracked(all: seq<Archive>, n: nat, now: int, weekKeys: map<string, set<int>>)
    requires n <= |all|
  {
    forall node :: Lookup(weekKeys, node) == WeeksOf(all, n, now, node)
  }

  lemma {:induction false} DaysStep(all: seq<Archive>, n: nat, now: int, dayKeys: map<string, set<int>>, next: map<string, set<int>>)
    requires n < |all| && DaysTracked(all, n, now, dayKeys)
    requires next == (var f := all[n]; if now - f.at > DAY && Day(f.at) !in Lookup(dayKeys, f.node)
                                       then dayKeys[f.node := Lookup(dayKeys, f.node) + {Day(f.at)}] else dayKeys)
    ensures DaysTracked(all, n + 1, now, next)
  {
    var f := all[n];
    forall node ensures Lookup(next, node) == DaysOf(all, n + 1, now, node) {
      assert Lookup(dayKeys, node) == DaysOf(all, n, now, node);
      assert DaysOf(all, n + 1, now, node)
          == DaysOf(all, n, now, node) + (if f.node == node && now - f.at > DAY then {Day(f.at)} else {});
    }
  }

  lemma {:induction false} WeeksStep(all: seq<Archive>, n: nat, now: int, weekKeys: map<string, set<int>>, next: map<string, set<int>>)
    requires n < |all| && WeeksTracked(all, n, now, weekKeys)
    requires next == (var f := all[n];
                      if FirstOfItsDay(all, f) && DAILY < now - f.at <= WEEKLY && Week(f.at) !in Lookup(weekKeys, f.node)
                      then weekKeys[f.node := Lookup(weekKeys, f.node) + {Week(f.at)}] else weekKeys)
    ensures WeeksTracked(all, n + 1, now, next)
  {
    var f := all[n];
    forall node ensures Lookup(next, node) == WeeksOf(all, n + 1, now, node) {
      assert Lookup(weekKeys, node) == WeeksOf(all, n, now, node);
      assert WeeksOf(all, n + 1, now, node)
          == WeeksOf(all, n, now, node)
             + (if f.node == node && FirstOfItsDay(all, f) && DAILY < now - f.at <= WEEKLY then {Week(f.at)} else {});
    }
  }

  lemma {:induction false} Member(all: seq<Archive>, j: nat)
    requires j < |all|
    ensures AsSnapshot(all[j]) in OfNode(all, all[j].node)
  {
  }

  lemma {:induction false} IndexOf(all: seq<Archive>, node: string, r: Snapshot) returns (j: nat)
    requires r in OfNode(all, node)
    ensures j < |all| && all[j].node == node && AsSnapshot(all[j]) == r
  {
    var a :| a in all && a.node == node && AsSnapshot(a) == r;
    j :| 0 <= j < |all| && all[j] == a;
  }

  /** Two archives of one node: the earlier in time is the earlier in the listing. */
  lemma {:induction false} EarlierIndex(all: seq<Archive>, j: nat, n: nat)
    requires ArchiveListing(all) && j < |all| && n < |all| && all[j].node == all[n].node
    ensures j < n <==> all[j].at < all[n].at
  {
  }

  lemma {:induction false} NodeDayUnseen(all: seq<Archive>, n: nat, now: int)
    requires ArchiveListing(all) && n < |all| && now - all[n].at > DAY
    ensures Day(all[n].at) in DaysOf(all, n, now, all[n].node) <==> !FirstOfItsDay(all, all[n])
  {
    var mine := OfNode(all, all[n].node);
    if Day(all[n].at) in DaysOf(all, n, now, all[n].node) {
      var j :| 0 <= j < n && all[j].node == all[n].node && Day(all[j].at) == Day(all[n].at);
      Member(all, j);
      EarlierIndex(all, j, n);
    }
    if !FirstOfItsDay(all, all[n]) {
      var r :| r in mine && Day(r.at) == Day(all[n].at) && r.at < all[n].at;
      var j := IndexOf(all, all[n].node, r);
      EarlierIndex(all, j, n);
    }
  }

  lemma {:induction false} NodeWeekUnseen(all: seq<Archive>, n: nat, now: int)
    requires ArchiveListing(all) && n < |all| && now - all[n].at > DAILY
    ensures Week(all[n].at) in WeeksOf(all, n, now, all[n].node)
            <==> !WeekUnclaimed(OfNode(all, all[n].node), AsSnapshot(all[n]), now)
  {
  }

  function Lookup(m: map<string, set<int>>, node: string): set<int> {
    if node in m then m[node] else {}
  }

  method MarkKeptArchives(all: seq<Archive>, now: int) returns (kept: set<string>)
    requires ArchiveListing(all)
    ensures kept == KeptFiles(all, |all|, now)
  {
    kept := {};
    var dayKeys: map<string, set<int>> := map[];
    var weekKeys: map<string, set<int>> := map[];
    for i := 0 to |all|
      invariant kept == KeptFiles(all, i, now)
      invariant DaysTracked(all, i, now, dayKeys)
      invariant WeeksTracked(all, i, now, weekKeys)
    {
      var f := all[i];
      var days := Lookup(dayKeys, f.node);
      var weeks := Lookup(weekKeys, f.node);
      var dayKey := Day(f.at);
      var weekKey := Week(f.at);
      KeptStep(all, i, now);
      assert days == DaysOf(all, i, now, f.node) && weeks == WeeksOf(all, i, now, f.node);
      ghost var wasDays, wasWeeks := dayKeys, weekKeys;
      if now - f.at <= DAY {
        kept := kept + {f.file};
      } else {
        NodeDayUnseen(all, i, now);
        if dayKey !in days {
          dayKeys := dayKeys[f.node := days + {dayKey}];
          if now - f.at <= DAILY {
            kept := kept + {f.file};
          } else {
            NodeWeekUnseen(all, i, now);
            if weekKey !in weeks && now - f.at <= WEEKLY {
              weekKeys := weekKeys[f.node := weeks + {weekKey}];
              kept := kept + {f.file};
            }
          }
        }
      }
      DaysStep(all, i, now, wasDays, dayKeys);
      WeeksStep(all, i, now, wasWeeks, weekKeys);
    }
  }

  function Remaining(all: seq<Archive>, kept: set<string>): seq<Archive> {
    if all == [] then [] else
      Remaining(all[..|all| - 1], kept) + if all[|all| - 1].file in kept then [all[|all| - 1]] else []
  }

  function Deleted(all: seq<Archive>, kept: set<string>): seq<string> {
    if all == [] then [] else
      Deleted(all[..|all| - 1], kept) + if all[|all| - 1].file in kept then [] else [all[|all| - 1].file]
  }

  lemma {:induction false} RemainingElements(all: seq<Archive>, kept: set<string>)
    ensures forall a :: a in Remaining(all, kept) <==> a in all && a.file in kept
  {
    if all != [] {
      RemainingElements(all[..|all| - 1], kept);
      assert all == all[..|all| - 1] + [all[|all| - 1]];
    }
  }

  lemma {:induction false} RemainingListing(all: seq<Archive>, kept: set<string>)
    requires ArchiveListing(all)
    ensures ArchiveListing(Remaining(all, kept))
  {
    if all != [] {
      var init := all[..|all| - 1];
      RemainingListing(init, kept);
      RemainingElements(init, kept);
      var rest, last := Remaining(init, kept), all[|all| - 1];
      forall i | 0 <= i < |rest| ensures Precedes(rest[i], last) {
        assert rest[i] in init;
        var k :| 0 <= k < |init| && init[k] == rest[i];
        assert all[k] == rest[i];
      }
    }
  }

  lemma {:induction false} RemainingOfNode(all: seq<Archive>, now: int, node: string)
    requires ArchiveListing(all)
    ensures OfNode(Remaining(all, KeptFiles(all, |all|, now)), node) == Survivors(OfNode(all, node), now)
  {
    var kept := KeptFiles(all, |all|, now);
    RemainingElements(all, kept);
    forall s
      ensures s in OfNode(Remaining(all, kept), node) <==> s in Survivors(OfNode(all, node), now)
    {
      if s in OfNode(Remaining(all, kept), node) {
        var a :| a in Remaining(all, kept) && a.node == node && AsSnapshot(a) == s;
        var j :| 0 <= j < |all| && KeepsArchive(all, all[j], now) && all[j].file == a.file;
        var k :| 0 <= k < |all| && all[k] == a;
        assert j == k;
      }
      if s in Survivors(OfNode(all, node), now) {
        var a :| a in all && a.node == node && AsSnapshot(a) == s;
        var k :| 0 <= k < |all| && all[k] == a;
        assert a.file in kept;
        assert a in Remaining(all, kept);
      }
    }
  }

  /** The directory of node-home archives. */
  class ArchiveDir {
    var listing: seq<Archive>

    ghost predicate Valid()
      reads this
    {
      ArchiveListing(listing)
    }

    constructor ()
      ensures Valid() && listing == []
    {
      listing := [];
    }

    /** `pruneNodeHomeArchives`: on every node it leaves what the snapshot policy leaves of that node's
        archives alone, in their order, and it reports the rest as removed. */
    method Prune(now: int) returns (removed: seq<string>)
      requires Valid()
      modifies this
      ensures Valid()
      ensures forall node :: OfNode(listing, node) == Survivors(OfNode(old(listing), node), now)
      ensures listing == Remaining(old(listing), KeptFiles(old(listing), |old(listing)|, now))
      ensures removed == Deleted(old(listing), KeptFiles(old(listing), |old(listing)|, now))
    {
      var all := listing;
      var kept := MarkKeptArchives(all, now);
      removed := DeleteOthers(kept);
      RemainingListing(all, kept);
      forall node ensures OfNode(listing, node) == Survivors(OfNode(all, node), now) {
        RemainingOfNode(all, now, node);
      }
    }

    method DeleteOthers(kept: set<string>) returns (removed: seq<string>)
      modifies this
      ensures removed == Deleted(old(listing), kept)
      ensures listing == Remaining(old(listing), kept)
    {
      var all := listing;
      removed := [];
      listing := [];
      for i := 0 to |all|
        invariant removed == Deleted(all[..i], kept)
        invariant listing == Remaining(all[..i], kept)
      {
        assert all[..i + 1][..i] == all[..i];
        if all[i].file !in kept {
          removed := removed + [all[i].file];
        } else {
          listing := listing + [all[i]];
        }
      }
      assert all[..|all|] == all;
    }
  }
}
