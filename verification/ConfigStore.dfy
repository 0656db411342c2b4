/** Writes of the config file (src/config-store.ts): the lock that runs them one by one, and the validated
    write that puts the previous text back.

    One file write is all or nothing; parsing, the edit and the validation are functions of the text.
 */
module ConfigStore {
  import opened Options
  import opened Sequences

  // ---- One validated write -------------------------------------------------------------------

  /** What the outside does to one `mutateYamlFile`: the edit, which may throw, what parses and validates,
      and whether the write and the restoring write go through. */
  datatype Change = Change(
    edit: string -> Option<string>, parses: string -> bool, valid: string -> bool, writes: bool, restores: bool)

  datatype Outcome = Refused | EditThrew | Same | WriteFailed | Written | Restored | RestoreFailed

  class ConfigFile {
    var text: string

    constructor (text: string)
      ensures this.text == text
    {
      this.text := text;
    }

    method WriteAtomic(content: string, goesThrough: bool) returns (ok: bool)
      modifies this
      ensures ok == goesThrough
      ensures text == if ok then content else old(text)
    {
      if goesThrough {
        text := content;
      }
      return goesThrough;
    }

    /** `mutateYamlFile`.  Unless the restoring write fails, the file is left with its previous text or with a
        validated new one, and the caller is told which. */
    method Mutate(change: Change) returns (outcome: Outcome)
      modifies this
      ensures text == Leaves(change, old(text))
      ensures outcome == RestoreFailed <==> Botches(change, old(text))
      ensures outcome == Written <==> text != old(text) && change.valid(text)
      ensures outcome == Refused <==> !change.parses(old(text))
      ensures change.parses(old(text)) && change.writes ==>
                match change.edit(old(text))
                case None => outcome == EditThrew && text == old(text)
                case Some(next) => change.valid(next) ==> text == next
      ensures outcome == Restored ==> change.edit(old(text)).Some? && !change.valid(change.edit(old(text)).value)
    {
      var before := text;
      if !change.parses(before) {
        return Refused;
      }
      var next := change.edit(before);
      if next.None? {
        return EditThrew;
      }
      if next.value == before {
        return Same;
      }
      var ok := WriteAtomic(next.value, change.writes);
      if !ok {
        return WriteFailed;
      }
      if !change.valid(text) {
        var restored := WriteAtomic(before, change.restores);
        if !restored {
          return RestoreFailed;
        }
        return Restored;
      }
      return Written;
    }
  }

  /** The change gets as far as writing a new text. */
  predicate Rewrites(change: Change, text: string) {
    change.parses(text) && change.edit(text).Some? && change.edit(text).value != text && change.writes
  }

  /** A text that does not validate is written and cannot be taken back. */
  predicate Botches(change: Change, text: string) {
    Rewrites(change, text) && !change.valid(change.edit(text).value) && !change.restores
  }

  /** The text a change leaves. */
  function Leaves(change: Change, text: string): string {
    if Rewrites(change, text) && (change.valid(change.edit(text).value) || !change.restores)
    then change.edit(text).value
    else text
  }

  /** A change that parses, is written and validates takes effect; any other leaves the text as it was, unless what
      it wrote can neither stand nor be taken back. */
  lemma {:induction false} LeavesExact(change: Change, text: string)
    ensures var lands := change.parses(text) && change.writes && change.edit(text).Some?;
            && (lands && change.valid(change.edit(text).value) ==> Leaves(change, text) == change.edit(text).value)
            && (lands && !change.valid(change.edit(text).value) ==>
                  Leaves(change, text) == if change.restores then text else change.edit(text).value)
            && (!lands ==> Leaves(change, text) == text)
  {
  }

  function LeavesAll(text: string, changes: seq<Change>): string
    decreases |changes|
  {
    if changes == [] then text else LeavesAll(Leaves(changes[0], text), changes[1..])
  }

  ghost predicate ValidThroughout(text: string, changes: seq<Change>, valid: string -> bool)
    decreases |changes|
  {
    valid(text) && (changes == [] || ValidThroughout(Leaves(changes[0], text), changes[1..], valid))
  }

  predicate NeverBotches(text: string, changes: seq<Change>)
    decreases |changes|
  {
    changes == [] || (!Botches(changes[0], text) && NeverBotches(Leaves(changes[0], text), changes[1..]))
  }

  /** Whatever edits throw and writes fail, a file that validates does so after every change if and only if
      no restoring write fails. */
  lemma {:induction false} StaysValid(text: string, changes: seq<Change>, valid: string -> bool)
    requires valid(text) && forall change | change in changes :: change.valid == valid
    ensures ValidThroughout(text, changes, valid) <==> NeverBotches(text, changes)
    decreases |changes|
  {
    if changes != [] {
      var change := changes[0];
      assert change in changes && forall c | c in changes[1..] :: c in changes;
      if !Botches(change, text) {
        StaysValid(Leaves(change, text), changes[1..], valid);
      } else {
        assert !valid(Leaves(change, text));
      }
    }
  }

  // ---- The lock ------------------------------------------------------------------------------

  /** What `fn` of one call of `withConfigLock` has come to: `run`, the promise `chain.then(fn)`.  An operation
      under way has read a text. */
  datatype Run = Waiting | Started(read: string) | Fulfilled | Rejected

  datatype Promise = Pending | Kept | Broken

  /** The calls so far.  `tails[k]` is the value of `chain` that call `k` found, and `tails[k + 1]` the one it
      left, `run.then(noop, noop)`; `absorbs` says whether that has its second handler.  Operations are named
      by numbers. */
  datatype Lock = Lock(text: string, ops: seq<nat>, runs: seq<Run>, tails: seq<Promise>, absorbs: bool)

  datatype Step = Call(op: nat) | React(k: nat) | Finish(k: nat) | Absorb(k: nat)

  function NewLock(text: string, absorbs: bool): Lock { Lock(text, [], [], [Kept], absorbs) }

  predicate WellFormed(l: Lock) { |l.runs| == |l.ops| && |l.tails| == |l.ops| + 1 }

  predicate Over(run: Run) { run.Fulfilled? || run.Rejected? }

  predicate Enabled(l: Lock, step: Step)
    requires WellFormed(l)
  {
    match step
    case Call(_) => true
    case React(k) => k < |l.ops| && l.runs[k].Waiting? && !l.tails[k].Pending?
    case Finish(k) => k < |l.ops| && l.runs[k].Started?
    case Absorb(k) => k < |l.ops| && Over(l.runs[k]) && l.tails[k + 1].Pending?
  }

  /** `edit` says what an operation writes given the text it read, or that it throws. */
  function Do(l: Lock, step: Step, edit: (nat, string) -> Option<string>): (l': Lock)
    requires WellFormed(l) && Enabled(l, step)
    ensures WellFormed(l')
  {
    match step
    case Call(op) => l.(ops := l.ops + [op], runs := l.runs + [Waiting], tails := l.tails + [Pending])
    case React(k) =>
      // `chain.then(fn)`: on a broken promise `fn` is skipped
      l.(runs := l.runs[k := if l.tails[k].Kept? then Started(l.text) else Rejected])
    case Finish(k) =>
      var written := edit(l.ops[k], l.runs[k].read);
      if written.Some? then l.(text := written.value, runs := l.runs[k := Fulfilled])
      else l.(runs := l.runs[k := Rejected])
    case Absorb(k) => l.(tails := l.tails[k + 1 := if l.runs[k].Fulfilled? || l.absorbs then Kept else Broken])
  }

  predicate Allowed(l: Lock, steps: seq<Step>, edit: (nat, string) -> Option<string>)
    requires WellFormed(l)
    decreases |steps|
  {
    steps == [] || (Enabled(l, steps[0]) && Allowed(Do(l, steps[0], edit), steps[1..], edit))
  }

  function RunAll(l: Lock, steps: seq<Step>, edit: (nat, string) -> Option<string>): (l': Lock)
    requires WellFormed(l) && Allowed(l, steps, edit)
    ensures WellFormed(l')
    decreases |steps|
  {
    if steps == [] then l else RunAll(Do(l, steps[0], edit), steps[1..], edit)
  }

  /** The operations one after another, each on what the one before left; one that throws writes nothing. */
  function Composed(text: string, ops: seq<nat>, edit: (nat, string) -> Option<string>): string {
    if ops == [] then text
    else
      var before := Composed(text, ops[..|ops| - 1], edit);
      var written := edit(ops[|ops| - 1], before);
      if written.Some? then written.value else before
  }

  /** The first `n` operations are over, at most the next is under way, on the present text, and no other has
      started; no promise of the chain is broken, and none is kept before its operation is over. */
  ghost predicate Orderly(l: Lock, n: nat) {
    && WellFormed(l) && n <= |l.ops| && l.absorbs && l.tails[0].Kept?
    && (forall k | 0 <= k < n :: Over(l.runs[k]))
    && (forall k | n <= k < |l.ops| :: l.runs[k].Waiting? || (k == n && l.runs[k] == Started(l.text)))
    && (forall k | 0 <= k < |l.tails| :: !l.tails[k].Broken?)
    && (forall k | 0 < k < |l.tails| && l.tails[k].Kept? :: Over(l.runs[k - 1]))
  }

  /** Those over have settled as each comes out in its turn, and the text is their composition. */
  ghost predicate Settled(l: Lock, n: nat, initial: string, edit: (nat, string) -> Option<string>)
    requires WellFormed(l) && n <= |l.ops|
  {
    && l.text == Composed(initial, l.ops[..n], edit)
    && forall k | 0 <= k < n ::
         l.runs[k] == if edit(l.ops[k], Composed(initial, l.ops[..k], edit)).Some? then Fulfilled else Rejected
  }

  ghost predicate InTurn(l: Lock, n: nat, initial: string, edit: (nat, string) -> Option<string>) {
    Orderly(l, n) && Settled(l, n, initial, edit)
  }

  /** Nobody starts out of turn: an operation's predecessor is over before its own promise settles. */
  lemma {:induction false} ReactsInTurn(l: Lock, k: nat, n: nat)
    requires Orderly(l, n) && Enabled(l, React(k))
    ensures k == n && l.tails[n].Kept?
  {
    assert l.tails[k].Kept?;
  }

  lemma {:induction false} ReactKeepsOrder(l: Lock, n: nat, edit: (nat, string) -> Option<string>)
    requires Orderly(l, n) && Enabled(l, React(n)) && l.tails[n].Kept?
    ensures Orderly(Do(l, React(n), edit), n)
  {
  }

  lemma {:induction false} FinishKeepsOrder(l: Lock, n: nat, edit: (nat, string) -> Option<string>)
    requires Orderly(l, n) && Enabled(l, Finish(n))
    ensures Orderly(Do(l, Finish(n), edit), n + 1)
  {
  }

  lemma {:induction false} AbsorbKeepsOrder(l: Lock, k: nat, n: nat, edit: (nat, string) -> Option<string>)
    requires Orderly(l, n) && Enabled(l, Absorb(k))
    ensures Orderly(Do(l, Absorb(k), edit), n)
  {
  }

  lemma {:induction false} CallKeepsOrder(l: Lock, op: nat, n: nat, edit: (nat, string) -> Option<string>)
    requires Orderly(l, n)
    ensures Orderly(Do(l, Call(op), edit), n)
  {
  }

  lemma {:induction false} CallSettles(
      l: Lock, op: nat, n: nat, initial: string, edit: (nat, string) -> Option<string>)
    requires Orderly(l, n) && Settled(l, n, initial, edit)
    ensures Settled(Do(l, Call(op), edit), n, initial, edit)
  {
    var l' := Do(l, Call(op), edit);
    assert l'.ops[..n] == l.ops[..n];
    forall k | 0 <= k < n
      ensures l'.runs[k] == if edit(l'.ops[k], Composed(initial, l'.ops[..k], edit)).Some? then Fulfilled else Rejected
    {
      assert l'.ops[..k] == l.ops[..k];
    }
  }

  lemma {:induction false} FinishSettles(l: Lock, n: nat, initial: string, edit: (nat, string) -> Option<string>)
    requires Orderly(l, n) && Settled(l, n, initial, edit) && Enabled(l, Finish(n))
    ensures Settled(Do(l, Finish(n), edit), n + 1, initial, edit)
  {
    assert l.runs[n] == Started(l.text);
    assert l.ops[..n + 1][..n] == l.ops[..n];
  }

  lemma {:induction false} StepInTurn(l: Lock, step: Step, n: nat, initial: string, edit: (nat, string) -> Option<string>)
    requires InTurn(l, n, initial, edit) && Enabled(l, step)
    ensures InTurn(Do(l, step, edit), if step.Finish? then n + 1 else n, initial, edit)
  {
    match step
    case Call(op) =>
      CallKeepsOrder(l, op, n, edit);
      CallSettles(l, op, n, initial, edit);
    case React(k) =>
      ReactsInTurn(l, k, n);
      ReactKeepsOrder(l, n, edit);
    case Finish(k) =>
      FinishKeepsOrder(l, n, edit);
      FinishSettles(l, n, initial, edit);
    case Absorb(k) => AbsorbKeepsOrder(l, k, n, edit);
  }

  function Finishes(steps: seq<Step>): nat {
    if steps == [] then 0 else (if steps[0].Finish? then 1 else 0) + Finishes(steps[1..])
  }

  function Calls(steps: seq<Step>): seq<nat> {
    if steps == [] then [] else (if steps[0].Call? then [steps[0].op] else []) + Calls(steps[1..])
  }

  lemma {:induction false} FirstInTurn(
      l: Lock, steps: seq<Step>, n: nat, initial: string, edit: (nat, string) -> Option<string>)
    returns (l': Lock, n': nat)
    requires InTurn(l, n, initial, edit) && steps != [] && Allowed(l, steps, edit)
    ensures InTurn(l', n', initial, edit) && Allowed(l', steps[1..], edit)
    ensures RunAll(l, steps, edit) == RunAll(l', steps[1..], edit)
    ensures n + Finishes(steps) == n' + Finishes(steps[1..])
  {
    StepInTurn(l, steps[0], n, initial, edit);
    l', n' := Do(l, steps[0], edit), if steps[0].Finish? then n + 1 else n;
  }

  lemma {:induction false} RunsInTurn(
      l: Lock, steps: seq<Step>, n: nat, initial: string, edit: (nat, string) -> Option<string>)
    returns (after: Lock, over: nat)
    requires InTurn(l, n, initial, edit) && Allowed(l, steps, edit)
    ensures after == RunAll(l, steps, edit) && over == n + Finishes(steps)
    ensures InTurn(after, over, initial, edit)
    decreases |steps|
  {
    if steps == [] {
      after, over := l, n;
    } else {
      var l', n' := FirstInTurn(l, steps, n, initial, edit);
      after, over := RunsInTurn(l', steps[1..], n', initial, edit);
    }
  }

  lemma {:induction false} RunsKeepCalls(l: Lock, steps: seq<Step>, edit: (nat, string) -> Option<string>)
    requires WellFormed(l) && Allowed(l, steps, edit)
    ensures RunAll(l, steps, edit).ops == l.ops + Calls(steps)
    decreases |steps|
  {
    if steps == [] {
      assert l.ops + [] == l.ops;
    } else {
      RunsKeepCalls(Do(l, steps[0], edit), steps[1..], edit);
      Assoc(l.ops, if steps[0].Call? then [steps[0].op] else [], Calls(steps[1..]));
      assert steps[0].Call? || l.ops + [] == l.ops;
    }
  }

  /** The same of a new lock. */
  lemma {:induction false} NewRunsInTurn(text: string, steps: seq<Step>, edit: (nat, string) -> Option<string>)
    requires Allowed(NewLock(text, true), steps, edit)
    ensures InTurn(RunAll(NewLock(text, true), steps, edit), Finishes(steps), text, edit)
    ensures RunAll(NewLock(text, true), steps, edit).ops == Calls(steps)
  {
    var l := NewLock(text, true);
    assert l.ops[..0] == [] && l.ops + Calls(steps) == Calls(steps);
    var after, over := RunsInTurn(l, steps, 0, text, edit);
    RunsKeepCalls(l, steps, edit);
  }

  lemma {:induction false} OrderlyMeans(l: Lock, n: nat)
    requires Orderly(l, n)
    ensures forall k | 0 <= k < |l.ops| :: Over(l.runs[k]) <==> k < n
    ensures forall j, k | 0 <= j < |l.ops| && 0 <= k < |l.ops| && l.runs[j].Started? && l.runs[k].Started? :: j == k
    ensures forall j, k | 0 <= j < k < |l.ops| && !l.runs[k].Waiting? :: Over(l.runs[j])
  {
  }

  /** At every moment of every run: at most one operation is under way, operations start in the order of
      their calls, each settles as it would have alone after its predecessors, and the text is the
      composition of those that are over. */
  lemma {:induction false} LockComposes(text: string, steps: seq<Step>, edit: (nat, string) -> Option<string>)
    requires Allowed(NewLock(text, true), steps, edit)
    ensures var l := RunAll(NewLock(text, true), steps, edit);
            var n := Finishes(steps);
            && l.ops == Calls(steps) && n <= |l.ops|
            && l.text == Composed(text, l.ops[..n], edit)
            && (forall j, k | 0 <= j < |l.ops| && 0 <= k < |l.ops| && l.runs[j].Started? && l.runs[k].Started? :: j == k)
            && (forall j, k | 0 <= j < k < |l.ops| && !l.runs[k].Waiting? :: Over(l.runs[j]))
            && (forall k | 0 <= k < |l.ops| && Over(l.runs[k]) ::
                  l.runs[k].Fulfilled? <==> edit(l.ops[k], Composed(text, l.ops[..k], edit)).Some?)
  {
    NewRunsInTurn(text, steps, edit);
    OrderlyMeans(RunAll(NewLock(text, true), steps, edit), Finishes(steps));
  }

  predicate NoCalls(steps: seq<Step>) { steps == [] || (!steps[0].Call? && NoCalls(steps[1..])) }

  /** Stalled: nothing is left that could happen by itself. */
  ghost predicate Stalled(l: Lock)
    requires WellFormed(l)
  {
    forall k :: !Enabled(l, React(k)) && !Enabled(l, Finish(k)) && !Enabled(l, Absorb(k))
  }

  lemma {:induction false} MovesOn(l: Lock, n: nat)
    requires Orderly(l, n) && n < |l.ops|
    ensures !Stalled(l)
  {
    if l.runs[n].Started? {
      assert Enabled(l, Finish(n));
    } else if l.tails[n].Pending? {
      assert Enabled(l, Absorb(n - 1));
    } else {
      assert Enabled(l, React(n));
    }
  }

  /** No operation blocks the rest, by throwing or otherwise: calls left to themselves stall only when every
      one of them is over, and the text is then the composition of all. */
  lemma {:induction false} LockDrains(text: string, steps: seq<Step>, edit: (nat, string) -> Option<string>)
    requires Allowed(NewLock(text, true), steps, edit)
    requires Stalled(RunAll(NewLock(text, true), steps, edit))
    ensures var l := RunAll(NewLock(text, true), steps, edit);
            && (forall k | 0 <= k < |l.ops| :: Over(l.runs[k]))
            && l.text == Composed(text, Calls(steps), edit)
  {
    NewRunsInTurn(text, steps, edit);
    var l := RunAll(NewLock(text, true), steps, edit);
    if Finishes(steps) < |l.ops| {
      MovesOn(l, Finishes(steps));
    }
    assert l.ops[..|l.ops|] == l.ops;
  }

  function RunWork(runs: seq<Run>): nat {
    if runs == [] then 0
    else
      RunWork(runs[..|runs| - 1])
      + if runs[|runs| - 1].Waiting? then 2 else if runs[|runs| - 1].Started? then 1 else 0
  }

  function TailWork(tails: seq<Promise>): nat {
    if tails == [] then 0 else TailWork(tails[..|tails| - 1]) + if tails[|tails| - 1].Pending? then 1 else 0
  }

  lemma {:induction false} RunWorkAt(runs: seq<Run>, k: nat, run: Run)
    requires k < |runs|
    ensures RunWork(runs[k := run]) + RunWork([runs[k]]) == RunWork(runs) + RunWork([run])
  {
    var n := |runs| - 1;
    if k < n {
      RunWorkAt(runs[..n], k, run);
      assert runs[k := run][..n] == runs[..n][k := run];
    } else {
      assert runs[k := run][..n] == runs[..n];
    }
    assert forall r: Run :: [r][..0] == [];
  }

  lemma {:induction false} TailWorkAt(tails: seq<Promise>, k: nat, tail: Promise)
    requires k < |tails|
    ensures TailWork(tails[k := tail]) + TailWork([tails[k]]) == TailWork(tails) + TailWork([tail])
  {
    var n := |tails| - 1;
    if k < n {
      TailWorkAt(tails[..n], k, tail);
      assert tails[k := tail][..n] == tails[..n][k := tail];
    } else {
      assert tails[k := tail][..n] == tails[..n];
    }
    assert forall t: Promise :: [t][..0] == [];
  }

  /** And they do stall: there are at most three steps to each call. */
  lemma {:induction false} LockTerminates(l: Lock, steps: seq<Step>, edit: (nat, string) -> Option<string>)
    requires WellFormed(l) && Allowed(l, steps, edit) && NoCalls(steps)
    ensures |steps| <= RunWork(l.runs) + TailWork(l.tails)
    decreases |steps|
  {
    if steps != [] {
      var l' := Do(l, steps[0], edit);
      match steps[0] {
        case React(k) => RunWorkAt(l.runs, k, l'.runs[k]);
        case Finish(k) => RunWorkAt(l.runs, k, l'.runs[k]);
        case Absorb(k) => TailWorkAt(l.tails, k + 1, l'.tails[k + 1]);
      }
      LockTerminates(l', steps[1..], edit);
    }
  }

  /** The second handler is what this hangs on: without it an operation that throws breaks the chain, and the
      next one is rejected without having run. */
  lemma {:induction false} ThrowWouldBlock(l: Lock, k: nat, edit: (nat, string) -> Option<string>)
    requires WellFormed(l) && !l.absorbs && k + 1 < |l.ops|
    requires l.runs[k].Started? && edit(l.ops[k], l.runs[k].read).None?
    requires l.tails[k + 1].Pending? && l.runs[k + 1].Waiting?
    ensures var l1 := Do(l, Finish(k), edit);
            Enabled(l1, Absorb(k)) &&
            var l2 := Do(l1, Absorb(k), edit);
            Enabled(l2, React(k + 1)) && Do(l2, React(k + 1), edit).runs[k + 1].Rejected?
            && Do(l2, React(k + 1), edit).text == l.text
  {
  }

  // ---- Locked writes -------------------------------------------------------------------------

  /** The validated writes as operations of the lock. */
  function AsEdit(changes: seq<Change>): (nat, string) -> Option<string> {
    (op: nat, text: string) =>
      if op < |changes| && Leaves(changes[op], text) != text then Some(Leaves(changes[op], text)) else None
  }

  function Chosen(changes: seq<Change>, ops: seq<nat>): seq<Change>
    requires forall i | 0 <= i < |ops| :: ops[i] < |changes|
  {
    seq(|ops|, i requires 0 <= i < |ops| => changes[ops[i]])
  }

  lemma {:induction false} LeavesAllSnoc(text: string, changes: seq<Change>, last: Change)
    ensures LeavesAll(text, changes + [last]) == Leaves(last, LeavesAll(text, changes))
    decreases |changes|
  {
    if changes == [] {
      assert changes + [last] == [last] && [last][1..] == [];
    } else {
      assert (changes + [last])[1..] == changes[1..] + [last];
      LeavesAllSnoc(Leaves(changes[0], text), changes[1..], last);
    }
  }

  /** Under the lock the changes compose in the order of their calls, whichever of them throw or fail. */
  lemma {:induction false} LockedWrites(text: string, changes: seq<Change>, ops: seq<nat>)
    requires forall i | 0 <= i < |ops| :: ops[i] < |changes|
    ensures Composed(text, ops, AsEdit(changes)) == LeavesAll(text, Chosen(changes, ops))
  {
    if ops != [] {
      var init, last := ops[..|ops| - 1], ops[|ops| - 1];
      assert ops == init + [last];
      LockedWrites(text, changes, init);
      LeavesAllSnoc(text, Chosen(changes, init), changes[last]);
      assert Chosen(changes, ops) == Chosen(changes, init) + [changes[last]];
    }
  }
}
