/** What an agent block shows, told from its frames alone (public/assets/chat-reducer.js:133-261): how it ends,
    what it waits for, its text, its tools and its usage; and which words of a user count as injected.
 */
module Blocks {
  import opened Options
  import opened Sequences
  import opened Frames
  import opened Reducer
  import opened Replay
  import opened ReplayLaws
  import opened Transcript
  import opened ToolResults
  import opened Whitespace

  // ---- Which frames make a block -------------------------------------------------------------

  /** The frames that write to a block. */
  predicate Writes(body: Body) {
    || body.Message? || (body.Streamed? && body.chunk.Some?) || body.ToolCall? || body.ToolResult?
    || body.ApprovalAsked? || body.ApprovalDecided? || body.TurnEnd? || body.TurnDone?
  }

  lemma {:induction false} WritesIn(frames: seq<Event>)
    ensures OpensIn(frames) <==> exists i :: 0 <= i < |frames| && Writes(frames[i].body)
  {
    if frames != [] {
      WritesIn(frames[1..]);
      assert Opens(frames[0].body) <==> Writes(frames[0].body);
      if i :| 0 <= i < |frames| && Writes(frames[i].body) {
        assert i > 0 ==> Writes(frames[1..][i - 1].body);
      }
      if OpensIn(frames[1..]) {
        var i :| 0 <= i < |frames[1..]| && Writes(frames[1..][i].body);
        assert Writes(frames[i + 1].body);
      }
    }
  }

  /** A stretch of frames adds one block if one of them writes to it, and changes none that is there. */
  lemma {:induction false} OneBlock(base: seq<Block>, frames: seq<Event>)
    requires !IsOpen(base) && Stretch(frames)
    ensures var list := Fold(base, frames);
            if exists i :: 0 <= i < |frames| && Writes(frames[i].body)
            then list == base + [AgentBlock(Run(NEW_AGENT, frames))] else list == base
  {
    FoldStretch(base, frames);
    WritesIn(frames);
  }

  /** The block a stretch adds. */
  function BlockOf(base: seq<Block>, frames: seq<Event>): Agent
    requires !IsOpen(base) && Stretch(frames) && OpensIn(frames)
  {
    FoldStretch(base, frames);
    Fold(base, frames)[|base|].agent
  }

  lemma {:induction false} BlockIsRun(base: seq<Block>, frames: seq<Event>)
    requires !IsOpen(base) && Stretch(frames) && OpensIn(frames)
    ensures BlockOf(base, frames) == Run(NEW_AGENT, frames)
  {
    FoldStretch(base, frames);
  }

  // ---- How it ends ---------------------------------------------------------------------------

  predicate NoClose(frames: seq<Event>) { forall e | e in frames :: !Closes(e) }

  lemma {:induction false} StretchInit(frames: seq<Event>)
    requires Stretch(frames) && frames != []
    ensures NoClose(frames[..|frames| - 1])
  {
    if |frames| > 1 {
      StretchInit(frames[1..]);
      var init := frames[..|frames| - 1];
      assert init == [frames[0]] + frames[1..][..|frames| - 2];
    }
  }

  /** A block without an end. */
  predicate Unended(a: Agent) { a.reason.None? && a.error.None? && a.runId.None? && a.runState.None? }

  lemma {:induction false} OpenRun(frames: seq<Event>)
    requires NoClose(frames)
    ensures Unended(Run(NEW_AGENT, frames))
  {
    if frames != [] {
      var init, last := frames[..|frames| - 1], frames[|frames| - 1];
      assert last in frames && forall e | e in init :: e in frames;
      OpenRun(init);
      RunSnoc(NEW_AGENT, frames);
    }
  }

  function CauseOf(body: Body): Option<string> {
    if body.TurnEnd? && body.detail.Some? then body.detail.value.cause else None
  }

  function MessageOf(body: Body): Option<string> {
    if body.TurnEnd? && body.detail.Some? then body.detail.value.message else None
  }

  predicate Tells(body: Body, text: string) {
    || (body.TurnEnd? && body.reason == "error" && MessageOf(body) == Some(text))
    || (body.TurnDone? && body.error == text && text != "")
  }

  /** A block ends by its last frame: the reason it gives, and the error that is shown. */
  lemma {:induction false} BlockEnds(base: seq<Block>, frames: seq<Event>)
    requires !IsOpen(base) && Stretch(frames) && OpensIn(frames)
    ensures var a, last := BlockOf(base, frames), frames[|frames| - 1].body;
            && a.reason == (match last
                            case TurnEnd(reason, _) => Some(reason)
                            case TurnDone(_, state, _) => Some(if state == Some("done") then "completed" else "error")
                            case _ => None)
            && (a.error == Some(Cancelled)
                <==> last.TurnEnd? && last.reason == "aborted" && CauseOf(last) == Some("user_cancelled"))
            && (a.error == Some(Interrupted)
                <==> last.TurnEnd? && last.reason == "aborted" && CauseOf(last) != Some("user_cancelled"))
            && (a.error == Some(EndedInError) <==> last.TurnEnd? && last.reason == "error" && MessageOf(last).None?)
            && (forall text :: (a.error == Some(Told(text)) <==> Tells(last, text)))
    ensures var a, last := BlockOf(base, frames), frames[|frames| - 1].body;
            && a.runId == (if last.TurnDone? then last.runId else None)
            && a.runState == (if last.TurnDone? then last.state else None)
  {
    BlockIsRun(base, frames);
    StretchInit(frames);
    OpenRun(frames[..|frames| - 1]);
    RunSnoc(NEW_AGENT, frames);
  }

  // ---- What it waits for ---------------------------------------------------------------------

  predicate IsApproval(body: Body) { body.ApprovalAsked? || body.ApprovalDecided? }

  lemma {:induction false} NewestApproval(frames: seq<Event>) returns (i: int)
    ensures -1 <= i < |frames| && (i >= 0 ==> IsApproval(frames[i].body))
    ensures forall j | i < j < |frames| :: !IsApproval(frames[j].body)
    ensures Run(NEW_AGENT, frames).awaiting
            == if i >= 0 && frames[i].body.ApprovalAsked?
               then Some(Awaiting(frames[i].body.toolName, frames[i].body.why)) else None
  {
    if frames == [] {
      i := -1;
    } else {
      var init, last := frames[..|frames| - 1], frames[|frames| - 1].body;
      RunSnoc(NEW_AGENT, frames);
      if IsApproval(last) {
        i := |frames| - 1;
      } else {
        i := NewestApproval(init);
        assert forall j | 0 <= j < |init| :: frames[j] == init[j];
      }
    }
  }

  /** The pending approval is one asked for that no later frame decides or replaces. */
  lemma {:induction false} BlockAwaits(base: seq<Block>, frames: seq<Event>, toolName: string, why: string)
    requires !IsOpen(base) && Stretch(frames) && OpensIn(frames)
    ensures BlockOf(base, frames).awaiting == Some(Awaiting(toolName, why))
            <==> exists i :: 0 <= i < |frames| && frames[i].body == ApprovalAsked(toolName, why)
                             && forall j | i < j < |frames| :: !IsApproval(frames[j].body)
  {
    BlockIsRun(base, frames);
    var i := NewestApproval(frames);
    if k :| 0 <= k < |frames| && frames[k].body == ApprovalAsked(toolName, why)
            && forall j | k < j < |frames| :: !IsApproval(frames[j].body) {
      assert IsApproval(frames[k].body);
      assert i == k;
    }
  }

  // ---- Its text ------------------------------------------------------------------------------

  lemma {:induction false} RunSplit(a: Agent, frames: seq<Event>, n: nat)
    requires n <= |frames|
    ensures Run(a, frames) == Run(Run(a, frames[..n]), frames[n..])
    decreases n
  {
    if n > 0 {
      RunSplit(Step(a, frames[0].body), frames[1..], n - 1);
      assert frames[..n][1..] == frames[1..][..n - 1] && frames[1..][n - 1..] == frames[n..];
    } else {
      assert frames[..0] == [] && frames[0..] == frames;
    }
  }

  lemma {:induction false} StretchTail(frames: seq<Event>, n: nat)
    requires Stretch(frames) && n <= |frames|
    ensures Stretch(frames[n..])
    decreases n
  {
    if n > 0 {
      if Closes(frames[0]) {
        assert frames[n..] == [];
      } else {
        StretchTail(frames[1..], n - 1);
        assert frames[1..][n - 1..] == frames[n..];
      }
    } else {
      assert frames[0..] == frames;
    }
  }

  /** A message with reasoning of its own, which replaces what was streamed of it. */
  predicate Reasons(body: Body) { body.Message? && body.reasoning != "" }

  /** Frame `k` is the newest of a kind, or there is none and `k` is -1. */
  ghost predicate Newest(frames: seq<Event>, kind: Body -> bool, k: int) {
    -1 <= k < |frames| && (k >= 0 ==> kind(frames[k].body)) && forall j | k < j < |frames| :: !kind(frames[j].body)
  }

  lemma {:induction false} NewestExists(frames: seq<Event>, kind: Body -> bool) returns (k: int)
    ensures Newest(frames, kind, k)
  {
    k := |frames| - 1;
    if frames != [] && !kind(frames[k].body) {
      k := NewestExists(frames[..|frames| - 1], kind);
    }
  }

  predicate IsMessage(body: Body) { body.Message? }

  ghost predicate NoneOf(frames: seq<Event>, kind: Body -> bool) { forall j | 0 <= j < |frames| :: !kind(frames[j].body) }

  lemma {:induction false} NoMessages(a: Agent, frames: seq<Event>)
    requires Stretch(frames) && NoneOf(frames, IsMessage)
    ensures Run(a, frames).streamed == a.streamed + TextOf(frames, TEXT)
    ensures Run(a, frames).streaming
            <==> (frames == [] || !Closes(frames[|frames| - 1])) && (a.streaming || Mentions(frames, TEXT))
    decreases |frames|
  {
    if frames == [] {
      assert a.streamed + "" == a.streamed;
    } else {
      var next, rest := Step(a, frames[0].body), frames[1..];
      if Closes(frames[0]) {
        assert rest == [] && a.streamed + "" == a.streamed;
        assert Mentions(frames, TEXT) == Mentions(rest, TEXT);
      } else {
        assert rest != [] ==> rest[|rest| - 1] == frames[|frames| - 1];
        NoMessages(next, rest);
        var text := if OfKind(frames[0], TEXT) then ChunkText(frames[0]) else "";
        assert next.streamed == a.streamed + text;
        Assoc(a.streamed, text, TextOf(rest, TEXT));
      }
    }
  }

  lemma {:induction false} NoReasons(a: Agent, frames: seq<Event>)
    requires Stretch(frames) && NoneOf(frames, Reasons)
    ensures Run(a, frames).reasoning == a.reasoning + TextOf(frames, REASONING)
    decreases |frames|
  {
    if frames == [] {
      assert a.reasoning + "" == a.reasoning;
    } else {
      var next, rest := Step(a, frames[0].body), frames[1..];
      if Closes(frames[0]) {
        assert rest == [] && a.reasoning + "" == a.reasoning;
      } else {
        NoReasons(next, rest);
        var text := if OfKind(frames[0], REASONING) then ChunkText(frames[0]) else "";
        assert next.reasoning == a.reasoning + text;
        Assoc(a.reasoning, text, TextOf(rest, REASONING));
      }
    }
  }

  lemma {:induction false} NoneSince(frames: seq<Event>, kind: Body -> bool, k: int)
    requires Newest(frames, kind, k)
    ensures NoneOf(frames[k + 1..], kind)
  {
  }

  /** The agent as frame `k`, a message, leaves it. */
  lemma {:induction false} AfterMessage(frames: seq<Event>, k: nat) returns (a: Agent)
    requires k < |frames| && frames[k].body.Message?
    ensures a == Run(NEW_AGENT, frames[..k + 1])
    ensures a.streamed == "" && !a.streaming
    ensures Reasons(frames[k].body) ==> a.reasoning == frames[k].body.reasoning
  {
    a := Run(NEW_AGENT, frames[..k + 1]);
    assert frames[..k + 1][k] == frames[k];
    RunSnoc(NEW_AGENT, frames[..k + 1]);
  }

  lemma {:induction false} At(frames: seq<Event>, k: nat) returns (a: Agent, since: seq<Event>)
    requires Stretch(frames) && k < |frames| && frames[k].body.Message?
    ensures since == frames[k + 1..] && Stretch(since) && Run(NEW_AGENT, frames) == Run(a, since)
    ensures a.streamed == "" && !a.streaming
    ensures Reasons(frames[k].body) ==> a.reasoning == frames[k].body.reasoning
  {
    a := AfterMessage(frames, k);
    since := frames[k + 1..];
    RunSplit(NEW_AGENT, frames, k + 1);
    StretchTail(frames, k + 1);
  }

  /** The agent as the newest message of a kind leaves it, and what comes after. */
  lemma {:induction false} Since(frames: seq<Event>, kind: Body -> bool, k: int) returns (a: Agent, since: seq<Event>)
    requires Stretch(frames) && Newest(frames, kind, k) && (k >= 0 ==> frames[k].body.Message?)
    ensures since == frames[k + 1..] && Stretch(since) && NoneOf(since, kind)
    ensures Run(NEW_AGENT, frames) == Run(a, since)
    ensures a.streamed == "" && !a.streaming
    ensures if k < 0 then a.reasoning == "" else Reasons(frames[k].body) ==> a.reasoning == frames[k].body.reasoning
  {
    NoneSince(frames, kind, k);
    if k < 0 {
      a, since := NEW_AGENT, frames;
      assert frames[0..] == frames;
    } else {
      a, since := At(frames, k);
    }
  }

  lemma {:induction false} StreamedSince(frames: seq<Event>, k: int) returns (since: seq<Event>)
    requires Stretch(frames) && frames != [] && Newest(frames, IsMessage, k)
    ensures since == frames[k + 1..]
    ensures Run(NEW_AGENT, frames).streamed == TextOf(since, TEXT)
    ensures Run(NEW_AGENT, frames).streaming <==> since != [] && !Closes(since[|since| - 1]) && Mentions(since, TEXT)
  {
    var a;
    a, since := Since(frames, IsMessage, k);
    NoMessages(a, since);
    assert "" + TextOf(since, TEXT) == TextOf(since, TEXT);
  }

  lemma {:induction false} ReasoningSince(frames: seq<Event>, m: int)
    requires Stretch(frames) && Newest(frames, Reasons, m)
    ensures Run(NEW_AGENT, frames).reasoning
            == (if m >= 0 then frames[m].body.reasoning else "") + TextOf(frames[m + 1..], REASONING)
  {
    var a, since := Since(frames, Reasons, m);
    NoReasons(a, since);
  }

  lemma {:induction false} LastOf(frames: seq<Event>, since: seq<Event>, k: int)
    requires -1 <= k < |frames| && since == frames[k + 1..]
    ensures if since == [] then !Mentions(since, TEXT) else since[|since| - 1] == frames[|frames| - 1]
  {
  }

  /** The text of a block is that of its messages; what is streamed is what came after the newest message, and the
      reasoning what came after the newest message that had some, and that one's. */
  lemma {:induction false} BlockTexts(base: seq<Block>, frames: seq<Event>) returns (k: int, m: int)
    requires !IsOpen(base) && Stretch(frames) && OpensIn(frames)
    ensures Newest(frames, IsMessage, k) && Newest(frames, Reasons, m)
    ensures BlockOf(base, frames).text == MessageText(frames)
    ensures BlockOf(base, frames).streamed == TextOf(frames[k + 1..], TEXT)
    ensures BlockOf(base, frames).streaming
            <==> Mentions(frames[k + 1..], TEXT) && !Closes(frames[|frames| - 1])
    ensures BlockOf(base, frames).reasoning
            == (if m >= 0 then frames[m].body.reasoning else "") + TextOf(frames[m + 1..], REASONING)
  {
    BlockIsRun(base, frames);
    k := NewestExists(frames, IsMessage);
    m := NewestExists(frames, Reasons);
    var since := StreamedSince(frames, k);
    LastOf(frames, since, k);
    ReasoningSince(frames, m);
    RunTexts(NEW_AGENT, frames);
    assert "" + MessageText(frames) == MessageText(frames);
  }

  // ---- Its tools and usage -------------------------------------------------------------------

  function UsagesIn(frames: seq<Event>): seq<Usage> {
    if frames == [] then []
    else UsagesIn(frames[..|frames| - 1]) + UsageBy(frames[|frames| - 1].body)
  }

  function InputOf(all: seq<Usage>): int { if all == [] then 0 else InputOf(all[..|all| - 1]) + all[|all| - 1].input }

  function OutputOf(all: seq<Usage>): int { if all == [] then 0 else OutputOf(all[..|all| - 1]) + all[|all| - 1].output }

  function ReasoningOf(all: seq<Usage>): int {
    if all == [] then 0 else ReasoningOf(all[..|all| - 1]) + all[|all| - 1].reasoning
  }

  function SumOf(all: seq<Usage>): Option<Usage> {
    if all == [] then None else Some(Usage(InputOf(all), OutputOf(all), ReasoningOf(all)))
  }

  lemma {:induction false} SumSnoc(all: seq<Usage>, u: Usage)
    ensures SumOf(all + [u]) == AddUsage(SumOf(all), Some(u))
  {
    assert (all + [u])[..|all|] == all && (all + [u])[|all|] == u;
    assert all == [] ==> InputOf(all) == 0 && OutputOf(all) == 0 && ReasoningOf(all) == 0;
  }

  function UsageBy(body: Body): seq<Usage> { if body.Message? && body.usage.Some? then [body.usage.value] else [] }

  lemma {:induction false} StepUsage(a: Agent, body: Body)
    ensures Step(a, body).usage == if UsageBy(body) == [] then a.usage else AddUsage(a.usage, Some(UsageBy(body)[0]))
  {
  }

  lemma {:induction false} UsageIs(frames: seq<Event>)
    ensures Run(NEW_AGENT, frames).usage == SumOf(UsagesIn(frames))
  {
    if frames != [] {
      var init, last := frames[..|frames| - 1], frames[|frames| - 1].body;
      UsageIs(init);
      RunSnoc(NEW_AGENT, frames);
      StepUsage(Run(NEW_AGENT, init), last);
      assert UsagesIn(frames) == UsagesIn(init) + UsageBy(last);
      if UsageBy(last) != [] {
        SumSnoc(UsagesIn(init), UsageBy(last)[0]);
      } else {
        assert UsagesIn(init) + [] == UsagesIn(init);
      }
    }
  }

  /** The block shows the calls of its frames, each with the result that the newest-first order gives it, and the
      sum of the usage of its messages. */
  lemma {:induction false} BlockShows(base: seq<Block>, frames: seq<Event>)
    requires !IsOpen(base) && Stretch(frames) && OpensIn(frames)
    ensures var a, events := BlockOf(base, frames), ToolEvents(frames);
            Pairs(a.tools, CallsMade(events), ResultsMade(events), NewestFirst(events))
    ensures BlockOf(base, frames).usage == SumOf(UsagesIn(frames))
  {
    BlockIsRun(base, frames);
    ShownIsRun(frames);
    ShownNewestFirst(ToolEvents(frames));
    UsageIs(frames);
  }

  // ---- Injected words ------------------------------------------------------------------------

  predicate Blank(s: string) { forall c | c in s :: IsSpace(c) }

  /** A text that is a reminder in its tags, but for white space around it. */
  ghost predicate Reminder(text: string) {
    exists a, inner, b :: Blank(a) && Blank(b) && text == a + "<system-reminder>" + inner + "</system-reminder>" + b
  }

  lemma {:induction false} TrimLeftParts(s: string) returns (a: string)
    ensures s == a + TrimLeft(s) && Blank(a)
  {
    if s != [] && IsSpace(s[0]) {
      var rest := TrimLeftParts(s[1..]);
      a := [s[0]] + rest;
      Assoc([s[0]], rest, TrimLeft(s));
    } else {
      a := "";
    }
  }

  lemma {:induction false} TrimRightParts(s: string) returns (b: string)
    ensures s == TrimRight(s) + b && Blank(b)
  {
    if s != [] && IsSpace(s[|s| - 1]) {
      var rest := TrimRightParts(s[..|s| - 1]);
      b := rest + [s[|s| - 1]];
      Assoc(TrimRight(s), rest, [s[|s| - 1]]);
    } else {
      b := "";
    }
  }

  lemma {:induction false} TrimLeftOf(a: string, s: string)
    requires Blank(a) && s != [] && !IsSpace(s[0])
    ensures TrimLeft(a + s) == s
  {
    if a == [] {
      assert a + s == s;
    } else {
      assert (a + s)[0] == a[0] && (a + s)[1..] == a[1..] + s;
      assert a[0] in a && forall c | c in a[1..] :: c in a;
      TrimLeftOf(a[1..], s);
    }
  }

  lemma {:induction false} TrimRightOf(s: string, b: string)
    requires Blank(b) && s != [] && !IsSpace(s[|s| - 1])
    ensures TrimRight(s + b) == s
  {
    if b == [] {
      assert s + b == s;
    } else {
      var n := |s + b| - 1;
      assert (s + b)[n] == b[|b| - 1] && (s + b)[..n] == s + b[..|b| - 1];
      assert b[|b| - 1] in b && forall c | c in b[..|b| - 1] :: c in b;
      TrimRightOf(s, b[..|b| - 1]);
    }
  }

  lemma {:induction false} WrappedIsReminder(text: string)
    requires WrappedReminder(text)
    ensures Reminder(text)
  {
    var a, b := TrimParts(text);
    var inner := Tagged(Trim(text));
    Around(text, a, Trim(text), inner, b);
  }

  lemma {:induction false} TrimParts(s: string) returns (a: string, b: string)
    ensures s == a + (Trim(s) + b) && Blank(a) && Blank(b)
  {
    a := TrimLeftParts(s);
    b := TrimRightParts(TrimLeft(s));
  }

  lemma {:induction false} Around(text: string, a: string, t: string, inner: string, b: string)
    requires text == a + (t + b) && t == "<system-reminder>" + inner + "</system-reminder>" && Blank(a) && Blank(b)
    ensures Reminder(text)
  {
    assert text == a + "<system-reminder>" + inner + "</system-reminder>" + b;
  }

  lemma {:induction false} Tagged(t: string) returns (inner: string)
    requires |OPEN_TAG| + |CLOSE_TAG| <= |t| && OPEN_TAG <= t && t[|t| - |CLOSE_TAG|..] == CLOSE_TAG
    ensures t == "<system-reminder>" + inner + "</system-reminder>"
  {
    inner := t[|OPEN_TAG|..|t| - |CLOSE_TAG|];
    assert t == t[..|OPEN_TAG|] + inner + t[|t| - |CLOSE_TAG|..];
  }

  lemma {:induction false} ReminderIsWrapped(text: string, a: string, inner: string, b: string)
    requires Blank(a) && Blank(b) && text == a + "<system-reminder>" + inner + "</system-reminder>" + b
    ensures WrappedReminder(text)
  {
    var open, close := "<system-reminder>", "</system-reminder>";
    var t := open + inner + close;
    assert text == a + (t + b);
    assert (t + b)[0] == open[0] == '<' && t[|t| - 1] == close[|close| - 1] == '>';
    TrimLeftOf(a, t + b);
    TrimRightOf(t, b);
    assert t[..|open|] == open && t[|t| - |close|..] == close;
  }

  lemma {:induction false} ReminderExact(text: string)
    ensures WrappedReminder(text) <==> Reminder(text)
  {
    if WrappedReminder(text) {
      WrappedIsReminder(text);
    }
    if Reminder(text) {
      var a, inner, b :| Blank(a) && Blank(b) && text == a + "<system-reminder>" + inner + "</system-reminder>" + b;
      ReminderIsWrapped(text, a, inner, b);
    }
  }

  /** What a user says is drawn last, in their words, and as injected if and only if it is a reminder in its tags
      or comes right behind other words of a user. */
  lemma {:induction false} UserDrawn(list: seq<Block>, text: string, at: Option<int>)
    ensures var next := Reduce(list, User(text, at));
            && |next| == |list| + 1 && next[..|list|] == list && next[|list|].UserBlock?
            && next[|list|].text == text && next[|list|].at == at
            && (next[|list|].injected <==> Reminder(text) || (list != [] && list[|list| - 1].UserBlock?))
  {
    ReminderExact(text);
  }
}
