/** The transcript reducer (public/assets/chat-reducer.js): frames folded into the block list that the
    page draws.

    A tool's parsed arguments, path and write flag are functions of its name and raw arguments, which
    the model keeps; the translated error sentences are the constructors of `ErrorText`.
 */
module Reducer {
  import opened Options
  import opened Frames
  import opened Whitespace

  datatype Tool = Tool(name: string, raw: string, failed: bool, done: bool, result: string)

  datatype ErrorText = Told(text: string) | EndedInError | Cancelled | Interrupted

  datatype Awaiting = Awaiting(toolName: string, why: string)

  datatype Agent = Agent(
    text: string, streamed: string, streaming: bool, reasoning: string, tools: seq<Tool>, usage: Option<Usage>,
    reason: Option<string>, error: Option<ErrorText>, runId: Option<string>, runState: Option<string>,
    awaiting: Option<Awaiting>)

  datatype Block = UserBlock(text: string, injected: bool, at: Option<int>) | AgentBlock(agent: Agent)

  const NEW_AGENT := Agent("", "", false, "", [], None, None, None, None, None, None)

  // ---- Injected context ----------------------------------------------------------------------

  const OPEN_TAG := "<system-reminder>"
  const CLOSE_TAG := "</system-reminder>"

  predicate WrappedReminder(text: string) {
    var t := Trim(text);
    |OPEN_TAG| + |CLOSE_TAG| <= |t| && OPEN_TAG <= t && t[|t| - |CLOSE_TAG|..] == CLOSE_TAG
  }

  predicate Injected(text: string, afterUser: bool) { WrappedReminder(text) || afterUser }

  // ---- One frame -----------------------------------------------------------------------------

  function AddUsage(total: Option<Usage>, usage: Option<Usage>): Option<Usage> {
    if usage.None? then total
    else
      var base := if total.Some? then total.value else Usage(0, 0, 0);
      Some(Usage(base.input + usage.value.input, base.output + usage.value.output, base.reasoning + usage.value.reasoning))
  }

  /** Resolves the newest unresolved call. */
  function Resolve(tools: seq<Tool>, isError: bool, output: string): seq<Tool> {
    if tools == [] then []
    else
      var last := tools[|tools| - 1];
      if last.done then Resolve(tools[..|tools| - 1], isError, output) + [last]
      else tools[..|tools| - 1] + [last.(done := true, failed := isError, result := output)]
  }

  function EndError(reason: string, detail: Option<Detail>, before: Option<ErrorText>): Option<ErrorText> {
    if reason == "error" then
      Some(if detail.Some? && detail.value.message.Some? then Told(detail.value.message.value) else EndedInError)
    else if reason == "aborted" then
      Some(if detail.Some? && detail.value.cause == Some("user_cancelled") then Cancelled else Interrupted)
    else before
  }

  /** What a frame that belongs to an agent block does to it.  The others change nothing. */
  function Step(a: Agent, body: Body): Agent {
    match body
    case Streamed(Some(chunk)) =>
      if chunk.kind == TEXT then a.(streamed := a.streamed + chunk.text, streaming := true)
      else if chunk.kind == REASONING then a.(reasoning := a.reasoning + chunk.text)
      else a
    case Message(text, reasoning, usage) =>
      a.(text := a.text + text, streamed := "", streaming := false,
         reasoning := if reasoning != "" then reasoning else a.reasoning,
         usage := AddUsage(a.usage, usage))
    case ApprovalAsked(toolName, why) => a.(awaiting := Some(Awaiting(toolName, why)))
    case ApprovalDecided => a.(awaiting := None)
    case ToolCall(name, arguments) => a.(tools := a.tools + [Tool(name, arguments, false, false, "")])
    case ToolResult(isError, output) => a.(tools := Resolve(a.tools, isError, output))
    case TurnEnd(reason, detail) =>
      a.(reason := Some(reason), streaming := false, error := EndError(reason, detail, a.error))
    case TurnDone(runId, state, error) =>
      a.(runId := runId, runState := state, streaming := false,
         reason := if a.reason.None? then Some(if state == Some("done") then "completed" else "error") else a.reason,
         error := if error != "" then Some(Told(error)) else a.error)
    case _ => a
  }

  /** The frames that open an agent block when none is open. */
  predicate Opens(body: Body) {
    !body.User? && !body.TurnStart? && !body.Other? && body != Streamed(None)
  }

  predicate IsOpen(list: seq<Block>) {
    list != [] && list[|list| - 1].AgentBlock? && list[|list| - 1].agent.reason.None?
  }

  predicate AfterUser(list: seq<Block>) {
    list != [] && list[|list| - 1].UserBlock?
  }

  function Reduce(list: seq<Block>, body: Body): seq<Block> {
    if body.User? then list + [UserBlock(body.text, Injected(body.text, AfterUser(list)), body.at)]
    else if !Opens(body) then list
    else if IsOpen(list) then list[..|list| - 1] + [AgentBlock(Step(list[|list| - 1].agent, body))]
    else list + [AgentBlock(Step(NEW_AGENT, body))]
  }

  function Fold(list: seq<Block>, events: seq<Event>): seq<Block>
    decreases |events|
  {
    if events == [] then list else Fold(Reduce(list, events[0].body), events[1..])
  }

  lemma {:induction false} FoldConcat(list: seq<Block>, a: seq<Event>, b: seq<Event>)
    ensures Fold(list, a + b) == Fold(Fold(list, a), b)
    decreases |a|
  {
    if a == [] {
      assert a + b == b;
    } else {
      assert (a + b)[0] == a[0] && (a + b)[1..] == a[1..] + b;
      FoldConcat(Reduce(list, a[0].body), a[1..], b);
    }
  }

  /** The newest call without a result, or -1. */
  method NewestPending(tools: seq<Tool>) returns (k: int)
    ensures -1 <= k < |tools|
    ensures forall j | k < j < |tools| :: tools[j].done
    ensures k >= 0 ==> !tools[k].done
  {
    k := |tools| - 1;
    while k >= 0 && tools[k].done
      invariant -1 <= k < |tools|
      invariant forall j | k < j < |tools| :: tools[j].done
    {
      k := k - 1;
    }
  }

  lemma {:induction false} ResolveAt(tools: seq<Tool>, k: int, isError: bool, output: string)
    requires -1 <= k < |tools|
    requires forall j | k < j < |tools| :: tools[j].done
    requires k >= 0 ==> !tools[k].done
    ensures Resolve(tools, isError, output)
            == if k < 0 then tools else tools[k := tools[k].(done := true, failed := isError, result := output)]
  {
    if tools != [] && tools[|tools| - 1].done {
      ResolveAt(tools[..|tools| - 1], k, isError, output);
    }
  }

  /** The block list under construction: the array that `reduce` pushes to and whose last agent block it
      changes in place. */
  class Transcript {
    var blocks: seq<Block>

    constructor ()
      ensures blocks == []
    {
      blocks := [];
    }

    /** `agent()`: the open block, or a fresh one pushed for the purpose. */
    method OpenAgent() returns (index: nat)
      modifies this
      ensures index == |blocks| - 1 && blocks[index].AgentBlock?
      ensures blocks == if IsOpen(old(blocks)) then old(blocks) else old(blocks) + [AgentBlock(NEW_AGENT)]
    {
      if !IsOpen(blocks) {
        blocks := blocks + [AgentBlock(NEW_AGENT)];
      }
      index := |blocks| - 1;
    }

    method ResolvePending(index: nat, isError: bool, output: string)
      requires index < |blocks| && blocks[index].AgentBlock?
      modifies this
      ensures blocks == old(blocks)[index := AgentBlock(old(blocks)[index].agent.(
                                      tools := Resolve(old(blocks)[index].agent.tools, isError, output)))]
    {
      var tools := blocks[index].agent.tools;
      var k := NewestPending(tools);
      ResolveAt(tools, k, isError, output);
      if k >= 0 {
        tools := tools[k := tools[k].(done := true, failed := isError, result := output)];
      }
      blocks := blocks[index := AgentBlock(blocks[index].agent.(tools := tools))];
    }

    /** `reduce`. */
    method Apply(body: Body)
      modifies this
      ensures blocks == Reduce(old(blocks), body)
    {
      if body.User? {
        blocks := blocks + [UserBlock(body.text, Injected(body.text, AfterUser(blocks)), body.at)];
      } else if Opens(body) {
        var index := OpenAgent();
        if body.ToolResult? {
          ResolvePending(index, body.isError, body.output);
        } else {
          blocks := blocks[index := AgentBlock(Step(blocks[index].agent, body))];
        }
      }
    }

    /** `build`, before the run rows are attached. */
    method Build(events: seq<Event>)
      modifies this
      ensures blocks == Fold([], events)
    {
      blocks := [];
      for i := 0 to |events|
        invariant blocks == Fold([], events[..i])
      {
        assert events[..i + 1] == events[..i] + [events[i]];
        FoldConcat([], events[..i], [events[i]]);
        Apply(events[i].body);
      }
      assert events[..|events|] == events;
    }
  }
}
