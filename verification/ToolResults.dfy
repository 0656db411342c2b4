/** Which call a tool's result is drawn under (public/assets/chat-reducer.js:206-233), and what else a block
    gathers from its frames.
 */
module ToolResults {
  import opened Options
  import opened Sequences
  import opened Frames
  import opened Reducer
  import opened Transcript

  datatype Result = Result(isError: bool, output: string)

  function Completed(tool: Tool, r: Result): Tool { tool.(done := true, failed := r.isError, result := r.output) }

  ghost predicate Pending(tools: seq<Tool>) { forall i | 0 <= i < |tools| :: !tools[i].done }

  ghost predicate AllDone(tools: seq<Tool>) { forall i | 0 <= i < |tools| :: tools[i].done }

  /** Results one after another. */
  function ResolveAll(tools: seq<Tool>, results: seq<Result>): seq<Tool>
    decreases |results|
  {
    if results == [] then tools else ResolveAll(Resolve(tools, results[0].isError, results[0].output), results[1..])
  }

  /** The i-th call with the i-th result. */
  function InOrder(tools: seq<Tool>, results: seq<Result>): seq<Tool>
    requires |tools| == |results|
  {
    seq(|tools|, i requires 0 <= i < |tools| => Completed(tools[i], results[i]))
  }

  function Reversed(results: seq<Result>): seq<Result> {
    seq(|results|, i requires 0 <= i < |results| => results[|results| - 1 - i])
  }

  lemma {:induction false} Middle(before: seq<Tool>, tool: Tool, after: seq<Tool>, other: Tool)
    ensures var tools := before + [tool] + after;
            && tools[|before|] == tool && tools[|before| + 1..] == after
            && tools[|before| := other] == before + [other] + after
  {
  }

  lemma {:induction false} ResolveLast(before: seq<Tool>, tool: Tool, after: seq<Tool>, r: Result)
    requires !tool.done && AllDone(after)
    ensures Resolve(before + [tool] + after, r.isError, r.output) == before + [Completed(tool, r)] + after
  {
    var tools, k := before + [tool] + after, |before|;
    Middle(before, tool, after, Completed(tool, r));
    forall j | k < j < |tools| ensures tools[j].done {
      assert tools[j] == tools[k + 1..][j - k - 1];
    }
    ResolveAt(tools, k, r.isError, r.output);
  }

  /** Results that come while several calls are open go to them from the newest to the oldest. */
  lemma {:induction false} ResultsGoBackwards(open: seq<Tool>, closed: seq<Tool>, results: seq<Result>)
    requires Pending(open) && AllDone(closed) && |results| == |open|
    ensures ResolveAll(open + closed, results) == InOrder(open, Reversed(results)) + closed
    decreases |results|
  {
    if results == [] {
      assert open + closed == closed == InOrder(open, Reversed(results)) + closed;
    } else {
      var init, last, r := open[..|open| - 1], open[|open| - 1], results[0];
      assert open + closed == init + [last] + closed;
      ResolveLast(init, last, closed, r);
      var closed' := [Completed(last, r)] + closed;
      assert init + [Completed(last, r)] + closed == init + closed';
      ResultsGoBackwards(init, closed', results[1..]);
      assert InOrder(open, Reversed(results)) == InOrder(init, Reversed(results[1..])) + [Completed(last, r)];
    }
  }

  /** Results that come in the order of the calls, as the reducer takes them to, reach their own calls if and
      only if they read the same backwards: of two calls made together each shows the other's result. */
  lemma {:induction false} CallOrderExact(open: seq<Tool>, results: seq<Result>)
    requires Pending(open) && |results| == |open|
    ensures ResolveAll(open, results) == InOrder(open, results) <==> results == Reversed(results)
  {
    assert open + [] == open;
    ResultsGoBackwards(open, [], results);
    assert InOrder(open, Reversed(results)) + [] == InOrder(open, Reversed(results));
    if InOrder(open, Reversed(results)) == InOrder(open, results) {
      forall i | 0 <= i < |results| ensures results[i] == Reversed(results)[i] {
        assert Completed(open[i], results[i]) == InOrder(open, results)[i] == Completed(open[i], Reversed(results)[i]);
      }
    }
  }

  /** Calls made one at a time each get their own result. */
  lemma {:induction false} OneAtATime(a: Agent, name: string, arguments: string, r: Result)
    requires AllDone(a.tools)
    ensures var b := Step(Step(a, ToolCall(name, arguments)), Body.ToolResult(r.isError, r.output));
            b == a.(tools := a.tools + [Completed(Tool(name, arguments, false, false, ""), r)]) && AllDone(b.tools)
  {
    var tool := Tool(name, arguments, false, false, "");
    assert a.tools + [tool] + [] == a.tools + [tool];
    ResolveLast(a.tools, tool, [], r);
    assert a.tools + [Completed(tool, r)] + [] == a.tools + [Completed(tool, r)];
  }

  // ---- Calls and results in any order --------------------------------------------------------

  datatype ToolEvent = Called(call: Call) | Returned(result: Result)

  datatype Call = Call(name: string, arguments: string)

  function Opened(call: Call): Tool { Tool(call.name, call.arguments, false, false, "") }

  /** The tool frames among frames. */
  function ToolEvents(frames: seq<Event>): seq<ToolEvent> {
    if frames == [] then []
    else
      ToolEvents(frames[..|frames| - 1])
      + match frames[|frames| - 1].body
        case ToolCall(name, arguments) => [Called(Call(name, arguments))]
        case ToolResult(isError, output) => [Returned(Result(isError, output))]
        case _ => []
  }

  function CallsMade(events: seq<ToolEvent>): seq<Call> {
    if events == [] then []
    else
      CallsMade(events[..|events| - 1])
      + if events[|events| - 1].Called? then [events[|events| - 1].call] else []
  }

  function ResultsMade(events: seq<ToolEvent>): seq<Result> {
    if events == [] then []
    else
      ResultsMade(events[..|events| - 1])
      + if events[|events| - 1].Returned? then [events[|events| - 1].result] else []
  }

  /** The tools a block shows. */
  function Shown(events: seq<ToolEvent>): seq<Tool> {
    if events == [] then []
    else
      match events[|events| - 1]
      case Called(call) => Shown(events[..|events| - 1]) + [Opened(call)]
      case Returned(r) => Resolve(Shown(events[..|events| - 1]), r.isError, r.output)
  }

  /** Gives a result to the newest call that has none. */
  function GiveNewest(given: seq<Option<nat>>, result: nat): seq<Option<nat>> {
    if given == [] then []
    else
      var init, last := given[..|given| - 1], given[|given| - 1];
      if last.Some? then GiveNewest(init, result) + [last] else init + [Some(result)]
  }

  /** Which result each call is given, newest call first. */
  function NewestFirst(events: seq<ToolEvent>): seq<Option<nat>> {
    if events == [] then []
    else
      var before := NewestFirst(events[..|events| - 1]);
      if events[|events| - 1].Called? then before + [None]
      else GiveNewest(before, |ResultsMade(events[..|events| - 1])|)
  }

  /** Which result each call owns when results come in the order of the calls. */
  function OldestFirst(calls: nat, results: nat): seq<Option<nat>> {
    seq(calls, i => if i < results then Some(i) else None)
  }

  predicate Pair(tool: Tool, call: Call, results: seq<Result>, given: Option<nat>) {
    if given.None? then tool == Opened(call)
    else given.value < |results| && tool == Completed(Opened(call), results[given.value])
  }

  /** The calls with the results given to them. */
  ghost predicate Pairs(tools: seq<Tool>, calls: seq<Call>, results: seq<Result>, given: seq<Option<nat>>) {
    |tools| == |calls| == |given| && forall i | 0 <= i < |given| :: Pair(tools[i], calls[i], results, given[i])
  }

  lemma {:induction false} PairsSnoc(
      tools: seq<Tool>, calls: seq<Call>, results: seq<Result>, given: seq<Option<nat>>,
      tool: Tool, call: Call, got: Option<nat>)
    requires Pairs(tools, calls, results, given) && Pair(tool, call, results, got)
    ensures Pairs(tools + [tool], calls + [call], results, given + [got])
  {
  }

  lemma {:induction false} PairsInit(tools: seq<Tool>, calls: seq<Call>, results: seq<Result>, given: seq<Option<nat>>)
    requires Pairs(tools, calls, results, given) && given != []
    ensures var n := |given| - 1;
            Pairs(tools[..n], calls[..n], results, given[..n]) && Pair(tools[n], calls[n], results, given[n])
            && calls == calls[..n] + [calls[n]]
  {
  }

  lemma {:induction false} GivePairs(
      tools: seq<Tool>, calls: seq<Call>, results: seq<Result>, given: seq<Option<nat>>, k: nat)
    requires Pairs(tools, calls, results, given) && k < |results|
    ensures Pairs(Resolve(tools, results[k].isError, results[k].output), calls, results, GiveNewest(given, k))
  {
    if given != [] {
      var n, r := |given| - 1, results[k];
      PairsInit(tools, calls, results, given);
      if given[n].Some? {
        GivePairs(tools[..n], calls[..n], results, given[..n], k);
        PairsSnoc(Resolve(tools[..n], r.isError, r.output), calls[..n], results, GiveNewest(given[..n], k),
                  tools[n], calls[n], given[n]);
      } else {
        PairsSnoc(tools[..n], calls[..n], results, given[..n], Completed(tools[n], r), calls[n], Some(k));
      }
    }
  }

  lemma {:induction false} MoreResults(
      tools: seq<Tool>, calls: seq<Call>, results: seq<Result>, given: seq<Option<nat>>, r: Result)
    requires Pairs(tools, calls, results, given)
    ensures Pairs(tools, calls, results + [r], given)
  {
  }

  /** A block shows each call with the result it is given, newest call first. */
  lemma {:induction false} ShownNewestFirst(events: seq<ToolEvent>)
    ensures Pairs(Shown(events), CallsMade(events), ResultsMade(events), NewestFirst(events))
  {
    if events != [] {
      var init, last := events[..|events| - 1], events[|events| - 1];
      ShownNewestFirst(init);
      if last.Returned? {
        MoreResults(Shown(init), CallsMade(init), ResultsMade(init), NewestFirst(init), last.result);
        GivePairs(Shown(init), CallsMade(init), ResultsMade(init) + [last.result], NewestFirst(init),
                  |ResultsMade(init)|);
        assert CallsMade(events) == CallsMade(init);
      } else {
        assert ResultsMade(events) == ResultsMade(init);
      }
    }
  }

  /** The calls with their own results, when these come in call order. */
  ghost predicate ShowsOwn(tools: seq<Tool>, calls: seq<Call>, results: seq<Result>) {
    |tools| == |calls| &&
    forall i | 0 <= i < |calls| ::
      tools[i] == if i < |results| then Completed(Opened(calls[i]), results[i]) else Opened(calls[i])
  }

  /** The two ways of giving out the results give every call the same, or none either way. */
  ghost predicate GiveTheSame(results: seq<Result>, a: seq<Option<nat>>, b: seq<Option<nat>>) {
    |a| == |b| &&
    forall i | 0 <= i < |a| ::
      && (a[i].Some? <==> b[i].Some?)
      && (a[i].Some? && a[i].value < |results| && b[i].value < |results| ==> results[a[i].value] == results[b[i].value])
  }

  /** However calls and results interleave: results that come in call order are shown under their own calls if
      and only if giving them to the newest open call comes out as giving them to the oldest. */
  lemma {:induction false} InterleavedExact(events: seq<ToolEvent>)
    ensures var calls, results := CallsMade(events), ResultsMade(events);
            ShowsOwn(Shown(events), calls, results)
            <==> GiveTheSame(results, NewestFirst(events), OldestFirst(|calls|, |results|))
  {
    ShownNewestFirst(events);
    var tools, calls, results, given := Shown(events), CallsMade(events), ResultsMade(events), NewestFirst(events);
    var own := OldestFirst(|calls|, |results|);
    if ShowsOwn(tools, calls, results) {
      forall i | 0 <= i < |given|
        ensures given[i].Some? <==> own[i].Some?
        ensures given[i].Some? ==> results[given[i].value] == results[own[i].value]
      {
        assert tools[i].done <==> given[i].Some?;
        assert tools[i].done <==> i < |results|;
        if i < |results| {
          SameResult(Opened(calls[i]), results[given[i].value], results[i]);
        }
      }
    }
  }

  // ---- One call open at a time ---------------------------------------------------------------

  /** The calls without a result. */
  function Unanswered(given: seq<Option<nat>>): nat {
    if given == [] then 0 else Unanswered(given[..|given| - 1]) + if given[|given| - 1].None? then 1 else 0
  }

  function Open(events: seq<ToolEvent>): nat { Unanswered(NewestFirst(events)) }

  /** Each result comes while one call is open, or while none is and no call follows: when a call comes, every
      result so far has found one. */
  predicate OneOpen(events: seq<ToolEvent>) {
    events == [] ||
    var before := events[..|events| - 1];
    OneOpen(before) &&
    if events[|events| - 1].Called? then |ResultsMade(before)| + Open(before) == |CallsMade(before)|
    else Open(before) <= 1
  }

  lemma {:induction false} UnansweredSnoc(given: seq<Option<nat>>, last: Option<nat>)
    ensures Unanswered(given + [last]) == Unanswered(given) + if last.None? then 1 else 0
  {
    assert (given + [last])[..|given|] == given;
  }

  lemma {:induction false} OldestFirstSnoc(calls: nat, results: nat)
    ensures OldestFirst(calls + 1, results)
            == OldestFirst(calls, results) + [if calls < results then Some(calls) else None]
  {
  }

  lemma {:induction false} OldestUnanswered(calls: nat, results: nat)
    ensures Unanswered(OldestFirst(calls, results)) == if results < calls then calls - results else 0
    decreases calls
  {
    if calls > 0 {
      OldestUnanswered(calls - 1, results);
      OldestFirstSnoc(calls - 1, results);
      UnansweredSnoc(OldestFirst(calls - 1, results), OldestFirst(calls, results)[calls - 1]);
    }
  }

  ghost predicate Below(given: seq<Option<nat>>, n: nat) {
    forall i | 0 <= i < |given| :: given[i].Some? ==> given[i].value < n
  }

  /** A result goes to one place, the newest that has none. */
  lemma {:induction false} GiveNewestAt(given: seq<Option<nat>>, result: nat) returns (k: nat)
    requires Unanswered(given) > 0
    ensures k < |given| && given[k].None? && GiveNewest(given, result) == given[k := Some(result)]
    ensures forall i | k < i < |given| :: given[i].Some?
  {
    var n := |given| - 1;
    assert given == given[..n] + [given[n]];
    if given[n].None? {
      k := n;
    } else {
      k := GiveNewestAt(given[..n], result);
    }
  }

  lemma {:induction false} NoneToGive(given: seq<Option<nat>>, result: nat)
    requires Unanswered(given) == 0
    ensures GiveNewest(given, result) == given && forall i | 0 <= i < |given| :: given[i].Some?
  {
    if given != [] {
      var n := |given| - 1;
      assert given == given[..n] + [given[n]];
      NoneToGive(given[..n], result);
    }
  }

  lemma {:induction false} NewestFirstBelow(events: seq<ToolEvent>)
    ensures |NewestFirst(events)| == |CallsMade(events)| && Below(NewestFirst(events), |ResultsMade(events)|)
  {
    if events != [] {
      var init := events[..|events| - 1];
      NewestFirstBelow(init);
      if events[|events| - 1].Returned? {
        if Open(init) > 0 {
          var _ := GiveNewestAt(NewestFirst(init), |ResultsMade(init)|);
        } else {
          NoneToGive(NewestFirst(init), |ResultsMade(init)|);
        }
      }
    }
  }

  /** One more result leaves the two pairings the same iff they were and at most one call was open. */
  lemma {:induction false} GiveExact(given: seq<Option<nat>>, results: nat)
    requires Below(given, results)
    ensures GiveNewest(given, results) == OldestFirst(|given|, results + 1)
            <==> given == OldestFirst(|given|, results) && Unanswered(given) <= 1
  {
    var own, more := OldestFirst(|given|, results), OldestFirst(|given|, results + 1);
    OldestUnanswered(|given|, results);
    if Unanswered(given) == 0 {
      NoneToGive(given, results);
      assert results < |given| ==> given[results] != more[results];
    } else {
      var k := GiveNewestAt(given, results);
      var next := given[k := Some(results)];
      assert k + 1 < |given| ==> given[k + 1].Some? && own[k + 1] == if k + 1 < results then Some(k + 1) else None;
      if next == more {
        assert next[k] == Some(results) && more[k] == Some(k);
        forall i | 0 <= i < |given| ensures given[i] == own[i] {
          assert i != k ==> given[i] == next[i] == more[i];
        }
        assert given == own;
      }
      if given == own && Unanswered(given) <= 1 {
        assert k == results;
        assert own[k := Some(results)] == more;
      }
    }
  }

  /** The newest open call is the oldest one without a result throughout if and only if each result comes while
      one call is open, or while none is and no call follows. */
  lemma {:induction false} OneOpenExact(events: seq<ToolEvent>)
    ensures NewestFirst(events) == OldestFirst(|CallsMade(events)|, |ResultsMade(events)|) <==> OneOpen(events)
  {
    if events != [] {
      var init := events[..|events| - 1];
      var given, calls, results := NewestFirst(init), |CallsMade(init)|, |ResultsMade(init)|;
      OneOpenExact(init);
      NewestFirstBelow(init);
      if events[|events| - 1].Returned? {
        GiveExact(given, results);
      } else {
        CalledExact(given, results);
      }
    }
  }

  lemma {:induction false} CalledExact(given: seq<Option<nat>>, results: nat)
    ensures given + [None] == OldestFirst(|given| + 1, results)
            <==> given == OldestFirst(|given|, results) && results <= |given|
    ensures given == OldestFirst(|given|, results) ==> (results <= |given| <==> results + Unanswered(given) == |given|)
  {
    OldestUnanswered(|given|, results);
    OldestFirstSnoc(|given|, results);
    var own := OldestFirst(|given|, results);
    var last: Option<nat> := if |given| < results then Some(|given|) else None;
    if given + [None] == own + [last] {
      assert (given + [None])[..|given|] == given && (own + [last])[..|own|] == own;
      assert (given + [None])[|given|] == None && (own + [last])[|own|] == last;
    }
  }

  ghost predicate Distinct(results: seq<Result>) { forall i, j | 0 <= i < j < |results| :: results[i] != results[j] }

  /** Results that can be told apart are shown under their own calls if and only if no result comes while two
      calls are open, and none comes astray before a call. */
  lemma {:induction false} DistinctExact(events: seq<ToolEvent>)
    requires Distinct(ResultsMade(events))
    ensures ShowsOwn(Shown(events), CallsMade(events), ResultsMade(events)) <==> OneOpen(events)
  {
    InterleavedExact(events);
    OneOpenExact(events);
    NewestFirstBelow(events);
    var given, results := NewestFirst(events), ResultsMade(events);
    var own := OldestFirst(|given|, |results|);
    if GiveTheSame(results, given, own) {
      forall i | 0 <= i < |given| ensures given[i] == own[i] {
        assert given[i].Some? <==> own[i].Some?;
      }
      assert given == own;
    }
  }

  lemma {:induction false} SameResult(tool: Tool, r: Result, s: Result)
    ensures Completed(tool, r) == Completed(tool, s) <==> r == s
  {
  }

  lemma {:induction false} RunSnoc(a: Agent, frames: seq<Event>)
    requires frames != []
    ensures Run(a, frames) == Step(Run(a, frames[..|frames| - 1]), frames[|frames| - 1].body)
    decreases |frames|
  {
    var rest := frames[1..];
    if rest != [] {
      RunSnoc(Step(a, frames[0].body), rest);
      assert rest[..|rest| - 1] == frames[..|frames| - 1][1..];
    } else {
      assert frames[..|frames| - 1] == [];
    }
  }

  /** These are the tools of the reducer's block. */
  lemma {:induction false} ShownIsRun(frames: seq<Event>)
    ensures Run(NEW_AGENT, frames).tools == Shown(ToolEvents(frames))
  {
    if frames != [] {
      var init, body := frames[..|frames| - 1], frames[|frames| - 1].body;
      ShownIsRun(init);
      RunSnoc(NEW_AGENT, frames);
      var before := ToolEvents(init);
      match body
      case ToolCall(name, arguments) => ShownSnoc(before, Called(Call(name, arguments)));
      case ToolResult(isError, output) => ShownSnoc(before, Returned(Result(isError, output)));
      case _ => assert before + [] == before;
    }
  }

  lemma {:induction false} ShownSnoc(events: seq<ToolEvent>, e: ToolEvent)
    ensures Shown(events + [e])
            == match e
               case Called(call) => Shown(events) + [Opened(call)]
               case Returned(r) => Resolve(Shown(events), r.isError, r.output)
  {
    assert (events + [e])[..|events|] == events;
  }

  // ---- What a block gathers ------------------------------------------------------------------

  function CallsDrawn(tools: seq<Tool>): seq<Call> {
    seq(|tools|, i requires 0 <= i < |tools| => Call(tools[i].name, tools[i].raw))
  }

  function CallOf(body: Body): seq<Call> { if body.ToolCall? then [Call(body.name, body.arguments)] else [] }

  function CallsIn(frames: seq<Event>): seq<Call> {
    if frames == [] then [] else CallOf(frames[0].body) + CallsIn(frames[1..])
  }

  function UsageOf(body: Body): Option<Usage> { if body.Message? then body.usage else None }

  function UsageIn(frames: seq<Event>): Option<Usage> {
    if frames == [] then None else AddUsage(AddUsage(None, UsageOf(frames[0].body)), UsageIn(frames[1..]))
  }

  lemma {:induction false} ResolveKeepsCalls(tools: seq<Tool>, isError: bool, output: string)
    ensures CallsDrawn(Resolve(tools, isError, output)) == CallsDrawn(tools)
  {
    if tools != [] {
      var init, last := tools[..|tools| - 1], tools[|tools| - 1];
      ResolveKeepsCalls(init, isError, output);
      assert CallsDrawn(tools) == CallsDrawn(init) + [Call(last.name, last.raw)];
      if last.done {
        assert CallsDrawn(Resolve(init, isError, output) + [last])
            == CallsDrawn(Resolve(init, isError, output)) + [Call(last.name, last.raw)];
      }
    }
  }

  lemma {:induction false} UsageAssociates(a: Option<Usage>, b: Option<Usage>, c: Option<Usage>)
    ensures AddUsage(AddUsage(a, b), c) == AddUsage(a, AddUsage(AddUsage(None, b), c))
  {
  }

  lemma {:induction false} StepCalls(a: Agent, body: Body)
    ensures CallsDrawn(Step(a, body).tools) == CallsDrawn(a.tools) + CallOf(body)
  {
    if body.ToolResult? {
      ResolveKeepsCalls(a.tools, body.isError, body.output);
    } else if !body.ToolCall? {
      assert Step(a, body).tools == a.tools;
    }
  }

  lemma {:induction false} StepUsage(a: Agent, body: Body)
    ensures Step(a, body).usage == AddUsage(a.usage, UsageOf(body))
  {
  }

  /** The block of a stretch shows every call of it, in order. */
  lemma {:induction false} BlockShowsCalls(a: Agent, frames: seq<Event>)
    ensures CallsDrawn(Run(a, frames).tools) == CallsDrawn(a.tools) + CallsIn(frames)
    decreases |frames|
  {
    if frames == [] {
      assert CallsDrawn(a.tools) + [] == CallsDrawn(a.tools);
    } else {
      var body := frames[0].body;
      StepCalls(a, body);
      BlockShowsCalls(Step(a, body), frames[1..]);
      Assoc(CallsDrawn(a.tools), CallOf(body), CallsIn(frames[1..]));
    }
  }

  /** And the sum of its messages' usage. */
  lemma {:induction false} BlockSumsUsage(a: Agent, frames: seq<Event>)
    ensures Run(a, frames).usage == AddUsage(a.usage, UsageIn(frames))
    decreases |frames|
  {
    if frames != [] {
      var body := frames[0].body;
      StepUsage(a, body);
      BlockSumsUsage(Step(a, body), frames[1..]);
      UsageAssociates(a.usage, UsageOf(body), UsageIn(frames[1..]));
    }
  }
}
