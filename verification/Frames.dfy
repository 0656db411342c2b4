/** The frame vocabulary of a chat (src/frames.ts), as its two readers see it: the history compaction on
    the server (src/chat/replay.ts) and the reducer in the browser (public/assets/chat-reducer.js).

    A field the readers type-check before use is modelled after that check: a non-string `text` is "", a
    missing `reason` of `turn_end` is "unknown", a chunk that is not an object is `None`.
 */
module Frames {
  import opened Options

  datatype Usage = Usage(input: int, output: int, reasoning: int)

  /** One streamed piece of a reply.  A chunk without a string type has type "". */
  datatype Chunk = Chunk(kind: string, text: string)

  datatype Detail = Detail(message: Option<string>, cause: Option<string>)

  datatype Body =
    | User(text: string, at: Option<int>)
    | TurnStart
    | Streamed(chunk: Option<Chunk>)
    | Message(text: string, reasoning: string, usage: Option<Usage>)
    | ApprovalAsked(toolName: string, why: string)
    | ApprovalDecided
    | ToolCall(name: string, arguments: string)
    | ToolResult(isError: bool, output: string)
    | TurnEnd(reason: string, detail: Option<Detail>)
    | TurnDone(runId: Option<string>, state: Option<string>, error: string)
    | Other(kind: string)

  datatype Event = Event(seqNo: int, body: Body)

  const TEXT := "text-delta"
  const REASONING := "reasoning-delta"

  predicate IsChunk(e: Event) { e.body.Streamed? }

  function ChunkKind(e: Event): string {
    if e.body.Streamed? && e.body.chunk.Some? then e.body.chunk.value.kind else ""
  }

  function ChunkText(e: Event): string {
    if e.body.Streamed? && e.body.chunk.Some? then e.body.chunk.value.text else ""
  }

  function NonChunks(events: seq<Event>): seq<Event> {
    if events == [] then []
    else (if IsChunk(events[0]) then [] else [events[0]]) + NonChunks(events[1..])
  }
}
