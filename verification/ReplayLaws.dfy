/** What compaction never loses or changes (src/chat/replay.ts), for every history. */
module ReplayLaws {
  import opened Frames
  import opened Replay

  /** Every event but the chunks survives unchanged and in order. */
  lemma {:induction false} RestKeepsNonChunks(events: seq<Event>, seen: set<string>, hasMessage: bool)
    ensures NonChunks(CompactRest(events, seen, hasMessage)) == NonChunks(events)
    decreases |events|
  {
    if events != [] {
      var e, rest := events[0], events[1..];
      if EndsTurn(e) {
        RestKeepsNonChunks(rest, {}, HasMessage(rest));
        assert ([e] + CompactHistory(rest))[1..] == CompactHistory(rest);
      } else if IsChunk(e) && !Dropped(ChunkKind(e), seen, hasMessage) {
        var after := CompactRest(rest, seen + {ChunkKind(e)}, hasMessage);
        RestKeepsNonChunks(rest, seen + {ChunkKind(e)}, hasMessage);
        assert ([Merged(e, ChunkText(e) + TextOf(rest, ChunkKind(e)))] + after)[1..] == after;
      } else {
        var after := CompactRest(rest, seen, hasMessage);
        RestKeepsNonChunks(rest, seen, hasMessage);
        assert ([e] + after)[1..] == after;
      }
    }
  }

  lemma {:induction false} KeepsNonChunks(events: seq<Event>)
    ensures NonChunks(CompactHistory(events)) == NonChunks(events)
  {
    RestKeepsNonChunks(events, {}, HasMessage(events));
  }

  // ---- Sequence numbers ----------------------------------------------------------------------

  function SeqNos(events: seq<Event>): seq<int> { seq(|events|, i requires 0 <= i < |events| => events[i].seqNo) }

  ghost predicate Subsequence(a: seq<int>, b: seq<int>) {
    a == [] || (b != [] && ((a[0] == b[0] && Subsequence(a[1..], b[1..])) || Subsequence(a, b[1..])))
  }

  lemma {:induction false} SeqNosCons(e: Event, events: seq<Event>)
    ensures SeqNos([e] + events) == [e.seqNo] + SeqNos(events)
  {
  }

  lemma {:induction false} RestKeepsOrder(events: seq<Event>, seen: set<string>, hasMessage: bool)
    ensures Subsequence(SeqNos(CompactRest(events, seen, hasMessage)), SeqNos(events))
    decreases |events|
  {
    if events != [] {
      var e, rest := events[0], events[1..];
      assert events == [e] + rest;
      SeqNosCons(e, rest);
      assert SeqNos(events)[1..] == SeqNos(rest);
      if EndsTurn(e) {
        RestKeepsOrder(rest, {}, HasMessage(rest));
        OrderStep(e, CompactHistory(rest), e, rest);
      } else if !IsChunk(e) {
        RestKeepsOrder(rest, seen, hasMessage);
        OrderStep(e, CompactRest(rest, seen, hasMessage), e, rest);
      } else if Dropped(ChunkKind(e), seen, hasMessage) {
        RestKeepsOrder(rest, seen, hasMessage);
      } else {
        RestKeepsOrder(rest, seen + {ChunkKind(e)}, hasMessage);
        OrderStep(Merged(e, ChunkText(e) + TextOf(rest, ChunkKind(e))),
                  CompactRest(rest, seen + {ChunkKind(e)}, hasMessage), e, rest);
      }
    }
  }

  lemma {:induction false} OrderStep(e: Event, after: seq<Event>, original: Event, rest: seq<Event>)
    requires e.seqNo == original.seqNo && Subsequence(SeqNos(after), SeqNos(rest))
    ensures Subsequence(SeqNos([e] + after), SeqNos([original] + rest))
  {
    SeqNosCons(e, after);
    SeqNosCons(original, rest);
    assert SeqNos([e] + after)[1..] == SeqNos(after);
    assert SeqNos([original] + rest)[1..] == SeqNos(rest);
  }

  /** The surviving sequence numbers are a subsequence of the history's. */
  lemma {:induction false} KeepsOrder(events: seq<Event>)
    ensures Subsequence(SeqNos(CompactHistory(events)), SeqNos(events))
  {
    RestKeepsOrder(events, {}, HasMessage(events));
  }

  // ---- Chunk text ----------------------------------------------------------------------------

  /** The text of a kind survives as a whole, unless its chunks were dropped in favour of a message or
      merged into an earlier one. */
  lemma {:induction false} RestKeepsText(events: seq<Event>, seen: set<string>, hasMessage: bool, kind: string)
    ensures TextOf(CompactRest(events, seen, hasMessage), kind)
            == if Dropped(kind, seen, hasMessage) then "" else TextOf(events, kind)
    decreases |events|
  {
    if events != [] && !EndsTurn(events[0]) {
      var e, rest := events[0], events[1..];
      if IsChunk(e) && !Dropped(ChunkKind(e), seen, hasMessage) {
        var after := CompactRest(rest, seen + {ChunkKind(e)}, hasMessage);
        var merged := Merged(e, ChunkText(e) + TextOf(rest, ChunkKind(e)));
        RestKeepsText(rest, seen + {ChunkKind(e)}, hasMessage, kind);
        assert ([merged] + after)[1..] == after;
        assert TextOf([merged] + after, kind)
            == (if OfKind(e, kind) then ChunkText(e) + TextOf(rest, kind) else "") + TextOf(after, kind);
      } else {
        var after := CompactRest(rest, seen, hasMessage);
        RestKeepsText(rest, seen, hasMessage, kind);
        assert ([e] + after)[1..] == after;
      }
    }
  }

  lemma {:induction false} RestKeepsMessage(events: seq<Event>, seen: set<string>, hasMessage: bool)
    ensures HasMessage(CompactRest(events, seen, hasMessage)) == HasMessage(events)
    decreases |events|
  {
    if events != [] && !EndsTurn(events[0]) {
      var e, rest := events[0], events[1..];
      if IsChunk(e) && !Dropped(ChunkKind(e), seen, hasMessage) {
        var after := CompactRest(rest, seen + {ChunkKind(e)}, hasMessage);
        RestKeepsMessage(rest, seen + {ChunkKind(e)}, hasMessage);
        assert CompactRest(events, seen, hasMessage)[1..] == after;
      } else {
        var after := CompactRest(rest, seen, hasMessage);
        RestKeepsMessage(rest, seen, hasMessage);
        assert ([e] + after)[1..] == after;
      }
    }
  }

  /** In each turn a kind's text is kept in full; only text chunks of a turn with a message are dropped. */
  lemma {:induction false} KeepsText(turn: seq<Event>, kind: string)
    ensures TextOf(CompactHistory(turn), kind) == if kind == TEXT && HasMessage(turn) then "" else TextOf(turn, kind)
  {
    RestKeepsText(turn, {}, HasMessage(turn), kind);
  }

  // ---- Normal form ---------------------------------------------------------------------------

  /** A history compaction leaves alone: in each turn at most one chunk of a kind, and none of text beside
      a message. */
  ghost predicate Canonical(events: seq<Event>, seen: set<string>, hasMessage: bool)
    decreases |events|
  {
    events == [] ||
    var e, rest := events[0], events[1..];
    if EndsTurn(e) then Canonical(rest, {}, HasMessage(rest))
    else if !IsChunk(e) then Canonical(rest, seen, hasMessage)
    else
      && e.body.chunk.Some?
      && !Dropped(ChunkKind(e), seen, hasMessage)
      && Canonical(rest, seen + {ChunkKind(e)}, hasMessage)
  }

  lemma {:induction false} CompactIsCanonical(events: seq<Event>, seen: set<string>, hasMessage: bool)
    ensures Canonical(CompactRest(events, seen, hasMessage), seen, hasMessage)
    decreases |events|
  {
    if events != [] {
      var e, rest := events[0], events[1..];
      if EndsTurn(e) {
        CompactIsCanonical(rest, {}, HasMessage(rest));
        RestKeepsMessage(rest, {}, HasMessage(rest));
        assert ([e] + CompactHistory(rest))[1..] == CompactHistory(rest);
      } else if IsChunk(e) && !Dropped(ChunkKind(e), seen, hasMessage) {
        var after := CompactRest(rest, seen + {ChunkKind(e)}, hasMessage);
        CompactIsCanonical(rest, seen + {ChunkKind(e)}, hasMessage);
        assert CompactRest(events, seen, hasMessage)[1..] == after;
      } else {
        var after := CompactRest(rest, seen, hasMessage);
        CompactIsCanonical(rest, seen, hasMessage);
        assert ([e] + after)[1..] == after;
      }
    }
  }

  lemma {:induction false} CanonicalHasNoText(events: seq<Event>, seen: set<string>, hasMessage: bool, kind: string)
    requires Canonical(events, seen, hasMessage) && kind in seen
    ensures TextOf(events, kind) == ""
    decreases |events|
  {
    if events != [] && !EndsTurn(events[0]) {
      var e := events[0];
      CanonicalHasNoText(events[1..], if IsChunk(e) then seen + {ChunkKind(e)} else seen, hasMessage, kind);
    }
  }

  lemma {:induction false} CanonicalIsFixed(events: seq<Event>, seen: set<string>, hasMessage: bool)
    requires Canonical(events, seen, hasMessage)
    ensures CompactRest(events, seen, hasMessage) == events
    decreases |events|
  {
    if events != [] {
      var e, rest := events[0], events[1..];
      if EndsTurn(e) {
        CanonicalIsFixed(rest, {}, HasMessage(rest));
      } else if IsChunk(e) {
        CanonicalHasNoText(rest, seen + {ChunkKind(e)}, hasMessage, ChunkKind(e));
        CanonicalIsFixed(rest, seen + {ChunkKind(e)}, hasMessage);
        assert ChunkText(e) + TextOf(rest, ChunkKind(e)) == ChunkText(e);
      } else {
        CanonicalIsFixed(rest, seen, hasMessage);
      }
    }
  }

  /** Compacting twice is compacting once. */
  lemma {:induction false} Idempotent(events: seq<Event>)
    ensures CompactHistory(CompactHistory(events)) == CompactHistory(events)
  {
    CompactIsCanonical(events, {}, HasMessage(events));
    RestKeepsMessage(events, {}, HasMessage(events));
    CanonicalIsFixed(CompactHistory(events), {}, HasMessage(events));
  }

  // ---- Turn structure ------------------------------------------------------------------------

  ghost predicate OneChunkPerKind(turn: seq<Event>) {
    forall i, j | 0 <= i < j < |turn| && IsChunk(turn[i]) && IsChunk(turn[j]) :: ChunkKind(turn[i]) != ChunkKind(turn[j])
  }

  lemma {:induction false} CanonicalKinds(turn: seq<Event>, seen: set<string>, hasMessage: bool)
    requires OneTurn(turn) || turn == []
    requires Canonical(turn, seen, hasMessage)
    ensures OneChunkPerKind(turn)
    ensures forall e | e in turn && IsChunk(e) :: ChunkKind(e) !in seen
    decreases |turn|
  {
    if turn != [] {
      var e, rest := turn[0], turn[1..];
      if |turn| > 1 {
        assert e in turn[..|turn| - 1];
        assert rest[..|rest| - 1] == turn[..|turn| - 1][1..];
        CanonicalKinds(rest, if IsChunk(e) then seen + {ChunkKind(e)} else seen, hasMessage);
      }
      forall i, j | 0 <= i < j < |turn| && IsChunk(turn[i]) && IsChunk(turn[j])
        ensures ChunkKind(turn[i]) != ChunkKind(turn[j])
      {
        assert turn[j] == rest[j - 1];
        if i > 0 {
          assert turn[i] == rest[i - 1];
        }
      }
    }
  }

  lemma {:induction false} NoTurnEndKept(events: seq<Event>, seen: set<string>, hasMessage: bool)
    requires NoTurnEnd(events)
    ensures NoTurnEnd(CompactRest(events, seen, hasMessage))
    ensures events != [] && (hasMessage ==> HasMessage(events)) && seen == {} ==> CompactRest(events, seen, hasMessage) != []
    decreases |events|
  {
    if events != [] {
      var e := events[0];
      assert !EndsTurn(e);
      NoTurnEndKept(events[1..], seen, hasMessage);
      NoTurnEndKept(events[1..], seen + {ChunkKind(e)}, hasMessage);
      if IsChunk(e) && HasMessage(events) {
        assert HasMessage(events[1..]);
        assert events[1..] != [];
      }
    }
  }

  /** A turn compacts to a turn, ended if it was. */
  lemma {:induction false} CompactTurn(turn: seq<Event>)
    requires OneTurn(turn)
    ensures OneTurn(CompactHistory(turn))
    ensures Complete(turn) ==> Complete(CompactHistory(turn))
  {
    var init, last := turn[..|turn| - 1], turn[|turn| - 1];
    assert turn == init + [last];
    var had := HasMessage(turn);
    NoTurnEndKept(init, {}, had);
    if EndsTurn(last) {
      CompactSnoc(init, last, {}, had);
      assert CompactHistory(turn)[..|CompactHistory(turn)| - 1] == CompactRest(init, {}, had);
    } else {
      assert NoTurnEnd(turn);
      NoTurnEndKept(turn, {}, had);
      var c := CompactHistory(turn);
      assert forall e | e in c[..|c| - 1] :: e in c;
    }
  }

  /** Compaction maps the turns of a history one to one, and leaves each at most one chunk of a kind. */
  lemma {:induction false} CompactsEachTurn(events: seq<Event>)
    ensures var before, after := Segments(events), Segments(CompactHistory(events));
            && |after| == |before|
            && forall i | 0 <= i < |before| :: after[i] == CompactHistory(before[i]) && OneChunkPerKind(after[i])
    decreases |events|
  {
    if events == [] {
      assert CompactHistory(events) == [];
    } else {
      var n := SegmentLength(events);
      var turn, rest := events[..n], events[n..];
      assert events == turn + rest;
      FirstSegment(events);
      CompactTurn(turn);
      CompactIsCanonical(turn, {}, HasMessage(turn));
      CanonicalKinds(CompactHistory(turn), {}, HasMessage(turn));
      if rest != [] {
        CompactByTurn(turn, rest);
      } else {
        assert turn == events && CompactHistory(rest) == [];
      }
      var c, after := CompactHistory(turn), CompactHistory(rest);
      assert CompactHistory(events) == c + after;
      SegmentLengthOf(c, after);
      assert (c + after)[..|c|] == c && (c + after)[|c|..] == after;
      CompactsEachTurn(rest);
    }
  }
}
