/** Reading back what the `.env` merge wrote (src/cli/setup.ts:152-191): exactly when it gives the merged
    settings, and exactly when a second merge changes nothing.
 */
module EnvLaws {
  import opened Options
  import opened Sequences
  import opened Whitespace
  import opened EnvMerge

  // ---- What a line can hold ------------------------------------------------------------------

  /** A setting that survives being printed and read. */
  predicate Printable(key: string, value: string) {
    && key != [] && KeyStart(key[0]) && (forall i | 0 <= i < |key| :: KeyChar(key[i]))
    && value != [] && OneLine(value) && !IsSpace(value[|value| - 1])
  }

  ghost predicate AllPrintable(m: map<string, string>) { forall k | k in m :: Printable(k, m[k]) }

  lemma {:induction false} KeyLengthOf(key: string, rest: string)
    requires forall i | 0 <= i < |key| :: KeyChar(key[i])
    requires rest == [] || !KeyChar(rest[0])
    ensures KeyLength(key + rest) == |key|
  {
    if key == [] {
      assert key + rest == rest;
    } else {
      assert (key + rest)[1..] == key[1..] + rest;
      KeyLengthOf(key[1..], rest);
    }
  }

  lemma {:induction false} KeyLengthIs(text: string)
    ensures forall i | 0 <= i < KeyLength(text) :: KeyChar(text[i])
  {
    if text != [] && KeyChar(text[0]) {
      KeyLengthIs(text[1..]);
    }
  }

  lemma {:induction false} PrintParses(key: string, value: string)
    requires Printable(key, value)
    ensures Parse(Print(key, value)) == Some(Entry(key, value))
  {
    var line := Print(key, value);
    assert line[0] == key[0] && line[|line| - 1] == value[|value| - 1];
    assert !IsSpace(key[0]);
    assert Trim(line) == line;
    assert line == key + ("=" + value);
    KeyLengthOf(key, "=" + value);
    assert line[..|key|] == key && line[|key| + 1..] == value;
  }

  lemma {:induction false} TrimRightEnds(s: string)
    ensures TrimRight(s) == [] || !IsSpace(TrimRight(s)[|TrimRight(s)| - 1])
  {
    if s != [] && IsSpace(s[|s| - 1]) {
      TrimRightEnds(s[..|s| - 1]);
    }
  }

  lemma {:induction false} ParsedIsPrintable(line: string)
    requires Parse(line).Some? && Parse(line).value.value != ""
    ensures Printable(Parse(line).value.key, Parse(line).value.value)
  {
    var t := Trim(line);
    KeyLengthIs(t);
    TrimRightEnds(TrimLeft(line));
  }

  lemma {:induction false} TrimLeftSnoc(s: string, c: char)
    requires IsSpace(c)
    ensures TrimRight(TrimLeft(s + [c])) == TrimRight(TrimLeft(s))
  {
    if s == [] {
      assert s + [c] == [c] && [c][1..] == [];
    } else if IsSpace(s[0]) {
      assert (s + [c])[1..] == s[1..] + [c];
      TrimLeftSnoc(s[1..], c);
    } else {
      assert (s + [c])[..|s|] == s;
    }
  }

  /** A carriage return at the end of a line is nothing to the reader. */
  lemma {:induction false} DropCRParses(line: string)
    ensures Parse(DropCR(line)) == Parse(line)
  {
    if line != [] && line[|line| - 1] == '\r' {
      var rest := line[..|line| - 1];
      assert line == rest + ['\r'];
      TrimLeftSnoc(rest, '\r');
    }
  }

  // ---- Lines of a written text ---------------------------------------------------------------

  predicate NoBreak(line: string) { forall i | 0 <= i < |line| :: line[i] != '\n' }

  ghost predicate NoBreaks(lines: seq<string>) { forall i | 0 <= i < |lines| :: NoBreak(lines[i]) }

  function DropCRs(lines: seq<string>): seq<string> {
    seq(|lines|, i requires 0 <= i < |lines| => DropCR(lines[i]))
  }

  lemma {:induction false} DropCRsConcat(a: seq<string>, b: seq<string>)
    ensures DropCRs(a + b) == DropCRs(a) + DropCRs(b)
  {
  }

  lemma {:induction false} DropCRsOne(line: string)
    ensures DropCRs([line]) == [DropCR(line)]
  {
  }

  lemma {:induction false} DropCRsSnoc(lines: seq<string>, line: string)
    ensures DropCRs(lines + [line]) == DropCRs(lines) + [DropCR(line)]
  {
  }

  lemma {:induction false} SplitLine(cur: string, x: string, rest: string)
    requires NoBreak(x)
    ensures SplitFrom(cur, x + ("\n" + rest)) == [DropCR(cur + x)] + SplitFrom([], rest)
    ensures SplitFrom(cur, x) == [cur + x]
    decreases |x|
  {
    if x == [] {
      assert x + ("\n" + rest) == "\n" + rest && ("\n" + rest)[1..] == rest && cur + x == cur;
    } else {
      assert (x + ("\n" + rest))[1..] == x[1..] + ("\n" + rest);
      assert cur + [x[0]] + x[1..] == cur + x;
      SplitLine(cur + [x[0]], x[1..], rest);
    }
  }

  lemma {:induction false} SplitHasNoBreak(cur: string, text: string)
    requires NoBreak(cur)
    ensures NoBreaks(SplitFrom(cur, text))
    decreases |text|
  {
    if text != [] {
      if text[0] == '\n' {
        SplitHasNoBreak([], text[1..]);
      } else {
        SplitHasNoBreak(cur + [text[0]], text[1..]);
      }
    }
  }

  /** Splitting a text joined of lines and a final line break gives the lines back, but for carriage returns
      at their ends. */
  lemma {:induction false} SplitJoined(lines: seq<string>)
    requires NoBreaks(lines) && lines != []
    ensures SplitFrom([], Join(lines) + "\n") == DropCRs(lines) + [""]
  {
    if |lines| == 1 {
      assert lines == [lines[0]];
      assert "\n" + "" == "\n";
      SplitFirst(lines[0], "");
      DropCRsOne(lines[0]);
    } else {
      var rest := lines[1..];
      assert forall i | 0 <= i < |rest| :: rest[i] == lines[i + 1];
      SplitJoined(rest);
      JoinCons(lines);
      SplitFirst(lines[0], Join(rest) + "\n");
      DropCRsCons(lines);
    }
  }

  lemma {:induction false} SplitFirst(line: string, rest: string)
    requires NoBreak(line)
    ensures SplitFrom([], line + ("\n" + rest)) == [DropCR(line)] + SplitFrom([], rest)
  {
    SplitLine([], line, rest);
    assert [] + line == line;
  }

  lemma {:induction false} JoinCons(lines: seq<string>)
    requires |lines| > 1
    ensures Join(lines) + "\n" == lines[0] + ("\n" + (Join(lines[1..]) + "\n"))
  {
  }

  lemma {:induction false} DropCRsCons(lines: seq<string>)
    requires lines != []
    ensures DropCRs(lines) + [""] == [DropCR(lines[0])] + (DropCRs(lines[1..]) + [""])
  {
  }

  /** The last line of a text that ends in a line break is empty. */
  predicate EndsBroken(lines: seq<string>) { |lines| > 1 && lines[|lines| - 1] == "" }

  lemma {:induction false} JoinSnoc(lines: seq<string>, last: string)
    requires lines != []
    ensures Join(lines + [last]) == Join(lines) + "\n" + last
  {
    if |lines| == 1 {
      assert (lines + [last])[1..] == [last];
    } else {
      assert (lines + [last])[1..] == lines[1..] + [last];
      JoinSnoc(lines[1..], last);
    }
  }

  /** What the written text is made of: its lines, each followed by a line break. */
  function Body(out: seq<string>): seq<string> {
    if EndsBroken(out) then out[..|out| - 1] else if out == [] then [""] else out
  }

  lemma {:induction false} TerminatedIs(out: seq<string>)
    requires NoBreaks(out)
    ensures Terminated(Join(out)) == Join(Body(out)) + "\n"
    ensures SplitFrom([], Terminated(Join(out))) == DropCRs(Body(out)) + [""]
  {
    if EndsBroken(out) {
      var init := out[..|out| - 1];
      assert out == init + [""];
      JoinSnoc(init, "");
      assert Join(out) == Join(init) + "\n";
    } else if out != [] {
      var last := out[|out| - 1];
      if |out| > 1 {
        assert out == out[..|out| - 1] + [last];
        JoinSnoc(out[..|out| - 1], last);
      }
      assert last == "" ==> Join(out) == "";
      assert last != "" ==> Join(out)[|Join(out)| - 1] == last[|last| - 1];
    }
    SplitJoined(Body(out));
  }

  // ---- Reading -------------------------------------------------------------------------------

  lemma {:induction false} ReadSnoc(lines: seq<string>, line: string)
    ensures Read(lines + [line])
            == if Parse(line).Some? && Parse(line).value.value != ""
               then Read(lines)[Parse(line).value.key := Parse(line).value.value] else Read(lines)
  {
  }

  lemma {:induction false} ReadDropCRs(lines: seq<string>)
    ensures Read(DropCRs(lines)) == Read(lines)
  {
    if lines != [] {
      var init, last := lines[..|lines| - 1], lines[|lines| - 1];
      assert lines == init + [last];
      assert DropCRs(lines) == DropCRs(init) + [DropCR(last)];
      ReadDropCRs(init);
      DropCRParses(last);
      ReadSnoc(DropCRs(init), DropCR(last));
    }
  }

  lemma {:induction false} EmptyLine()
    ensures Parse("") == None
  {
  }

  /** The text written holds what its lines hold. */
  lemma {:induction false} ReadsWritten(out: seq<string>)
    requires NoBreaks(out)
    ensures Read(SplitFrom([], Terminated(Join(out)))) == Read(out)
  {
    TerminatedIs(out);
    EmptyLine();
    ReadSnoc(DropCRs(Body(out)), "");
    ReadDropCRs(Body(out));
    if EndsBroken(out) {
      assert out == Body(out) + [""];
      ReadSnoc(Body(out), "");
    } else if out == [] {
      ReadSnoc([], "");
      assert [] + [""] == [""];
    }
  }

  lemma {:induction false} ReadIsPrintable(lines: seq<string>)
    ensures AllPrintable(Read(lines))
  {
    if lines != [] {
      ReadIsPrintable(lines[..|lines| - 1]);
      var last := lines[|lines| - 1];
      if Parse(last).Some? && Parse(last).value.value != "" {
        ParsedIsPrintable(last);
      }
    }
  }

  lemma {:induction false} ReadHas(lines: seq<string>, line: string)
    requires line in lines && Parse(line).Some? && Parse(line).value.value != ""
    ensures Parse(line).value.key in Read(lines)
  {
    var init, last := lines[..|lines| - 1], lines[|lines| - 1];
    if line != last {
      assert lines == init + [last];
      assert line in init;
      ReadHas(init, line);
    }
  }

  // ---- The round trip ------------------------------------------------------------------------

  /** Every setting the lines hold is one of the merged ones. */
  ghost predicate Covered(lines: seq<string>, merged: map<string, string>) {
    forall line | line in lines && Parse(line).Some? && Parse(line).value.value != "" :: Parse(line).value.key in merged
  }

  function Only(merged: map<string, string>, keys: set<string>): map<string, string> {
    map k | k in merged && k in keys :: merged[k]
  }

  lemma {:induction false} OnlyMore(merged: map<string, string>, keys: set<string>, key: string)
    requires key in merged
    ensures Only(merged, keys + {key}) == Only(merged, keys)[key := merged[key]]
  {
  }

  lemma {:induction false} ReadRewritten(lines: seq<string>, merged: map<string, string>)
    requires AllPrintable(merged) && Covered(lines, merged)
    ensures Read(RewriteAll(lines, merged)) == Only(merged, Handled(lines, merged))
  {
    if lines != [] {
      var init, last := lines[..|lines| - 1], lines[|lines| - 1];
      assert last in lines && Covered(init, merged) by {
        assert forall line | line in init :: line in lines;
      }
      ReadRewritten(init, merged);
      ReadSnoc(RewriteAll(init, merged), Rewrite(last, merged));
      if Takes(last, merged) {
        var key := Parse(last).value.key;
        PrintParses(key, merged[key]);
        OnlyMore(merged, Handled(init, merged), key);
      }
    }
  }

  lemma {:induction false} ReadAppended(
      before: seq<string>, values: seq<Entry>, handled: set<string>, merged: map<string, string>)
    requires AllPrintable(merged) && Read(before) == Only(merged, handled)
    ensures Read(before + Appended(values, handled, merged)) == Only(merged, handled + Values(values).Keys)
  {
    if values == [] {
      assert before + [] == before && handled + {} == handled;
    } else {
      var init, e := values[..|values| - 1], values[|values| - 1];
      ReadAppended(before, init, handled, merged);
      var soFar := before + Appended(init, handled, merged);
      if e.key in merged && e.key !in handled {
        PrintParses(e.key, merged[e.key]);
        ReadSnoc(soFar, Print(e.key, merged[e.key]));
        Assoc(before, Appended(init, handled, merged), [Print(e.key, merged[e.key])]);
        OnlyMore(merged, handled + Values(init).Keys, e.key);
        assert handled + Values(values).Keys == handled + Values(init).Keys + {e.key};
      } else {
        assert before + Appended(values, handled, merged) == soFar;
        assert Only(merged, handled + Values(values).Keys) == Only(merged, handled + Values(init).Keys);
      }
    }
  }

  lemma {:induction false} HandlesExisting(lines: seq<string>, merged: map<string, string>, key: string)
    requires AllPrintable(merged) && key in Read(lines) && key in merged
    ensures key in Handled(lines, merged)
  {
    var init, last := lines[..|lines| - 1], lines[|lines| - 1];
    if !(Parse(last).Some? && Parse(last).value.key == key) {
      HandlesExisting(init, merged, key);
    }
  }

  /** The lines written hold exactly the merged settings. */
  lemma {:induction false} OutHolds(lines: seq<string>, values: seq<Entry>, force: set<string>)
    requires AllPrintable(Merged(Values(values), Read(lines), force))
    ensures var merged := Merged(Values(values), Read(lines), force);
            Read(OutLines(lines, values, merged)) == merged
  {
    var merged := Merged(Values(values), Read(lines), force);
    assert Covered(lines, merged) by {
      forall line | line in lines && Parse(line).Some? && Parse(line).value.value != ""
        ensures Parse(line).value.key in merged
      {
        ReadHas(lines, line);
      }
    }
    ReadRewritten(lines, merged);
    var handled := Handled(lines, merged);
    ReadAppended(RewriteAll(lines, merged), values, handled, merged);
    forall key | key in Read(lines) ensures key in handled {
      HandlesExisting(lines, merged, key);
    }
    assert Only(merged, handled + Values(values).Keys) == merged;
  }

  lemma {:induction false} PrintHasNoBreak(key: string, value: string)
    requires Printable(key, value)
    ensures NoBreak(Print(key, value))
  {
  }

  lemma {:induction false} RewrittenHasNoBreaks(lines: seq<string>, merged: map<string, string>)
    requires AllPrintable(merged) && NoBreaks(lines)
    ensures NoBreaks(RewriteAll(lines, merged))
  {
    if lines != [] {
      RewrittenHasNoBreaks(lines[..|lines| - 1], merged);
      var last := lines[|lines| - 1];
      if Takes(last, merged) {
        PrintHasNoBreak(Parse(last).value.key, merged[Parse(last).value.key]);
      }
    }
  }

  lemma {:induction false} AppendedHasNoBreaks(values: seq<Entry>, handled: set<string>, merged: map<string, string>)
    requires AllPrintable(merged)
    ensures NoBreaks(Appended(values, handled, merged))
  {
    if values != [] {
      AppendedHasNoBreaks(values[..|values| - 1], handled, merged);
      var e := values[|values| - 1];
      if e.key in merged {
        PrintHasNoBreak(e.key, merged[e.key]);
      }
    }
  }

  lemma {:induction false} OutHasNoBreaks(file: Option<string>, values: seq<Entry>, merged: map<string, string>)
    requires AllPrintable(merged)
    ensures NoBreaks(OutLines(Lines(file), values, merged))
  {
    if file.Some? {
      SplitHasNoBreak([], file.value);
    }
    RewrittenHasNoBreaks(Lines(file), merged);
    AppendedHasNoBreaks(values, Handled(Lines(file), merged), merged);
  }

  /** Reading the written text gives back the merged settings if and only if all of them can be printed on a
      line of their own; only given values that were taken can fail to be. */
  lemma {:induction false} RoundTripExact(file: Option<string>, values: seq<Entry>, force: set<string>)
    ensures var (merged, text) := Merge(file, values, force);
            && (Read(Lines(Some(text))) == merged <==> AllPrintable(merged))
            && (AllPrintable(merged) <==>
                  forall k | k in Values(values) && (k in force || k !in Read(Lines(file))) ::
                    Printable(k, Values(values)[k]))
  {
    var (merged, text) := Merge(file, values, force);
    var lines := Lines(file);
    if AllPrintable(merged) {
      OutHasNoBreaks(file, values, merged);
      ReadsWritten(OutLines(lines, values, merged));
      OutHolds(lines, values, force);
    }
    ReadIsPrintable(Lines(Some(text)));
    ReadIsPrintable(lines);
    TakenPrintable(Values(values), Read(lines), force);
  }

  lemma {:induction false} TakenPrintable(given: map<string, string>, existing: map<string, string>, force: set<string>)
    requires AllPrintable(existing)
    ensures AllPrintable(Merged(given, existing, force))
            <==> forall k | k in given && (k in force || k !in existing) :: Printable(k, given[k])
  {
    var merged := Merged(given, existing, force);
    if AllPrintable(merged) {
      forall k | k in given && (k in force || k !in existing) ensures Printable(k, given[k]) {
        assert merged[k] == given[k];
      }
    }
    if forall k | k in given && (k in force || k !in existing) :: Printable(k, given[k]) {
      forall k | k in merged ensures Printable(k, merged[k]) {
      }
    }
  }

  /** A setting the file has keeps its value, unless it is forced and given. */
  lemma {:induction false} ExistingWins(file: Option<string>, values: seq<Entry>, force: set<string>, key: string)
    requires AllPrintable(Merge(file, values, force).0) && key in Read(Lines(file))
    ensures var again := Read(Lines(Some(Merge(file, values, force).1)));
            key in again
            && again[key] == if key in force && key in Values(values) then Values(values)[key] else Read(Lines(file))[key]
  {
    RoundTripExact(file, values, force);
  }

  // ---- A second merge ------------------------------------------------------------------------

  /** A line the merge leaves alone. */
  predicate Fixed(line: string, merged: map<string, string>) { Rewrite(line, merged) == line }

  lemma {:induction false} PrintIsFixed(key: string, merged: map<string, string>)
    requires key in merged && Printable(key, merged[key])
    ensures Fixed(Print(key, merged[key]), merged) && Fixed(DropCR(Print(key, merged[key])), merged)
    ensures DropCR(Print(key, merged[key])) == Print(key, merged[key])
    ensures Takes(Print(key, merged[key]), merged)
  {
    PrintParses(key, merged[key]);
    var line := Print(key, merged[key]);
    assert line[|line| - 1] == merged[key][|merged[key]| - 1];
    assert DropCR(line) == line;
  }

  lemma {:induction false} RewriteIsFixed(line: string, merged: map<string, string>)
    requires AllPrintable(merged)
    ensures Fixed(DropCR(Rewrite(line, merged)), merged)
    ensures DropCR(Rewrite(line, merged)) == Rewrite(line, merged) || !Takes(line, merged)
  {
    if Takes(line, merged) {
      PrintIsFixed(Parse(line).value.key, merged);
    } else {
      DropCRParses(line);
    }
  }

  ghost predicate AllFixed(lines: seq<string>, merged: map<string, string>) {
    forall i | 0 <= i < |lines| :: Fixed(DropCR(lines[i]), merged)
  }

  lemma {:induction false} RewrittenFixed(lines: seq<string>, merged: map<string, string>)
    requires AllPrintable(merged)
    ensures AllFixed(RewriteAll(lines, merged), merged)
  {
    if lines != [] {
      RewrittenFixed(lines[..|lines| - 1], merged);
      RewriteIsFixed(lines[|lines| - 1], merged);
    }
  }

  lemma {:induction false} AppendedFixed(values: seq<Entry>, handled: set<string>, merged: map<string, string>)
    requires AllPrintable(merged)
    ensures AllFixed(Appended(values, handled, merged), merged)
    ensures DropCRs(Appended(values, handled, merged)) == Appended(values, handled, merged)
  {
    if values != [] {
      var init, e := values[..|values| - 1], values[|values| - 1];
      AppendedFixed(init, handled, merged);
      if e.key in merged {
        PrintIsFixed(e.key, merged);
      }
    }
  }

  lemma {:induction false} FixedStays(lines: seq<string>, merged: map<string, string>)
    requires forall i | 0 <= i < |lines| :: Fixed(lines[i], merged)
    ensures RewriteAll(lines, merged) == lines
  {
    if lines != [] {
      var init, last := lines[..|lines| - 1], lines[|lines| - 1];
      assert lines == init + [last];
      FixedStays(init, merged);
      assert Fixed(last, merged);
    }
  }

  lemma {:induction false} NothingAppended(values: seq<Entry>, handled: set<string>, merged: map<string, string>)
    requires merged.Keys <= handled
    ensures Appended(values, handled, merged) == []
  {
    if values != [] {
      NothingAppended(values[..|values| - 1], handled, merged);
    }
  }

  /** What a second merge reads. */
  lemma {:induction false} SecondReads(file: Option<string>, values: seq<Entry>, force: set<string>)
    requires AllPrintable(Merge(file, values, force).0)
    ensures var (merged, text) := Merge(file, values, force);
            var out := OutLines(Lines(file), values, merged);
            && Lines(Some(text)) == DropCRs(Body(out)) + [""]
            && text == Join(Body(out)) + "\n"
            && Merged(Values(values), Read(Lines(Some(text))), force) == merged
  {
    var (merged, text) := Merge(file, values, force);
    OutHasNoBreaks(file, values, merged);
    TerminatedIs(OutLines(Lines(file), values, merged));
    RoundTripExact(file, values, force);
  }

  lemma {:induction false} AllHandled(lines: seq<string>, merged: map<string, string>)
    requires AllPrintable(merged) && Read(lines) == merged
    ensures merged.Keys <= Handled(lines, merged)
  {
    forall key | key in merged ensures key in Handled(lines, merged) {
      HandlesExisting(lines, merged, key);
    }
  }

  lemma {:induction false} BodyFixed(lines: seq<string>, values: seq<Entry>, merged: map<string, string>)
    requires AllPrintable(merged)
    ensures AllFixed(Body(OutLines(lines, values, merged)), merged)
  {
    RewrittenFixed(lines, merged);
    AppendedFixed(values, Handled(lines, merged), merged);
    EmptyLine();
  }

  /** A second merge with the same arguments: the same settings, and the same lines but for a carriage return
      at the end of each. */
  lemma {:induction false} SecondMerge(file: Option<string>, values: seq<Entry>, force: set<string>)
    requires AllPrintable(Merge(file, values, force).0)
    ensures var (merged, text) := Merge(file, values, force);
            Merge(Some(text), values, force)
            == (merged, Join(DropCRs(Body(OutLines(Lines(file), values, merged)))) + "\n")
  {
    var (merged, text) := Merge(file, values, force);
    var out := OutLines(Lines(file), values, merged);
    var body := DropCRs(Body(out));
    var lines := body + [""];
    SecondReads(file, values, force);
    RoundTripExact(file, values, force);
    BodyFixed(Lines(file), values, merged);
    StaysAsIs(Body(out), values, merged);
    JoinSnoc(body, "");
    assert Join(lines) == Join(body) + "\n";
  }

  lemma {:induction false} StaysAsIs(body: seq<string>, values: seq<Entry>, merged: map<string, string>)
    requires AllPrintable(merged) && AllFixed(body, merged) && Read(DropCRs(body) + [""]) == merged
    ensures OutLines(DropCRs(body) + [""], values, merged) == DropCRs(body) + [""]
  {
    var lines := DropCRs(body) + [""];
    AllHandled(lines, merged);
    NothingAppended(values, Handled(lines, merged), merged);
    EmptyLine();
    assert forall i | 0 <= i < |lines| :: Fixed(lines[i], merged);
    FixedStays(lines, merged);
  }

  function Size(lines: seq<string>): nat { if lines == [] then 0 else |lines[0]| + Size(lines[1..]) }

  lemma {:induction false} JoinSize(lines: seq<string>)
    requires lines != []
    ensures |Join(lines)| == Size(lines) + |lines| - 1
  {
    if |lines| == 1 {
      assert Size(lines[1..]) == 0;
    } else {
      JoinSize(lines[1..]);
    }
  }

  lemma {:induction false} DropCRsSize(lines: seq<string>)
    ensures Size(DropCRs(lines)) <= Size(lines)
    ensures Size(DropCRs(lines)) == Size(lines) <==> DropCRs(lines) == lines
  {
    if lines != [] {
      DropCRsSize(lines[1..]);
      assert DropCRs(lines)[1..] == DropCRs(lines[1..]);
      assert DropCRs(lines)[0] == DropCR(lines[0]);
      assert lines == [lines[0]] + lines[1..] && DropCRs(lines) == [DropCR(lines[0])] + DropCRs(lines[1..]);
    }
  }

  lemma {:induction false} RewrittenCRs(lines: seq<string>, merged: map<string, string>)
    requires AllPrintable(merged)
    ensures DropCRs(RewriteAll(lines, merged)) == RewriteAll(lines, merged)
            <==> NoBareCR(lines, merged)
  {
    if lines != [] {
      var init, last := lines[..|lines| - 1], lines[|lines| - 1];
      RewrittenCRs(init, merged);
      RewriteCR(last, merged);
      DropCRsSnoc(RewriteAll(init, merged), Rewrite(last, merged));
      SameSnoc(DropCRs(RewriteAll(init, merged)), DropCR(Rewrite(last, merged)),
               RewriteAll(init, merged), Rewrite(last, merged));
    }
  }

  lemma {:induction false} RewriteCR(line: string, merged: map<string, string>)
    requires AllPrintable(merged)
    ensures DropCR(Rewrite(line, merged)) == Rewrite(line, merged) <==> (DropCR(line) != line ==> Takes(line, merged))
  {
  }

  lemma {:induction false} SameSnoc(a: seq<string>, x: string, b: seq<string>, y: string)
    ensures a + [x] == b + [y] <==> a == b && x == y
  {
    if a + [x] == b + [y] {
      assert |a| == |b| && (a + [x])[..|a|] == a && (b + [y])[..|b|] == b;
      assert (a + [x])[|a|] == x && (b + [y])[|b|] == y;
    }
  }

  /** Every line that ends in a carriage return is one the merge rewrites. */
  predicate NoBareCR(lines: seq<string>, merged: map<string, string>) {
    lines == [] ||
    (NoBareCR(lines[..|lines| - 1], merged)
     && (DropCR(lines[|lines| - 1]) != lines[|lines| - 1] ==> Takes(lines[|lines| - 1], merged)))
  }

  /** A second merge writes the very same text if and only if no line that the first one left alone ends in a
      carriage return of its own. */
  lemma {:induction false} SecondMergeExact(file: Option<string>, values: seq<Entry>, force: set<string>)
    requires AllPrintable(Merge(file, values, force).0)
    ensures var (merged, text) := Merge(file, values, force);
            Merge(Some(text), values, force) == (merged, text)
            <==> NoBareCR(Lines(file), merged)
  {
    var (merged, text) := Merge(file, values, force);
    var out := OutLines(Lines(file), values, merged);
    SecondMerge(file, values, force);
    SecondReads(file, values, force);
    JoinSize(Body(out));
    JoinSize(DropCRs(Body(out)));
    DropCRsSize(Body(out));
    BodyCRs(Lines(file), values, merged);
  }

  lemma {:induction false} BodyCRs(lines: seq<string>, values: seq<Entry>, merged: map<string, string>)
    requires AllPrintable(merged)
    ensures var body := Body(OutLines(lines, values, merged));
            DropCRs(body) == body <==> NoBareCR(lines, merged)
  {
    var rewritten, appended := RewriteAll(lines, merged), Appended(values, Handled(lines, merged), merged);
    var out := rewritten + appended;
    AppendedFixed(values, Handled(lines, merged), merged);
    RewrittenCRs(lines, merged);
    DropCRsConcat(rewritten, appended);
    assert DropCRs(out) == out <==> DropCRs(rewritten) == rewritten by {
      assert DropCRs(out)[..|rewritten|] == DropCRs(rewritten) && out[..|rewritten|] == rewritten;
    }
    BodyDropCRs(out);
  }

  lemma {:induction false} BodyDropCRs(out: seq<string>)
    ensures DropCRs(Body(out)) == Body(out) <==> DropCRs(out) == out
  {
  }

  // ---- Comments ------------------------------------------------------------------------------

  /** The lines that are no settings: comments, blank lines, and whatever else does not parse. */
  function Comments(lines: seq<string>): seq<string> {
    if lines == [] then []
    else Comments(lines[..|lines| - 1]) + if Parse(lines[|lines| - 1]).None? then [lines[|lines| - 1]] else []
  }

  lemma {:induction false} CommentsSnoc(lines: seq<string>, line: string)
    ensures Comments(lines + [line]) == Comments(lines) + if Parse(line).None? then [line] else []
  {
  }

  lemma {:induction false} RewriteKeepsComments(lines: seq<string>, merged: map<string, string>)
    requires AllPrintable(merged)
    ensures Comments(RewriteAll(lines, merged)) == Comments(lines)
  {
    if lines != [] {
      var init, last := lines[..|lines| - 1], lines[|lines| - 1];
      RewriteKeepsComments(init, merged);
      CommentsSnoc(RewriteAll(init, merged), Rewrite(last, merged));
      if Takes(last, merged) {
        PrintParses(Parse(last).value.key, merged[Parse(last).value.key]);
      }
    }
  }

  lemma {:induction false} AppendKeepsComments(
      before: seq<string>, values: seq<Entry>, handled: set<string>, merged: map<string, string>)
    requires AllPrintable(merged)
    ensures Comments(before + Appended(values, handled, merged)) == Comments(before)
  {
    if values == [] {
      assert before + [] == before;
    } else {
      var init, e := values[..|values| - 1], values[|values| - 1];
      AppendKeepsComments(before, init, handled, merged);
      var most := Appended(init, handled, merged);
      if e.key in merged && e.key !in handled {
        PrintParses(e.key, merged[e.key]);
        CommentsSnoc(before + most, Print(e.key, merged[e.key]));
        Assoc(before, most, [Print(e.key, merged[e.key])]);
      } else {
        assert Appended(values, handled, merged) == most + [] == most;
      }
    }
  }

  lemma {:induction false} DropCRsComments(lines: seq<string>)
    ensures Comments(DropCRs(lines)) == DropCRs(Comments(lines))
  {
    if lines != [] {
      var init, last := lines[..|lines| - 1], lines[|lines| - 1];
      assert lines == init + [last];
      DropCRsComments(init);
      DropCRParses(last);
      DropCRsSnoc(init, last);
      CommentsSnoc(init, last);
      CommentsSnoc(DropCRs(init), DropCR(last));
      DropCRsSnoc(Comments(init), last);
    }
  }

  /** Comments and blank lines keep their text and order, line endings aside; the final line break shows as
      an empty last line. */
  lemma {:induction false} CommentsKept(file: Option<string>, values: seq<Entry>, force: set<string>)
    requires AllPrintable(Merge(file, values, force).0)
    ensures var (merged, text) := Merge(file, values, force);
            var out := OutLines(Lines(file), values, merged);
            Comments(Lines(Some(text)))
            == DropCRs(Comments(Lines(file)))
               + if EndsBroken(out) then [] else if out == [] then ["", ""] else [""]
  {
    var (merged, text) := Merge(file, values, force);
    var lines := Lines(file);
    var out := OutLines(lines, values, merged);
    SecondReads(file, values, force);
    RewriteKeepsComments(lines, merged);
    AppendKeepsComments(RewriteAll(lines, merged), values, Handled(lines, merged), merged);
    assert Comments(out) == Comments(lines);
    CommentsWritten(out);
  }

  lemma {:induction false} CommentsWritten(out: seq<string>)
    ensures Comments(DropCRs(Body(out)) + [""])
            == DropCRs(Comments(out)) + if EndsBroken(out) then [] else if out == [] then ["", ""] else [""]
  {
    CommentsOfBody(Body(out));
    if EndsBroken(out) {
      CommentsBroken(out);
    } else if out == [] {
      CommentsEmpty();
    }
  }

  lemma {:induction false} CommentsBroken(out: seq<string>)
    requires EndsBroken(out)
    ensures DropCRs(Comments(out)) == DropCRs(Comments(Body(out))) + [""]
  {
  }

  lemma {:induction false} CommentsEmpty()
    ensures DropCRs(Comments([""])) == [""] && DropCRs(Comments([])) == []
  {
  }

  lemma {:induction false} CommentsOfBody(body: seq<string>)
    ensures Comments(DropCRs(body) + [""]) == DropCRs(Comments(body)) + [""]
  {
    EmptyLine();
    CommentsSnoc(DropCRs(body), "");
    DropCRsComments(body);
  }
}
