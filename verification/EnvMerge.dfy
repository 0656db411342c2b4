/** The line-preserving `.env` merge of the installer (src/cli/setup.ts:152-191).

    A settings object is the list of its entries in order; a text is a string, and the file
    may be missing.
 */
module EnvMerge {
  import opened Options
  import opened Whitespace

  datatype Entry = Entry(key: string, value: string)

  // ---- Lines ---------------------------------------------------------------------------------

  function DropCR(line: string): string {
    if line != [] && line[|line| - 1] == '\r' then line[..|line| - 1] else line
  }

  /** `split(/\r?\n/)`, `line` being the line under way. */
  function SplitFrom(line: string, text: string): seq<string>
    decreases |text|
  {
    if text == [] then [line]
    else if text[0] == '\n' then [DropCR(line)] + SplitFrom([], text[1..])
    else SplitFrom(line + [text[0]], text[1..])
  }

  function Lines(file: Option<string>): seq<string> { if file.None? then [] else SplitFrom([], file.value) }

  function Join(lines: seq<string>): string {
    if lines == [] then [] else if |lines| == 1 then lines[0] else lines[0] + "\n" + Join(lines[1..])
  }

  // ---- Entries -------------------------------------------------------------------------------

  predicate KeyStart(c: char) { 'A' <= c <= 'Z' || c == '_' }

  predicate KeyChar(c: char) { KeyStart(c) || '0' <= c <= '9' }

  function KeyLength(text: string): (n: nat)
    ensures n <= |text|
  {
    if text != [] && KeyChar(text[0]) then 1 + KeyLength(text[1..]) else 0
  }

  predicate OneLine(text: string) {
    forall i | 0 <= i < |text| :: text[i] != '\n' && text[i] != '\r' && text[i] != '\U{2028}' && text[i] != '\U{2029}'
  }

  /** `/^([A-Z_][A-Z0-9_]*)=(.*)$/` on the trimmed line. */
  function Parse(line: string): Option<Entry> {
    var t := Trim(line);
    var n := KeyLength(t);
    if 0 < n < |t| && KeyStart(t[0]) && t[n] == '=' && OneLine(t[n + 1..]) then Some(Entry(t[..n], t[n + 1..])) else None
  }

  function Print(key: string, value: string): string { key + "=" + value }

  /** The settings the lines hold; of several for a key the last counts, empty ones do not. */
  function Read(lines: seq<string>): map<string, string> {
    if lines == [] then map[]
    else
      var before := Read(lines[..|lines| - 1]);
      match Parse(lines[|lines| - 1])
      case Some(e) => if e.value != "" then before[e.key := e.value] else before
      case None => before
  }

  // ---- The merge -----------------------------------------------------------------------------

  function Values(values: seq<Entry>): map<string, string> {
    if values == [] then map[] else Values(values[..|values| - 1])[values[|values| - 1].key := values[|values| - 1].value]
  }

  /** What is there wins over what is given, but for the forced keys. */
  function Merged(values: map<string, string>, existing: map<string, string>, force: set<string>): map<string, string> {
    map k | k in values.Keys + existing.Keys ::
      if k in values && (k in force || k !in existing) then values[k] else existing[k]
  }

  predicate Takes(line: string, merged: map<string, string>) {
    Parse(line).Some? && Parse(line).value.key in merged && merged[Parse(line).value.key] != ""
  }

  function Rewrite(line: string, merged: map<string, string>): string {
    if Takes(line, merged) then Print(Parse(line).value.key, merged[Parse(line).value.key]) else line
  }

  function RewriteAll(lines: seq<string>, merged: map<string, string>): seq<string> {
    if lines == [] then [] else RewriteAll(lines[..|lines| - 1], merged) + [Rewrite(lines[|lines| - 1], merged)]
  }

  function Handled(lines: seq<string>, merged: map<string, string>): set<string> {
    if lines == [] then {}
    else
      Handled(lines[..|lines| - 1], merged)
      + if Takes(lines[|lines| - 1], merged) then {Parse(lines[|lines| - 1]).value.key} else {}
  }

  function Appended(values: seq<Entry>, handled: set<string>, merged: map<string, string>): seq<string> {
    if values == [] then []
    else
      var e := values[|values| - 1];
      Appended(values[..|values| - 1], handled, merged)
      + if e.key in handled || e.key !in merged || merged[e.key] == "" then [] else [Print(e.key, merged[e.key])]
  }

  function OutLines(lines: seq<string>, values: seq<Entry>, merged: map<string, string>): seq<string> {
    RewriteAll(lines, merged) + Appended(values, Handled(lines, merged), merged)
  }

  function Terminated(text: string): string {
    if text != [] && text[|text| - 1] == '\n' then text else text + "\n"
  }

  /** The merged settings and the text written for a file. */
  function Merge(file: Option<string>, values: seq<Entry>, force: set<string>): (map<string, string>, string) {
    var lines := Lines(file);
    var merged := Merged(Values(values), Read(lines), force);
    (merged, Terminated(Join(OutLines(lines, values, merged))))
  }

  method ReadLines(lines: seq<string>) returns (existing: map<string, string>)
    ensures existing == Read(lines)
  {
    existing := map[];
    for i := 0 to |lines|
      invariant existing == Read(lines[..i])
    {
      assert lines[..i + 1][..i] == lines[..i];
      var found := Parse(lines[i]);
      if found.Some? && found.value.value != "" {
        existing := existing[found.value.key := found.value.value];
      }
    }
    assert lines[..|lines|] == lines;
  }

  method RewriteLines(lines: seq<string>, merged: map<string, string>) returns (out: seq<string>, handled: set<string>)
    ensures out == RewriteAll(lines, merged) && handled == Handled(lines, merged)
  {
    out, handled := [], {};
    for i := 0 to |lines|
      invariant out == RewriteAll(lines[..i], merged)
      invariant handled == Handled(lines[..i], merged)
    {
      assert lines[..i + 1][..i] == lines[..i];
      if Takes(lines[i], merged) {
        var key := Parse(lines[i]).value.key;
        out := out + [Print(key, merged[key])];
        handled := handled + {key};
      } else {
        out := out + [lines[i]];
      }
    }
    assert lines[..|lines|] == lines;
  }

  /** `mergeEnv`. */
  method MergeEnv(file: Option<string>, values: seq<Entry>, force: set<string>)
    returns (merged: map<string, string>, text: string)
    ensures (merged, text) == Merge(file, values, force)
  {
    var lines := Lines(file);
    var existing := ReadLines(lines);
    merged := Merged(Values(values), existing, force);
    var kept, handled := RewriteLines(lines, merged);
    var more: seq<string> := [];
    for i := 0 to |values|
      invariant more == Appended(values[..i], handled, merged)
    {
      assert values[..i + 1][..i] == values[..i];
      var e := values[i];
      if e.key in handled || e.key !in merged || merged[e.key] == "" {
        continue;
      }
      more := more + [Print(e.key, merged[e.key])];
    }
    assert values[..|values|] == values;
    text := Terminated(Join(kept + more));
  }
}
