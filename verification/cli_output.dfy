/**
 * Recovering a created entity's identifier from the CLI's standard output
 * (`ExtractBlueprintID` and `ExtractStackID` in tests/helpers/cli.go).
 *
 * The output is cut into lines at '\n'. The first line whose trimmed form starts
 * with the label `ID:` supplies the identifier: the text after the line's first
 * ':' with its spaces trimmed. Without such a line the whole trimmed output is
 * taken to be the identifier.
 */
module CliOutput {
  import opened Wrappers
  import opened Text

  const IdLabel: string := "ID:"

  /** `strings.Split(output, "\n")`. */
  function Lines(output: string): (lines: seq<string>) {
    Split(output, '\n')
  }

  /** A line that announces an identifier: its trimmed form starts with `ID:`. */
  predicate IsIdLine(line: string) {
    IdLabel <= TrimSpace(line)
  }

  /** An identifier line always contains a ':', namely the one of its label. */
  lemma IdLineHasColon(line: string)
    requires IsIdLine(line)
    ensures ':' in line
  {
    assert TrimSpace(line)[2] == ':';
    TrimSpaceKeepsCharacters(line, ':');
  }

  /**
   * The loop of ExtractBlueprintID over the lines: the value of the first
   * identifier line, or None when there is none. A line that starts with `ID:`
   * but splits into fewer than two parts is skipped, as in the source;
   * IdLineHasColon shows that this never happens.
   */
  function ScanForId(lines: seq<string>): (r: Option<string>)
    ensures r.Some? ==> NoOuterSpace(r.value)
    ensures (forall i :: 0 <= i < |lines| ==> !IsIdLine(lines[i])) ==> r.None?
  {
    if |lines| == 0 then None
    else if IsIdLine(lines[0]) then
      var parts := SplitFirst(lines[0], ':');
      if |parts| == 2 then Some(TrimSpace(parts[1])) else ScanForId(lines[1..])
    else
      ScanForId(lines[1..])
  }

  /**
   * Whenever some line is an identifier line the scan finds a value; with
   * ScanForId's contract, the scan finds a value exactly when there is one.
   */
  lemma {:induction false} ScanFindsIdLine(lines: seq<string>, i: nat)
    requires i < |lines| && IsIdLine(lines[i])
    ensures ScanForId(lines).Some?
    decreases i
  {
    if i == 0 || IsIdLine(lines[0]) {
      IdLineHasColon(lines[0]);
      var parts := SplitFirst(lines[0], ':');
      assert |parts| == 2;
      assert ScanForId(lines) == Some(TrimSpace(parts[1]));
    } else {
      assert lines[1..][i - 1] == lines[i];
      ScanFindsIdLine(lines[1..], i - 1);
    }
  }

  /** `ExtractBlueprintID`. */
  function ExtractBlueprintId(output: string): (id: string)
    ensures NoOuterSpace(id)
    ensures (forall i :: 0 <= i < |Lines(output)| ==> !IsIdLine(Lines(output)[i])) ==> id == TrimSpace(output)
  {
    match ScanForId(Lines(output))
    case Some(v) => v
    case None => TrimSpace(output)
  }

  /** `ExtractStackID`: stack creation prints its identifier in the same format. */
  function ExtractStackId(output: string): (id: string)
    ensures NoOuterSpace(id)
    ensures id == ExtractBlueprintId(output)
  {
    ExtractBlueprintId(output)
  }

  /**
   * The first identifier line decides: if line `i` is `head + ":" + value` with no
   * ':' in `head`, and no earlier line is an identifier line, the scan returns the
   * trimmed `value`, whatever later lines say and whatever colons `value` holds.
   */
  lemma {:induction false} ScanTakesFirstIdLine(lines: seq<string>, i: nat, head: string, value: string)
    requires i < |lines|
    requires forall j :: 0 <= j < i ==> !IsIdLine(lines[j])
    requires IsIdLine(lines[i])
    requires lines[i] == head + [':'] + value && ':' !in head
    ensures ScanForId(lines) == Some(TrimSpace(value))
    decreases i
  {
    if i == 0 {
      SplitFirstAt(head, ':', value);
    } else {
      assert !IsIdLine(lines[0]);
      ScanTakesFirstIdLine(lines[1..], i - 1, head, value);
    }
  }

  /** ScanTakesFirstIdLine, stated for the whole output. */
  lemma ExtractTakesFirstIdLine(output: string, i: nat, head: string, value: string)
    requires i < |Lines(output)|
    requires forall j :: 0 <= j < i ==> !IsIdLine(Lines(output)[j])
    requires IsIdLine(Lines(output)[i])
    requires Lines(output)[i] == head + [':'] + value && ':' !in head
    ensures ExtractBlueprintId(output) == TrimSpace(value)
  {
    ScanTakesFirstIdLine(Lines(output), i, head, value);
  }

  /**
   * Round trip with the CLI's announcement: output that starts with the line
   * `ID: <id>` yields `<id>` back, for any `<id>` that is a single line without
   * outer spaces (colons and slashes included) and whatever follows.
   */
  lemma ExtractAnnouncedId(id: string, rest: string)
    requires '\n' !in id && NoOuterSpace(id)
    ensures ExtractBlueprintId("ID: " + id + "\n" + rest) == id
  {
    AnnouncementLine(id);
    ExtractFromFirstLine("ID: " + id, rest, "ID", " " + id);
  }

  /** An identifier line followed by anything: its value is the identifier. */
  lemma ExtractFromFirstLine(line: string, rest: string, head: string, value: string)
    requires '\n' !in line && IsIdLine(line)
    requires line == head + [':'] + value && ':' !in head
    ensures ExtractBlueprintId(line + "\n" + rest) == TrimSpace(value)
  {
    var output := line + "\n" + rest;
    assert output == line + ['\n'] + rest;
    SplitAfterPiece(line, '\n', rest);
    ScanTakesFirstIdLine(Lines(output), 0, head, value);
  }

  /** The line `ID: <id>` is an identifier line whose value trims to `<id>`. */
  lemma AnnouncementLine(id: string)
    requires '\n' !in id && NoOuterSpace(id)
    ensures '\n' !in "ID: " + id
    ensures IsIdLine("ID: " + id)
    ensures "ID: " + id == "ID" + [':'] + (" " + id)
    ensures TrimSpace(" " + id) == id
  {
    AnnouncementSingleLine(id);
    AnnouncementTrims(id);
    AnnouncementSplits(id);
    ValueTrims(id);
  }

  lemma AnnouncementSingleLine(id: string)
    requires '\n' !in id
    ensures '\n' !in "ID: " + id
  {
  }

  lemma AnnouncementSplits(id: string)
    ensures "ID: " + id == "ID" + [':'] + (" " + id)
  {
  }

  lemma ValueTrims(id: string)
    requires NoOuterSpace(id)
    ensures TrimSpace(" " + id) == id
  {
    assert " " + id == [' '] + id + [];
    TrimSpaceUnique(" " + id, [' '], id, []);
  }

  lemma AnnouncementTrims(id: string)
    requires NoOuterSpace(id)
    ensures IsIdLine("ID: " + id)
  {
    var line := "ID: " + id;
    if |id| == 0 {
      assert line == [] + "ID:" + " ";
      TrimSpaceUnique(line, [], "ID:", " ");
    } else {
      assert line[|line| - 1] == id[|id| - 1];
      assert line == [] + line + [];
      TrimSpaceUnique(line, [], line, []);
    }
  }

  /**
   * The fallback: output that is a bare identifier (one line, no outer spaces,
   * not starting with `ID:`) is returned unchanged.
   */
  lemma ExtractBareId(id: string)
    requires '\n' !in id && NoOuterSpace(id)
    requires !(IdLabel <= id)
    ensures ExtractBlueprintId(id) == id
  {
    SplitWithoutSeparator(id, '\n');
    TrimmedIsFixed(id);
  }
}
