/** The log-to-chapter conversion of `ConvertInfoWriterOutput`
    (Program.cs:100-185) without its file I/O: the lines of the input file go
    in, the chapter lines and the warnings come out.

    The scan index is reproduced exactly as the source moves it, including
    the `for` increment that also runs after every `continue`. */
module Converter {
  import opened Text
  import opened Matchers

  const EventTag: string := "EVENT:"
  const StartRecording: string := "START RECORDING"
  const StopRecording: string := "STOP RECORDING"
  const RecordingPaused: string := "RECORDING PAUSED"
  const RecordingResumed: string := "RECORDING RESUMED"

  /** A recoverable problem with one record. Line numbers are 1-based, as
      printed. */
  datatype Warning =
    | MissingTimestamp(marker: string, line: nat)
    | BadTimestamp(line: nat, text: string)
    | BadNoteKey(line: nat, text: string)

  /** The console line printed for a warning. */
  function Message(w: Warning): (m: string)
    ensures "Warning: " <= m
  {
    match w
    case MissingTimestamp(marker, line) =>
      "Warning: Found " + marker + " without timestamp on line " + NatToString(line)
    case BadTimestamp(line, text) =>
      "Warning: Could not parse timestamp from line " + NatToString(line) + ": " + text
    case BadNoteKey(line, text) =>
      "Warning: Could not parse note key from line " + NatToString(line) + ": " + text
  }

  /** A trimmed line that opens a record: not blank, and starting with
      `EVENT:` or `HOTKEY:`. */
  predicate IsMarker(current: string) {
    !IsBlank(current) && (StartsWith(current, EventTag) || StartsWith(current, HotkeyTag))
  }

  /** Where one pass of the loop body leaves the index (after the `for`
      increment), and what it appended to the output and to the warnings. */
  datatype Advance = Advance(next: nat, emitted: seq<string>, warned: seq<Warning>)

  /** The index after a record that takes the generic path at the end of the
      loop body: past the timestamp line, and past line i + 2 as well when
      that line exists and is white space only. */
  function AfterRecord(lines: seq<string>, i: nat): (next: nat)
    ensures next == i + 2 || next == i + 3
    ensures next == i + 3 <==> i + 2 < |lines| && IsBlank(lines[i + 2])
  {
    if i + 2 < |lines| && IsBlank(lines[i + 2]) then i + 3 else i + 2
  }

  /** One pass of the loop body of `ConvertInfoWriterOutput` at index `i`. */
  function Step(lines: seq<string>, i: nat): (a: Advance)
    requires i < |lines|
    ensures i < a.next <= i + 3
    ensures |a.emitted| + |a.warned| <= 1
    ensures a.emitted != [] || a.warned != [] ==> IsMarker(Trim(lines[i]))
  {
    var current := Trim(lines[i]);
    if IsBlank(current) || (!StartsWith(current, EventTag) && !StartsWith(current, HotkeyTag)) then
      Advance(i + 1, [], [])
    else if i + 1 >= |lines| then
      Advance(i + 1, [], [MissingTimestamp(current, i + 1)])
    else
      var timestampLine := Trim(lines[i + 1]);
      match MatchTimestamp(timestampLine)
      case None => Advance(i + 1, [], [BadTimestamp(i + 2, timestampLine)])
      case Some(timestamp) =>
        if StartsWith(current, EventTag) && (Contains(current, StartRecording) || Contains(current, StopRecording)) then
          Advance(i + 3, [], [])
        else if StartsWith(current, EventTag) && Contains(current, RecordingPaused) then
          Advance(i + 3, [timestamp + " " + RecordingPaused], [])
        else if StartsWith(current, EventTag) && Contains(current, RecordingResumed) then
          Advance(i + 3, [timestamp + " " + RecordingResumed], [])
        else if StartsWith(current, HotkeyTag) then
          match MatchNoteKey(current)
          case Some(key) => Advance(AfterRecord(lines, i), [timestamp + " " + Trim(key)], [])
          case None => Advance(AfterRecord(lines, i), [], [BadNoteKey(i + 1, current)])
        else
          Advance(AfterRecord(lines, i), [], [])
  }

  /** What the scan appends from index `i` to the end of the input. */
  datatype Conversion = Conversion(output: seq<string>, warnings: seq<Warning>)

  function Prepend(output: seq<string>, warnings: seq<Warning>, c: Conversion): Conversion {
    Conversion(output + c.output, warnings + c.warnings)
  }

  /** The remainder of the scan loop, started at index `i`. */
  function Scan(lines: seq<string>, i: nat): Conversion
    decreases |lines| - i
  {
    if i >= |lines| then Conversion([], [])
    else
      var a := Step(lines, i);
      Prepend(a.emitted, a.warned, Scan(lines, a.next))
  }

  /** The whole conversion of a file's lines. */
  function Convert(lines: seq<string>): Conversion {
    Scan(lines, 0)
  }

  lemma PrependTwice(o: seq<string>, w: seq<Warning>, e: seq<string>, x: seq<Warning>, c: Conversion)
    ensures Prepend(o, w, Prepend(e, x, c)) == Prepend(o + e, w + x, c)
  {
    assert o + (e + c.output) == (o + e) + c.output;
    assert w + (x + c.warnings) == (w + x) + c.warnings;
  }

  /** One pass of the loop body of `ConvertInfoWriterOutput`
      (Program.cs:107-181) at index `i`: returns the index the next pass
      starts at, after the `for` increment, and what this pass appended to
      the output and printed as warnings. Each `continue` of the source is a
      `return` here. */
  method ScanLine(lines: seq<string>, i: nat) returns (next: nat, emitted: seq<string>, warned: seq<Warning>)
    requires i < |lines|
    ensures Advance(next, emitted, warned) == Step(lines, i)
  {
    var currentLine := Trim(lines[i]);
    if IsBlank(currentLine) || (!StartsWith(currentLine, EventTag) && !StartsWith(currentLine, HotkeyTag)) {
      return i + 1, [], [];  // `continue`, then the loop increment
    }
    if i + 1 >= |lines| {
      return i + 1, [], [MissingTimestamp(currentLine, i + 1)];
    }
    var timestampLine := Trim(lines[i + 1]);
    var timestampMatch := MatchTimestamp(timestampLine);
    if timestampMatch.None? {
      // the timestamp line is looked at again, as a marker, by the next pass
      return i + 1, [], [BadTimestamp(i + 2, timestampLine)];
    }
    next, emitted, warned := ScanRecord(lines, i, currentLine, timestampMatch.value);
  }

  /** The rest of the loop body once line i is a marker and line i + 1 holds
      the timestamp (Program.cs:133-181). */
  method ScanRecord(lines: seq<string>, i: nat, currentLine: string, timestamp: string)
      returns (next: nat, emitted: seq<string>, warned: seq<Warning>)
    requires i + 1 < |lines| && currentLine == Trim(lines[i]) && IsMarker(currentLine)
    requires MatchTimestamp(Trim(lines[i + 1])) == Some(timestamp)
    ensures Advance(next, emitted, warned) == Step(lines, i)
  {
    if StartsWith(currentLine, EventTag) {
      if Contains(currentLine, StartRecording) || Contains(currentLine, StopRecording) {
        return i + 2 + 1, [], [];  // `i += 2`, then the loop increment
      } else if Contains(currentLine, RecordingPaused) {
        return i + 2 + 1, [timestamp + " " + RecordingPaused], [];
      } else if Contains(currentLine, RecordingResumed) {
        return i + 2 + 1, [timestamp + " " + RecordingResumed], [];
      }
    }
    emitted, warned := [], [];
    if StartsWith(currentLine, HotkeyTag) {
      var noteKeyMatch := MatchNoteKey(currentLine);
      if noteKeyMatch.Some? {
        var noteKey := Trim(noteKeyMatch.value);
        emitted := [timestamp + " " + noteKey];
      } else {
        warned := [BadNoteKey(i + 1, currentLine)];
      }
    }
    next := i + 1;  // past the timestamp line
    if next + 1 < |lines| && IsBlank(lines[next + 1]) {
      next := next + 1;
    }
    next := next + 1;  // the loop increment
  }

  /** The scan loop of `ConvertInfoWriterOutput` (Program.cs:103-182). */
  method ConvertLines(lines: seq<string>) returns (output: seq<string>, warnings: seq<Warning>)
    ensures Conversion(output, warnings) == Convert(lines)
  {
    output, warnings := [], [];
    var i: nat := 0;
    while i < |lines|
      invariant Convert(lines) == Prepend(output, warnings, Scan(lines, i))
      decreases |lines| - i
    {
      var next, emitted, warned := ScanLine(lines, i);
      PrependTwice(output, warnings, emitted, warned, Scan(lines, next));
      output, warnings := output + emitted, warnings + warned;
      i := next;
    }
  }

  // Properties of the scan, one branch of the loop body at a time.

  /** The scan from a line inside the input is one pass followed by the rest. */
  lemma ScanUnfold(lines: seq<string>, i: nat)
    requires i < |lines|
    ensures Scan(lines, i) == Prepend(Step(lines, i).emitted, Step(lines, i).warned, Scan(lines, Step(lines, i).next))
  {
  }

  /** A line that starts with a tag is not blank. */
  lemma TaggedNotBlank(current: string, tag: string)
    requires tag != [] && !IsWhiteSpace(tag[0]) && StartsWith(current, tag)
    ensures !IsBlank(current)
  {
    assert current[0] == tag[0];
  }

  lemma PrependNothing(c: Conversion)
    ensures Prepend([], [], c) == c
  {
    assert [] + c.output == c.output && [] + c.warnings == c.warnings;
  }

  /** A blank line, or one whose trimmed form starts with neither `EVENT:`
      nor `HOTKEY:`, adds no output and no warning; the scan goes on with the
      next line. */
  lemma SkipsNonMarker(lines: seq<string>, i: nat)
    requires i < |lines| && !IsMarker(Trim(lines[i]))
    ensures Scan(lines, i) == Scan(lines, i + 1)
  {
    ScanUnfold(lines, i);
    assert Step(lines, i) == Advance(i + 1, [], []);
    PrependNothing(Scan(lines, i + 1));
  }

  /** A marker on the last line adds one warning and no output, and ends the
      scan. */
  lemma MarkerOnLastLine(lines: seq<string>, i: nat)
    requires i + 1 == |lines| && IsMarker(Trim(lines[i]))
    ensures Scan(lines, i) == Conversion([], [MissingTimestamp(Trim(lines[i]), i + 1)])
  {
    ScanUnfold(lines, i);
    assert Step(lines, i) == Advance(i + 1, [], [MissingTimestamp(Trim(lines[i]), i + 1)]);
    assert Scan(lines, i + 1) == Conversion([], []);
  }

  /** A marker whose next line has no `digits:dd:dd` prefix adds one warning
      and no output, and the scan resumes at that next line, which is looked
      at again as a possible marker. */
  lemma BadTimestampRescans(lines: seq<string>, i: nat)
    requires i + 1 < |lines| && IsMarker(Trim(lines[i])) && MatchTimestamp(Trim(lines[i + 1])).None?
    ensures Scan(lines, i) == Prepend([], [BadTimestamp(i + 2, Trim(lines[i + 1]))], Scan(lines, i + 1))
  {
    ScanUnfold(lines, i);
    assert Step(lines, i) == Advance(i + 1, [], [BadTimestamp(i + 2, Trim(lines[i + 1]))]);
  }

  lemma StepStartStop(lines: seq<string>, i: nat, timestamp: string)
    requires i + 1 < |lines| && StartsWith(Trim(lines[i]), EventTag)
    requires MatchTimestamp(Trim(lines[i + 1])) == Some(timestamp)
    requires Contains(Trim(lines[i]), StartRecording) || Contains(Trim(lines[i]), StopRecording)
    ensures Step(lines, i) == Advance(i + 3, [], [])
  {
    TaggedNotBlank(Trim(lines[i]), EventTag);
  }

  /** `EVENT:` lines naming START RECORDING or STOP RECORDING add nothing
      whatever else they contain, and consume three lines: the marker, the
      timestamp and the next line, whatever that line holds. */
  lemma StartStopSkipsThree(lines: seq<string>, i: nat, timestamp: string)
    requires i + 1 < |lines| && StartsWith(Trim(lines[i]), EventTag)
    requires MatchTimestamp(Trim(lines[i + 1])) == Some(timestamp)
    requires Contains(Trim(lines[i]), StartRecording) || Contains(Trim(lines[i]), StopRecording)
    ensures Scan(lines, i) == Scan(lines, i + 3)
  {
    StepStartStop(lines, i, timestamp);
    ScanUnfold(lines, i);
    PrependNothing(Scan(lines, i + 3));
  }

  /** Otherwise an `EVENT:` line naming RECORDING PAUSED adds exactly
      "<timestamp> RECORDING PAUSED" and consumes three lines. */
  lemma PausedEmits(lines: seq<string>, i: nat, timestamp: string)
    requires i + 1 < |lines| && StartsWith(Trim(lines[i]), EventTag)
    requires MatchTimestamp(Trim(lines[i + 1])) == Some(timestamp)
    requires !Contains(Trim(lines[i]), StartRecording) && !Contains(Trim(lines[i]), StopRecording)
    requires Contains(Trim(lines[i]), RecordingPaused)
    ensures Scan(lines, i) == Prepend([timestamp + " " + RecordingPaused], [], Scan(lines, i + 3))
  {
    TaggedNotBlank(Trim(lines[i]), EventTag);
    ScanUnfold(lines, i);
    assert Step(lines, i) == Advance(i + 3, [timestamp + " " + RecordingPaused], []);
  }

  /** Otherwise an `EVENT:` line naming RECORDING RESUMED adds exactly
      "<timestamp> RECORDING RESUMED" and consumes three lines. */
  lemma ResumedEmits(lines: seq<string>, i: nat, timestamp: string)
    requires i + 1 < |lines| && StartsWith(Trim(lines[i]), EventTag)
    requires MatchTimestamp(Trim(lines[i + 1])) == Some(timestamp)
    requires !Contains(Trim(lines[i]), StartRecording) && !Contains(Trim(lines[i]), StopRecording)
    requires !Contains(Trim(lines[i]), RecordingPaused) && Contains(Trim(lines[i]), RecordingResumed)
    ensures Scan(lines, i) == Prepend([timestamp + " " + RecordingResumed], [], Scan(lines, i + 3))
  {
    TaggedNotBlank(Trim(lines[i]), EventTag);
    ScanUnfold(lines, i);
    assert Step(lines, i) == Advance(i + 3, [timestamp + " " + RecordingResumed], []);
  }

  /** Any other `EVENT:` line with a timestamp adds nothing, not even a
      warning, and takes the generic path: two lines, or three when line
      i + 2 is white space only. */
  lemma OtherEventSilent(lines: seq<string>, i: nat, timestamp: string)
    requires i + 1 < |lines| && StartsWith(Trim(lines[i]), EventTag)
    requires MatchTimestamp(Trim(lines[i + 1])) == Some(timestamp)
    requires !Contains(Trim(lines[i]), StartRecording) && !Contains(Trim(lines[i]), StopRecording)
    requires !Contains(Trim(lines[i]), RecordingPaused) && !Contains(Trim(lines[i]), RecordingResumed)
    ensures Scan(lines, i) == Scan(lines, AfterRecord(lines, i))
  {
    TaggedNotBlank(Trim(lines[i]), EventTag);
    assert !StartsWith(Trim(lines[i]), HotkeyTag) by {
      assert Trim(lines[i])[0] == 'E';
    }
    ScanUnfold(lines, i);
    assert Step(lines, i) == Advance(AfterRecord(lines, i), [], []);
    PrependNothing(Scan(lines, AfterRecord(lines, i)));
  }

  /** A `HOTKEY:` line with a timestamp and a note key adds
      "<timestamp> <trimmed key>" and takes the generic path. */
  lemma HotkeyEmits(lines: seq<string>, i: nat, timestamp: string, key: string)
    requires i + 1 < |lines| && StartsWith(Trim(lines[i]), HotkeyTag)
    requires MatchTimestamp(Trim(lines[i + 1])) == Some(timestamp)
    requires MatchNoteKey(Trim(lines[i])) == Some(key)
    ensures Scan(lines, i) == Prepend([timestamp + " " + Trim(key)], [], Scan(lines, AfterRecord(lines, i)))
  {
    TaggedNotBlank(Trim(lines[i]), HotkeyTag);
    assert !StartsWith(Trim(lines[i]), EventTag) by {
      assert Trim(lines[i])[0] == 'H';
    }
    ScanUnfold(lines, i);
    assert Step(lines, i) == Advance(AfterRecord(lines, i), [timestamp + " " + Trim(key)], []);
  }

  /** A `HOTKEY:` line with a timestamp but no `HOTKEY:<key>@` match adds
      one warning and no output, and takes the generic path. */
  lemma HotkeyWithoutKeyWarns(lines: seq<string>, i: nat, timestamp: string)
    requires i + 1 < |lines| && StartsWith(Trim(lines[i]), HotkeyTag)
    requires MatchTimestamp(Trim(lines[i + 1])) == Some(timestamp)
    requires MatchNoteKey(Trim(lines[i])).None?
    ensures Scan(lines, i) == Prepend([], [BadNoteKey(i + 1, Trim(lines[i]))], Scan(lines, AfterRecord(lines, i)))
  {
    TaggedNotBlank(Trim(lines[i]), HotkeyTag);
    assert !StartsWith(Trim(lines[i]), EventTag) by {
      assert Trim(lines[i])[0] == 'H';
    }
    ScanUnfold(lines, i);
    assert Step(lines, i) == Advance(AfterRecord(lines, i), [], [BadNoteKey(i + 1, Trim(lines[i]))]);
  }

  // Properties of the whole output.

  /** The number of marker lines from index `i` on. */
  function MarkerCount(lines: seq<string>, i: nat): nat
    decreases |lines| - i
  {
    if i >= |lines| then 0
    else (if IsMarker(Trim(lines[i])) then 1 else 0) + MarkerCount(lines, i + 1)
  }

  lemma {:induction false} MarkerCountMonotone(lines: seq<string>, i: nat, j: nat)
    requires i <= j
    ensures MarkerCount(lines, j) <= MarkerCount(lines, i)
    decreases j - i
  {
    if i < j && i < |lines| {
      MarkerCountMonotone(lines, i + 1, j);
    }
  }

  /** The output never has more lines than the input has marker lines. */
  lemma {:induction false} OutputBound(lines: seq<string>, i: nat)
    ensures |Scan(lines, i).output| <= MarkerCount(lines, i)
    decreases |lines| - i
  {
    if i < |lines| {
      var a := Step(lines, i);
      ScanUnfold(lines, i);
      OutputBound(lines, a.next);
      MarkerCountMonotone(lines, i + 1, a.next);
    }
  }

  /** The index of the marker line each output line comes from. */
  ghost function Origins(lines: seq<string>, i: nat): seq<nat>
    decreases |lines| - i
  {
    if i >= |lines| then []
    else
      var a := Step(lines, i);
      (if a.emitted != [] then [i] else []) + Origins(lines, a.next)
  }

  /** Output line `entry` is the one emitted at marker line `j`: line j + 1
      carries a timestamp, and the entry begins with that timestamp, as
      captured, and a space. */
  ghost predicate EmittedAt(lines: seq<string>, j: nat, entry: string) {
    j + 1 < |lines| && IsMarker(Trim(lines[j]))
    && MatchTimestamp(Trim(lines[j + 1])).Some?
    && StartsWith(entry, MatchTimestamp(Trim(lines[j + 1])).value + " ")
    && Step(lines, j).emitted == [entry]
  }

  /** A pass that emits, emits the timestamp of line i + 1 and a space. */
  lemma EmitsTimestamp(lines: seq<string>, i: nat)
    requires i < |lines| && Step(lines, i).emitted != []
    ensures EmittedAt(lines, i, Step(lines, i).emitted[0])
  {
  }

  lemma OriginsUnfold(lines: seq<string>, i: nat)
    requires i < |lines|
    ensures Origins(lines, i) == (if Step(lines, i).emitted != [] then [i] else []) + Origins(lines, Step(lines, i).next)
  {
  }

  /** `s` is strictly increasing, and its elements lie in [lo, hi). */
  predicate AscendingWithin(s: seq<nat>, lo: nat, hi: nat) {
    (forall k :: 0 <= k < |s| ==> lo <= s[k] < hi)
    && (forall k, l :: 0 <= k < l < |s| ==> s[k] < s[l])
  }

  lemma ConsAscending(i: nat, s: seq<nat>, lo: nat, hi: nat)
    requires i < lo && AscendingWithin(s, lo, hi) && i < hi
    ensures AscendingWithin([i] + s, i, hi)
  {
    var t := [i] + s;
    forall k | 0 < k < |t|
      ensures t[k] == s[k - 1]
    {
    }
  }

  lemma WidenAscending(s: seq<nat>, lo: nat, lo': nat, hi: nat)
    requires lo' <= lo && AscendingWithin(s, lo, hi)
    ensures AscendingWithin(s, lo', hi)
  {
  }

  /** The origins are lines of the input from `i` on, in increasing order. */
  lemma {:induction false} OriginsAscending(lines: seq<string>, i: nat)
    ensures AscendingWithin(Origins(lines, i), i, |lines|)
    decreases |lines| - i
  {
    if i < |lines| {
      var a := Step(lines, i);
      OriginsAscending(lines, a.next);
      OriginsUnfold(lines, i);
      if a.emitted != [] {
        ConsAscending(i, Origins(lines, a.next), a.next, |lines|);
        assert Origins(lines, i) == [i] + Origins(lines, a.next);
      } else {
        WidenAscending(Origins(lines, a.next), a.next, i, |lines|);
        assert Origins(lines, i) == Origins(lines, a.next);
      }
    }
  }

  /** Every output line comes from a marker line of its own (the origins are
      ascending by `OriginsAscending`): the entry is what that marker's pass
      emitted, and it begins with the timestamp captured from the next line. */
  lemma {:induction false} OutputOrigins(lines: seq<string>, i: nat)
    ensures |Origins(lines, i)| == |Scan(lines, i).output|
    ensures forall k :: 0 <= k < |Origins(lines, i)| ==>
      EmittedAt(lines, Origins(lines, i)[k], Scan(lines, i).output[k])
    decreases |lines| - i
  {
    if i < |lines| {
      var a := Step(lines, i);
      var origins, rest := Origins(lines, a.next), Scan(lines, a.next).output;
      OutputOrigins(lines, a.next);
      ScanUnfold(lines, i);
      OriginsUnfold(lines, i);
      var all, output := Origins(lines, i), Scan(lines, i).output;
      if a.emitted != [] {
        EmitsTimestamp(lines, i);
        assert all == [i] + origins;
        assert output == a.emitted + rest;
        forall k | 0 <= k < |all|
          ensures EmittedAt(lines, all[k], output[k])
        {
          if k > 0 {
            assert all[k] == origins[k - 1] && output[k] == rest[k - 1];
          }
        }
      } else {
        assert all == origins && output == rest;
      }
    }
  }
}
