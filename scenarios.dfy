/** What the scan of Program.cs:103-182 makes of groups of several records,
    in particular how its index arithmetic treats the line after a START
    RECORDING record, and two concrete timestamp matches. */
module Scenarios {
  import opened Text
  import opened Matchers
  import opened Converter

  /** A hotkey record whose timestamp line is followed by a blank line
      emits its note and resumes three lines on. */
  lemma HotkeyThenBlank(lines: seq<string>, i: nat, timestamp: string, key: string)
    requires i + 2 < |lines| && StartsWith(Trim(lines[i]), HotkeyTag)
    requires MatchNoteKey(Trim(lines[i])) == Some(key)
    requires MatchTimestamp(Trim(lines[i + 1])) == Some(timestamp) && IsBlank(lines[i + 2])
    ensures Scan(lines, i) == Prepend([timestamp + " " + Trim(key)], [], Scan(lines, i + 3))
  {
    HotkeyEmits(lines, i, timestamp, key);
  }

  /** A non-marker on the last line ends the scan with nothing added. */
  lemma LastLineNotAMarker(lines: seq<string>, i: nat)
    requires i + 1 == |lines| && !IsMarker(Trim(lines[i]))
    ensures Scan(lines, i) == Conversion([], [])
  {
    SkipsNonMarker(lines, i);
    assert Scan(lines, i + 1) == Conversion([], []);
  }

  /** Seven final lines shaped like a hotkey record, a blank line, a START
      RECORDING record and one more line pair: whatever line i + 5 holds,
      even another hotkey marker, the only output is the first note. */
  lemma StartRecordingSwallowsNextLine(lines: seq<string>, i: nat, first: string, key: string, second: string)
    requires i + 7 == |lines|
    requires StartsWith(Trim(lines[i]), HotkeyTag) && MatchNoteKey(Trim(lines[i])) == Some(key)
    requires MatchTimestamp(Trim(lines[i + 1])) == Some(first) && IsBlank(lines[i + 2])
    requires StartsWith(Trim(lines[i + 3]), EventTag) && Contains(Trim(lines[i + 3]), StartRecording)
    requires MatchTimestamp(Trim(lines[i + 4])) == Some(second)
    requires !IsMarker(Trim(lines[i + 6]))
    ensures Scan(lines, i) == Conversion([first + " " + Trim(key)], [])
  {
    var entry := first + " " + Trim(key);
    HotkeyThenBlank(lines, i, first, key);
    StartStopSkipsThree(lines, i + 3, second);
    LastLineNotAMarker(lines, i + 6);
    var tail := Scan(lines, i + 3);
    assert tail == Conversion([], []);
    assert Prepend([entry], [], tail) == Conversion([entry], []) by {
      assert [entry] + [] == [entry];
    }
  }

  /** The text that follows the timestamp on a timestamp line. */
  const RecordTimeMarker: string := " Record Time Marker"

  /** Letters and digits are not white space. */
  lemma NotWhite(c: char)
    requires 'A' <= c <= 'Z' || 'a' <= c <= 'z' || '0' <= c <= '9'
    ensures !IsWhiteSpace(c)
  {
  }

  /** A timestamp line is its own trim, yields its timestamp and opens no
      record. */
  lemma TimestampLine(t: string)
    requires IsTimestamp(t)
    ensures Trim(t + RecordTimeMarker) == t + RecordTimeMarker
    ensures MatchTimestamp(t + RecordTimeMarker) == Some(t)
    ensures !IsMarker(t + RecordTimeMarker)
  {
    var s := t + RecordTimeMarker;
    assert t[..|t| - 6][0] == t[0];
    assert s[0] == t[0] && s[|s| - 1] == 'r';
    NotWhite(s[0]);
    NotWhite(s[|s| - 1]);
    TrimOfTrimmed(s);
    assert t <= s;
    assert !StartsWith(s, EventTag) by { assert EventTag[0] != s[0]; }
    assert !StartsWith(s, HotkeyTag) by { assert HotkeyTag[0] != s[0]; }
  }

  /** `HOTKEY:Intro@ctx1` is its own trim and carries the note key `Intro`. */
  lemma IntroLine(s: string)
    requires s == HotkeyTag + "Intro@ctx1"
    ensures Trim(s) == s && StartsWith(s, HotkeyTag) && MatchNoteKey(s) == Some("Intro")
  {
    NotWhite(s[0]);
    NotWhite(s[|s| - 1]);
    TrimOfTrimmed(s);
    assert KeyMatchAt(s, 0, 5);
    NoteKeyAtStart(s, 5);
    assert s[|HotkeyTag|..|HotkeyTag| + 5] == "Intro";
  }

  /** `EVENT: START RECORDING` is its own trim and names START RECORDING. */
  lemma StartLine(s: string)
    requires s == EventTag + " " + StartRecording
    ensures Trim(s) == s && StartsWith(s, EventTag) && Contains(s, StartRecording)
  {
    NotWhite(s[0]);
    NotWhite(s[|s| - 1]);
    TrimOfTrimmed(s);
    assert OccursAt(s, StartRecording, 7);
  }

  /** `Intro` is its own trim. */
  lemma IntroTrimmed()
    ensures Trim("Intro") == "Intro"
  {
    NotWhite('I');
    NotWhite('o');
    TrimOfTrimmed("Intro");
  }

  /** Seven final lines of the shape below, with any timestamps `t1`, `t2`,
      `t3`, give the single chapter line for the trimmed key `Intro`. */
  lemma IntroThenStart(lines: seq<string>, i: nat, t1: string, t2: string, t3: string)
    requires IsTimestamp(t1) && IsTimestamp(t2) && IsTimestamp(t3)
    requires i + 7 == |lines|
    requires lines[i] == HotkeyTag + "Intro@ctx1"
    requires lines[i + 1] == t1 + RecordTimeMarker
    requires lines[i + 2] == ""
    requires lines[i + 3] == EventTag + " " + StartRecording
    requires lines[i + 4] == t2 + RecordTimeMarker
    requires lines[i + 6] == t3 + RecordTimeMarker
    ensures Scan(lines, i) == Conversion([t1 + " " + Trim("Intro")], [])
  {
    IntroLine(lines[i]);
    TimestampLine(t1);
    StartLine(lines[i + 3]);
    TimestampLine(t2);
    TimestampLine(t3);
    StartRecordingSwallowsNextLine(lines, i, t1, "Intro", t2);
  }

  /** The three timestamps of the example below match the pattern. */
  lemma ExampleTimestamps()
    ensures IsTimestamp("0:01:00") && IsTimestamp("0:02:00") && IsTimestamp("0:03:15")
  {
  }

  /** The seven lines `HOTKEY:Intro@ctx1`, `0:01:00 Record Time Marker`, an
      empty line, `EVENT: START RECORDING`, `0:02:00 Record Time Marker`,
      `HOTKEY:Outro@ctx2` and `0:03:15 Record Time Marker` give the single
      chapter line `0:01:00 Intro`, not also `0:03:15 Outro`: the START
      RECORDING record consumes the `Outro` marker, which leaves its
      timestamp line unused. */
  lemma SecondNoteSwallowed(lines: seq<string>)
    requires |lines| == 7
    requires lines[0] == HotkeyTag + "Intro@ctx1"
    requires lines[1] == "0:01:00" + RecordTimeMarker
    requires lines[2] == ""
    requires lines[3] == EventTag + " " + StartRecording
    requires lines[4] == "0:02:00" + RecordTimeMarker
    requires lines[5] == HotkeyTag + "Outro@ctx2"
    requires lines[6] == "0:03:15" + RecordTimeMarker
    ensures Convert(lines) == Conversion(["0:01:00 Intro"], [])
  {
    var entry := "0:01:00" + " " + Trim("Intro");
    assert Convert(lines) == Conversion([entry], []) by {
      ExampleTimestamps();
      IntroThenStart(lines, 0, "0:01:00", "0:02:00", "0:03:15");
    }
    assert entry == "0:01:00 Intro" by {
      IntroTrimmed();
    }
  }

  /** Without an end anchor, the timestamp pattern captures only the prefix
      it matches: the third minute digit is dropped. */
  lemma TimestampIsAPrefix()
    ensures MatchTimestamp("1:23:456 Record Time Marker") == Some("1:23:45")
  {
    assert "1:23:45" <= "1:23:456 Record Time Marker" && IsTimestamp("1:23:45");
  }

  /** A timestamp needs two-digit minutes and seconds. */
  lemma ShortMinutesRejected()
    ensures MatchTimestamp("1:2:03 Record Time Marker").None?
  {
  }
}
