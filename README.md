# InfoWriterConverter in Dafny

InfoWriterConverter turns the text log of the InfoWriter OBS plugin into a
chapter list. A marker line (`EVENT: ...` or `HOTKEY:<note>@<context>`) is
followed by a timestamp line (`0:05:23 Record Time Marker`). Each kept
record becomes one `<timestamp> <label>` line of the output file. Malformed
records cause a printed `Warning: ...` and are skipped. A few command-line
flags choose the input and output files.

This project models the two parts of `Program.cs` that hold logic:

- the command-line parsing at the start of `Main`, in module `Arguments`;
- the scan loop of `ConvertInfoWriterOutput`, in module `Converter`, with:
  - the .NET string primitives it uses, in module `Text`;
  - its two regular expressions, written out as matchers in module
    `Matchers`.

The scan is modelled twice:

- `ConvertLines` is imperative. Its `while` loop moves the index exactly as
  the source's `for` loop does. The loop body is split into the methods
  `ScanLine` and `ScanRecord`; each `continue` of the source is a `return`
  in them.
- `Step` and `Scan` are a functional reading of the same loop. `Step` is one
  pass of the body: it gives the next index, the output line added and the
  warning printed. `Scan` chains the passes, and `Convert` starts `Scan` at
  line 0.

`ConvertLines` is proved equal to `Convert`, and every other property is
proved about `Convert`.

Warnings are returned as values of type `Warning`. `Message` renders them
with the source's exact console texts.

Module `Scenarios` proves what the scan does with whole groups of records.

## Where the code differs from its comments

Each of the three `i += 2` lines (`Program.cs:141`, `:147`, `:153`) carries
the comment "Skip the timestamp line and potential empty line". That
suggests a blank third line is skipped only when it is there. In fact these
records always take three lines, whatever the third line holds: `i += 2`
plus the loop increment of `Program.cs:105`, with no test on the third line.
The model follows the code.

- `StartStopSkipsThree` states this for START RECORDING and STOP RECORDING
  records, and `PausedEmits` and `ResumedEmits` state it for RECORDING
  PAUSED and RECORDING RESUMED.
- A marker right after such a record is lost. Take the seven lines
  `HOTKEY:Intro@ctx1`, `0:01:00 Record Time Marker`, an empty line,
  `EVENT: START RECORDING`, `0:02:00 Record Time Marker`,
  `HOTKEY:Outro@ctx2` and `0:03:15 Record Time Marker`.
  - With the blank line skipped only when present, they would give
    `0:01:00 Intro` and `0:03:15 Outro`.
  - The code gives `0:01:00 Intro` alone. The START record consumes the
    `HOTKEY:Outro@ctx2` line, and the line after it, `0:03:15 Record Time
    Marker`, is not a marker.
  - `Scenarios.SecondNoteSwallowed` proves this for these literal lines.
  - `Scenarios.StartRecordingSwallowsNextLine` proves it for any seven
    lines of that shape, with the sixth line left free.

## Assumptions

- White space is the set that .NET's `char.IsWhiteSpace` reports. This
  affects `Trim` and `string.IsNullOrWhiteSpace`.
- `\d` is read as an ASCII digit.
- `StartsWith` and `Contains` compare ordinally.
- A `char` is one element of a Dafny `string`.

## Model

| member | source | states |
|---|---|---|
| Text.Trim | Program.cs:107 | `String.Trim`: removes leading and trailing white space; `TrimSpec` and `TrimUnique` state exactly what it removes |
| Text.TrimSpec | Program.cs:107 | `Trim(s)` is `s` with a white prefix and a white suffix removed; it is empty exactly when `s` is blank, and otherwise starts and ends with non-white characters |
| Text.TrimUnique | Program.cs:107 | any split of `s` into white prefix, core with non-white ends, and white suffix has that core as its trim |
| Text.TrimOfTrimmed | Program.cs:107 | a string with non-white first and last characters is its own trim |
| Text.IsBlank | Program.cs:178 | `string.IsNullOrWhiteSpace` on a non-null string: every character is white space, as `char.IsWhiteSpace` defines it |
| Text.StartsWith | Program.cs:111 | ordinal `StartsWith`: the tag is a prefix of the line |
| Text.Contains | Program.cs:138 | ordinal `Contains`: the text occurs in the line at some position |
| Text.BlankConcat | Program.cs:110 | a concatenation is blank exactly when both parts are |
| Text.NatToString | Program.cs:119 | the printed line number is a non-empty decimal numeral without leading zeros whose value is the number |
| Matchers.DigitRun | Program.cs:126 | the greedy `\d+`: a run of digits at the front of `s`, not followed by a digit |
| Matchers.TimestampHours | Program.cs:126 | any prefix matching the timestamp pattern takes the whole leading run of digits as its hours |
| Matchers.MatchTimestamp | Program.cs:126 | a result is a prefix of the line matching `\d+:\d{2}:\d{2}`; any such prefix is the result, so no match means no such prefix |
| Matchers.NonAtRun | Program.cs:162 | the greedy `[^@]+`: characters other than `@` from a position, ended by `@` when the line goes on |
| Matchers.KeyMatchLength | Program.cs:162 | the capture of a `HOTKEY:([^@]+)@` match at a given position has one possible length |
| Matchers.MatchKeyFrom | Program.cs:162 | the regex search for `HOTKEY:([^@]+)@` from a start position; `MatchKeyFromLeftmost` states that it finds the leftmost match |
| Matchers.MatchKeyFromLeftmost | Program.cs:162 | the search from position `p` returns the capture of the leftmost match at or after `p`, or reports that no match starts there |
| Matchers.MatchNoteKey | Program.cs:162-163 | the result is the capture of the leftmost match in the line; there is no result exactly when nothing in the line matches |
| Matchers.NoteKeyHasNoAt | Program.cs:162 | a captured note key is non-empty and contains no `@` |
| Matchers.NoteKeyAtStart | Program.cs:162 | a match at the start of the line is the one taken |
| Converter.Message | Program.cs:119-170 | every warning line starts with `Warning: ` |
| Converter.IsMarker | Program.cs:110-111 | a trimmed line opens a record exactly when it is not blank and starts with `EVENT:` or `HOTKEY:`; `SkipsNonMarker` states what happens to the other lines |
| Converter.AfterRecord | Program.cs:174-181 | after a record on the generic path the scan resumes two lines on, or three exactly when line i + 2 exists and is blank |
| Converter.Step | Program.cs:107-181 | one pass advances by one to three lines and adds at most one output line or warning, and adds something only for a marker line |
| Converter.ScanLine | Program.cs:107-131 | one pass of the loop body returns the index, the output and the warning that `Step` gives |
| Converter.ScanRecord | Program.cs:133-181 | the rest of the loop body, once the marker and the timestamp are known, agrees with `Step` |
| Converter.Scan | Program.cs:105-182 | the loop from index `i` on: the output lines and warnings of all passes from `i`, in order; the branch lemmas below, `OutputBound` and `OutputOrigins` state what they are |
| Converter.Convert | Program.cs:103-182 | the whole conversion, the scan from line 0; `ConvertLines` computes it, and `SecondNoteSwallowed` evaluates it on seven concrete lines |
| Converter.ConvertLines | Program.cs:103-182 | the loop's output lines and warnings are those of `Convert` |
| Converter.SkipsNonMarker | Program.cs:110-114 | a blank line or a non-marker adds nothing, and the scan goes on at the next line |
| Converter.MarkerOnLastLine | Program.cs:117-121 | a marker on the last line adds one missing-timestamp warning, with the 1-based line number, and nothing else |
| Converter.BadTimestampRescans | Program.cs:126-131 | a marker without a timestamp on the next line adds one warning, with that line's number and text; the scan resumes at that next line |
| Converter.StepStartStop | Program.cs:138-143 | a START or STOP RECORDING record is a pass of three lines with no output and no warning |
| Converter.StartStopSkipsThree | Program.cs:138-143 | a START or STOP RECORDING record adds nothing and the scan resumes three lines on |
| Converter.PausedEmits | Program.cs:144-149 | an `EVENT:` record naming RECORDING PAUSED, and neither START nor STOP, adds exactly `<timestamp> RECORDING PAUSED` and resumes three lines on |
| Converter.ResumedEmits | Program.cs:150-155 | an `EVENT:` record naming only RECORDING RESUMED adds exactly `<timestamp> RECORDING RESUMED` and resumes three lines on |
| Converter.OtherEventSilent | Program.cs:136-181 | any other `EVENT:` record adds neither output nor warning and takes the generic two-or-three-line step |
| Converter.HotkeyEmits | Program.cs:159-181 | a `HOTKEY:` record with a note key adds exactly `<timestamp> <trimmed key>` and takes the generic step |
| Converter.HotkeyWithoutKeyWarns | Program.cs:163-181 | a `HOTKEY:` record without a note key adds one warning with the marker's line number and text, and takes the generic step |
| Converter.OutputBound | Program.cs:105-182 | the output never has more lines than the input has marker lines |
| Converter.EmitsTimestamp | Program.cs:133-166 | an output line added by a pass starts with the timestamp captured from the following line, verbatim, and a space |
| Converter.OriginsAscending | Program.cs:105-182 | the marker lines that the output lines come from are distinct input lines, in increasing order |
| Converter.OutputOrigins | Program.cs:133-166 | there is one origin per output line; each output line is exactly what its marker's pass added, and it starts with that marker's timestamp |
| Scenarios.HotkeyThenBlank | Program.cs:159-181 | a hotkey record followed by a blank line adds its note and resumes three lines on |
| Scenarios.LastLineNotAMarker | Program.cs:110-114 | a non-marker on the last line ends the scan with nothing added |
| Scenarios.StartRecordingSwallowsNextLine | Program.cs:138-143 | seven final lines forming a hotkey record, a blank line and a START RECORDING record, then any line and a non-marker, give only the hotkey's note: the START record consumes the line after its timestamp, even a marker |
| Scenarios.SecondNoteSwallowed | Program.cs:105-181 | the seven concrete lines `HOTKEY:Intro@ctx1` … `0:03:15 Record Time Marker` convert to the single line `0:01:00 Intro`, with no warning |
| Scenarios.TimestampIsAPrefix | Program.cs:126 | `1:23:456 ...` yields the timestamp `1:23:45`, because the pattern has no end anchor |
| Scenarios.ShortMinutesRejected | Program.cs:126 | `1:2:03 ...` has no timestamp |
| Arguments.ExitCode | Program.cs:35-60 | a command line that stops the program exits with 0 for help and 1 for an error |
| Arguments.ErrorMessage | Program.cs:33-58 | every parse error line starts with `✗ Error: ` |
| Arguments.ErrorMessageInjective | Program.cs:33-58 | different parse errors print different lines |
| Arguments.ParseFrom | Program.cs:20-62 | the argument loop from index `i` with the file names so far; `ConfigIffWellPaired`, `LastFlagWins` and `FirstRefusalDecides` state its result |
| Arguments.Parse | Program.cs:16-62 | the whole parse, from index 0 with the default file names; `ParseArguments` computes it |
| Arguments.ParseArguments | Program.cs:16-62 | the parsing loop returns `Parse(args)`: the configuration, help or the error |
| Arguments.ConfigIffWellPaired | Program.cs:20-62 | parsing yields file names exactly when the arguments are pairs of an input or output flag and its value |
| Arguments.LastFlagWins | Program.cs:24-50 | in a successful parse, each file name is the value after the last flag of its kind, or its default when there is none |
| Arguments.Refusal | Program.cs:31-61 | the outcome for an argument that is not a file flag with a value (help, a missing value, an unknown argument) never carries file names |
| Arguments.FirstRefusalDecides | Program.cs:20-62 | a failed parse is decided by the first flag position without a file flag and value: help, a missing value or an unknown argument; later arguments are never read |
| Arguments.NoArguments | Program.cs:16-17 | without arguments the files are `input.txt` and `output.txt` |
| Arguments.ValuesTakenVerbatim | Program.cs:24-50 | the value after a flag is taken verbatim, even when it looks like a flag, in either order of the flags |
| Arguments.HelpFirst | Program.cs:52-55 | `-h` first stops parsing with help, whatever follows |
| Arguments.TrailingFlag | Program.cs:26-49 | a file flag after well-paired arguments is an error for a missing value, of its own kind |

## Left out

- Reading the input file (`Program.cs:102`) and writing the output file
  (`Program.cs:184`) are left out. The lines are a parameter, and the output
  lines are the result.
- The exception handling in `Main` (`Program.cs:65-80`) is left out: the
  file-not-found and generic I/O error messages and their exit code.
  Without file I/O nothing can throw.
- The success message after a conversion is left out.
- `ShowUsage` (`Program.cs:83-98`) is left out: it only prints fixed text.
  Console output in general is left out; warnings and parse errors are
  returned as values instead.
- Unicode `\d` matches other decimal digits too (Arabic-Indic, Devanagari,
  ...). The model accepts ASCII digits only.
- Culture-sensitive `StartsWith` is left out. The source calls it without
  `StringComparison.Ordinal`, which can ignore zero-width characters; the
  model compares ordinally.
- UTF-16 surrogate pairs are left out. .NET strings are UTF-16 code units;
  Dafny strings are Unicode scalar values.
- Converter.Message: its contract states only the common `Warning: `
  prefix. The three texts of `Program.cs:119`, `:129` and `:170` are its
  body.
- Arguments.ErrorMessage: its contract states only the common `✗ Error: `
  prefix. Beside it, `ErrorMessageInjective` proves that the texts tell the
  errors apart.
