/** The two regular expressions of the converter, written out as matchers:
    the timestamp pattern `^(\d+:\d{2}:\d{2})` (Program.cs:126) and the note
    key pattern `HOTKEY:([^@]+)@` (Program.cs:162). Each is proved against a
    declarative description of what the pattern matches. */
module Matchers {
  import opened Text

  datatype Option<T> = None | Some(value: T)

  predicate AllDigits(s: string) {
    forall k :: 0 <= k < |s| ==> IsDigit(s[k])
  }

  /** `t` as a whole matches `\d+:\d{2}:\d{2}`. */
  predicate IsTimestamp(t: string) {
    |t| >= 7 && AllDigits(t[..|t| - 6])
    && t[|t| - 6] == ':' && IsDigit(t[|t| - 5]) && IsDigit(t[|t| - 4])
    && t[|t| - 3] == ':' && IsDigit(t[|t| - 2]) && IsDigit(t[|t| - 1])
  }

  /** Length of the run of digits at the front of `s` (the greedy `\d+`). */
  function DigitRun(s: string): (n: nat)
    ensures n <= |s| && AllDigits(s[..n])
    ensures n < |s| ==> !IsDigit(s[n])
  {
    if s == [] || !IsDigit(s[0]) then 0
    else
      var m := DigitRun(s[1..]);
      assert s[..1 + m] == [s[0]] + s[1..][..m];
      1 + m
  }

  /** A prefix matching the timestamp pattern has the whole leading digit run
      as its hour field. */
  lemma TimestampHours(s: string, k: nat)
    requires k <= |s| && IsTimestamp(s[..k])
    ensures DigitRun(s) == k - 6
  {
    var n := DigitRun(s);
    assert s[..k][k - 6] == s[k - 6];
    assert forall j :: 0 <= j < n ==> s[..n][j] == s[j];
    assert forall j :: 0 <= j < k - 6 ==> s[..k][..k - 6][j] == s[j];
  }

  /** `Regex.Match(s, @"^(\d+:\d{2}:\d{2})")`: the captured group, if the
      pattern matches at the start of `s`. Without an end anchor the capture
      is only a prefix: "1:23:456" yields "1:23:45". */
  function MatchTimestamp(s: string): (r: Option<string>)
    ensures r.Some? ==> r.value <= s && IsTimestamp(r.value)
    ensures forall t :: t <= s && IsTimestamp(t) ==> r == Some(t)
  {
    var n := DigitRun(s);
    var r :=
      if 1 <= n && n + 6 <= |s| && s[n] == ':' && IsDigit(s[n + 1]) && IsDigit(s[n + 2])
         && s[n + 3] == ':' && IsDigit(s[n + 4]) && IsDigit(s[n + 5])
      then Some(s[..n + 6])
      else None;
    assert r.Some? ==> r.value[..|r.value| - 6] == s[..n];
    forall t | t <= s && IsTimestamp(t) ensures r == Some(t) {
      var k := |t|;
      assert t == s[..k];
      TimestampHours(s, k);
      assert s[..k][..k - 6] == s[..n];
    }
    r
  }

  const HotkeyTag: string := "HOTKEY:"

  /** Length of the run of characters other than '@' from position `from`
      (the greedy `[^@]+`). */
  function NonAtRun(s: string, from: nat): (n: nat)
    requires from <= |s|
    ensures from + n <= |s|
    ensures forall k :: from <= k < from + n ==> s[k] != '@'
    ensures from + n < |s| ==> s[from + n] == '@'
    decreases |s| - from
  {
    if from == |s| || s[from] == '@' then 0 else 1 + NonAtRun(s, from + 1)
  }

  /** `HOTKEY:([^@]+)@` matches `s` at position `p` with a group of length `n`. */
  predicate KeyMatchAt(s: string, p: nat, n: nat) {
    var g := p + |HotkeyTag|;
    g + n < |s| && s[p..g] == HotkeyTag && 1 <= n
    && (forall k :: g <= k < g + n ==> s[k] != '@')
    && s[g + n] == '@'
  }

  /** The group of a match at a given position is unique. */
  lemma KeyMatchLength(s: string, p: nat, n: nat)
    requires KeyMatchAt(s, p, n)
    ensures n == NonAtRun(s, p + |HotkeyTag|)
  {
  }

  /** No match of the note key pattern starts in [lo, hi). */
  ghost predicate NoKeyMatch(s: string, lo: nat, hi: nat) {
    forall q: nat, n: nat :: lo <= q < hi ==> !KeyMatchAt(s, q, n)
  }

  /** The regex engine's search: try each start position from `p` on. */
  function MatchKeyFrom(s: string, p: nat): Option<string>
    decreases |s| - p
  {
    var g := p + |HotkeyTag|;
    if g >= |s| then None
    else if s[p..g] == HotkeyTag && 1 <= NonAtRun(s, g) && g + NonAtRun(s, g) < |s|
    then Some(s[g..g + NonAtRun(s, g)])
    else MatchKeyFrom(s, p + 1)
  }

  /** The search finds the leftmost match, or reports that there is none. */
  lemma {:induction false} MatchKeyFromLeftmost(s: string, p: nat)
    ensures MatchKeyFrom(s, p).Some? ==>
      exists q: nat, n: nat :: p <= q && KeyMatchAt(s, q, n) && NoKeyMatch(s, p, q)
        && MatchKeyFrom(s, p).value == s[q + |HotkeyTag|..q + |HotkeyTag| + n]
    ensures MatchKeyFrom(s, p).None? ==> NoKeyMatch(s, p, |s|)
    decreases |s| - p
  {
    var g := p + |HotkeyTag|;
    if g >= |s| {
    } else if s[p..g] == HotkeyTag && 1 <= NonAtRun(s, g) && g + NonAtRun(s, g) < |s| {
      assert KeyMatchAt(s, p, NonAtRun(s, g));
    } else {
      forall n: nat | KeyMatchAt(s, p, n) ensures false {
        KeyMatchLength(s, p, n);
      }
      MatchKeyFromLeftmost(s, p + 1);
    }
  }

  /** `Regex.Match(line, @"HOTKEY:([^@]+)@")`: the captured group of the
      leftmost match anywhere in `line`, untrimmed. */
  function MatchNoteKey(line: string): (r: Option<string>)
    ensures r.Some? ==>
      exists q: nat, n: nat :: KeyMatchAt(line, q, n) && NoKeyMatch(line, 0, q)
        && r.value == line[q + |HotkeyTag|..q + |HotkeyTag| + n]
    ensures r.None? <==> NoKeyMatch(line, 0, |line|)
  {
    MatchKeyFromLeftmost(line, 0);
    MatchKeyFrom(line, 0)
  }

  /** The captured group never contains '@' and is never empty. */
  lemma NoteKeyHasNoAt(line: string)
    requires MatchNoteKey(line).Some?
    ensures MatchNoteKey(line).value != []
    ensures forall k :: 0 <= k < |MatchNoteKey(line).value| ==> MatchNoteKey(line).value[k] != '@'
  {
    var r := MatchNoteKey(line);
    var q: nat, n: nat :| KeyMatchAt(line, q, n) && NoKeyMatch(line, 0, q)
      && r.value == line[q + |HotkeyTag|..q + |HotkeyTag| + n];
  }

  /** A match at the very start of the line is the one taken. */
  lemma NoteKeyAtStart(line: string, n: nat)
    requires KeyMatchAt(line, 0, n)
    ensures MatchNoteKey(line) == Some(line[|HotkeyTag|..|HotkeyTag| + n])
  {
    KeyMatchLength(line, 0, n);
  }
}
