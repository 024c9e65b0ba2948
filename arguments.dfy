/** The command-line parsing at the start of `Main` (Program.cs:16-63). The
    calls to `Environment.Exit` become the `Help` and `Error` results; a
    `Config` result is what the program goes on to convert. */
module Arguments {

  const DefaultInput: string := "input.txt"
  const DefaultOutput: string := "output.txt"

  /** Why a command line is refused. */
  datatype ArgError =
    | MissingInputPath
    | MissingOutputPath
    | UnknownArgument(arg: string)

  /** The outcome of parsing a command line. */
  datatype Parsed =
    | Config(inputFile: string, outputFile: string)
    | Help
    | Error(reason: ArgError)

  predicate IsInputFlag(arg: string) {
    arg == "-i" || arg == "--input"
  }

  predicate IsOutputFlag(arg: string) {
    arg == "-o" || arg == "--output"
  }

  predicate IsHelpFlag(arg: string) {
    arg == "-h" || arg == "--help"
  }

  /** The process exit code of a command line that stops the program: 0 for
      help, 1 for an error. */
  function ExitCode(p: Parsed): (code: nat)
    requires !p.Config?
    ensures code <= 1
    ensures code == 0 <==> p.Help?
  {
    if p.Help? then 0 else 1
  }

  /** The console line printed before the usage text when parsing fails.
      Both input flags name `-i` and both output flags name `-o`. */
  function ErrorMessage(e: ArgError): (m: string)
    ensures "\U{2717} Error: " <= m
  {
    match e
    case MissingInputPath => "\U{2717} Error: -i flag requires a file path."
    case MissingOutputPath => "\U{2717} Error: -o flag requires a file path."
    case UnknownArgument(arg) => "\U{2717} Error: Unknown argument '" + arg + "'"
  }

  /** Different errors print different lines. */
  lemma ErrorMessageInjective(e1: ArgError, e2: ArgError)
    requires ErrorMessage(e1) == ErrorMessage(e2)
    ensures e1 == e2
  {
    var prefix := "\U{2717} Error: Unknown argument '";
    assert ErrorMessage(e1)[9] == ErrorMessage(e2)[9];
    if e1.UnknownArgument? && e2.UnknownArgument? {
      var m := ErrorMessage(e1);
      assert m[|prefix|..|m| - 1] == e1.arg;
      assert ErrorMessage(e2)[|prefix|..|m| - 1] == e2.arg;
    }
  }

  /** The rest of the parsing loop, from argument `i` on, with the file names
      chosen so far. */
  function ParseFrom(args: seq<string>, i: nat, input: string, output: string): Parsed
    requires i <= |args|
    decreases |args| - i
  {
    if i == |args| then Config(input, output)
    else if IsInputFlag(args[i]) then
      if i + 1 < |args| then ParseFrom(args, i + 2, args[i + 1], output) else Error(MissingInputPath)
    else if IsOutputFlag(args[i]) then
      if i + 1 < |args| then ParseFrom(args, i + 2, input, args[i + 1]) else Error(MissingOutputPath)
    else if IsHelpFlag(args[i]) then Help
    else Error(UnknownArgument(args[i]))
  }

  /** The whole command line, starting from the default file names. */
  function Parse(args: seq<string>): Parsed {
    ParseFrom(args, 0, DefaultInput, DefaultOutput)
  }

  /** The `for` loop of Program.cs:20-62. A flag's value is skipped by the
      `i++` inside the loop body; each `Environment.Exit` is a `return`. */
  method ParseArguments(args: seq<string>) returns (r: Parsed)
    ensures r == Parse(args)
  {
    var inputFile, outputFile := DefaultInput, DefaultOutput;
    var i := 0;
    while i < |args|
      invariant i <= |args|
      invariant Parse(args) == ParseFrom(args, i, inputFile, outputFile)
      decreases |args| - i
    {
      var arg := args[i];
      if arg == "-i" || arg == "--input" {
        if i + 1 < |args| {
          inputFile := args[i + 1];
          i := i + 1;  // skip the value
        } else {
          return Error(MissingInputPath);
        }
      } else if arg == "-o" || arg == "--output" {
        if i + 1 < |args| {
          outputFile := args[i + 1];
          i := i + 1;
        } else {
          return Error(MissingOutputPath);
        }
      } else if arg == "-h" || arg == "--help" {
        return Help;
      } else {
        return Error(UnknownArgument(arg));
      }
      i := i + 1;
    }
    return Config(inputFile, outputFile);
  }

  // A declarative reading of the loop: the arguments from `i` on are read
  // in pairs, a flag at each even offset followed by its value.

  /** `k` is an even offset from `i`: a position where the loop looks for a
      flag. */
  predicate FlagPosition(args: seq<string>, i: nat, k: nat) {
    i <= k < |args| && (k - i) % 2 == 0
  }

  /** The arguments from `i` on are flag-value pairs of input and output
      flags only. */
  ghost predicate WellPaired(args: seq<string>, i: nat)
    requires i <= |args|
  {
    (|args| - i) % 2 == 0
    && forall k: nat :: FlagPosition(args, i, k) ==> IsInputFlag(args[k]) || IsOutputFlag(args[k])
  }

  /** Parsing succeeds exactly when the arguments are flag-value pairs. */
  lemma {:induction false} ConfigIffWellPaired(args: seq<string>, i: nat, input: string, output: string)
    requires i <= |args|
    ensures ParseFrom(args, i, input, output).Config? <==> WellPaired(args, i)
    decreases |args| - i
  {
    if i < |args| && (IsInputFlag(args[i]) || IsOutputFlag(args[i])) && i + 1 < |args| {
      var next := if IsInputFlag(args[i]) then args[i + 1] else input;
      var next' := if IsInputFlag(args[i]) then output else args[i + 1];
      ConfigIffWellPaired(args, i + 2, next, next');
      assert ParseFrom(args, i, input, output) == ParseFrom(args, i + 2, next, next');
      forall k | FlagPosition(args, i + 2, k)
        ensures FlagPosition(args, i, k)
      {
      }
      forall k | FlagPosition(args, i, k) && k != i
        ensures FlagPosition(args, i + 2, k)
      {
      }
    } else if i < |args| {
      assert FlagPosition(args, i, i);
    }
  }

  /** A flag naming the input file (`forInput`) or the output file. */
  predicate IsFileFlag(arg: string, forInput: bool) {
    if forInput then IsInputFlag(arg) else IsOutputFlag(arg)
  }

  /** A file flag of the given kind at `k`, and none of that kind later. */
  ghost predicate LastFileFlag(args: seq<string>, i: nat, k: nat, forInput: bool) {
    FlagPosition(args, i, k) && IsFileFlag(args[k], forInput)
    && forall j: nat :: FlagPosition(args, i, j) && k < j ==> !IsFileFlag(args[j], forInput)
  }

  /** No file flag of the given kind from `i` on. */
  ghost predicate NoFileFlag(args: seq<string>, i: nat, forInput: bool) {
    forall k: nat :: FlagPosition(args, i, k) ==> !IsFileFlag(args[k], forInput)
  }

  /** In a successful parse the last flag of each kind wins, and a kind that
      never appears keeps its starting file name. */
  lemma {:induction false} LastFlagWins(args: seq<string>, i: nat, input: string, output: string)
    requires i <= |args| && WellPaired(args, i)
    ensures ParseFrom(args, i, input, output).Config?
    ensures forall k: nat :: LastFileFlag(args, i, k, true) ==>
      k + 1 < |args| && ParseFrom(args, i, input, output).inputFile == args[k + 1]
    ensures NoFileFlag(args, i, true) ==> ParseFrom(args, i, input, output).inputFile == input
    ensures forall k: nat :: LastFileFlag(args, i, k, false) ==>
      k + 1 < |args| && ParseFrom(args, i, input, output).outputFile == args[k + 1]
    ensures NoFileFlag(args, i, false) ==> ParseFrom(args, i, input, output).outputFile == output
    decreases |args| - i
  {
    ConfigIffWellPaired(args, i, input, output);
    if i < |args| {
      assert FlagPosition(args, i, i);
      var input', output' := input, output;
      if IsInputFlag(args[i]) {
        input' := args[i + 1];
      } else {
        output' := args[i + 1];
      }
      assert ParseFrom(args, i, input, output) == ParseFrom(args, i + 2, input', output');
      assert WellPaired(args, i + 2) by {
        forall k | FlagPosition(args, i + 2, k)
          ensures FlagPosition(args, i, k)
        {
        }
      }
      LastFlagWins(args, i + 2, input', output');
      var r := ParseFrom(args, i, input, output);
      forall k: nat, forInput: bool | LastFileFlag(args, i, k, forInput)
        ensures k + 1 < |args| && (if forInput then r.inputFile else r.outputFile) == args[k + 1]
      {
        if k == i {
          forall j: nat | FlagPosition(args, i + 2, j)
            ensures !IsFileFlag(args[j], forInput)
          {
            assert FlagPosition(args, i, j);
          }
        } else {
          assert LastFileFlag(args, i + 2, k, forInput) by {
            forall j: nat | FlagPosition(args, i + 2, j) && k < j
              ensures !IsFileFlag(args[j], forInput)
            {
              assert FlagPosition(args, i, j);
            }
          }
        }
      }
      forall forInput: bool | NoFileFlag(args, i, forInput)
        ensures NoFileFlag(args, i + 2, forInput)
      {
        forall j: nat | FlagPosition(args, i + 2, j)
          ensures !IsFileFlag(args[j], forInput)
        {
          assert FlagPosition(args, i, j);
        }
      }
    }
  }

  /** What the `switch` does with an argument it cannot read as a flag
      followed by its value. */
  function Refusal(arg: string): (r: Parsed)
    ensures !r.Config?
  {
    if IsInputFlag(arg) then Error(MissingInputPath)
    else if IsOutputFlag(arg) then Error(MissingOutputPath)
    else if IsHelpFlag(arg) then Help
    else Error(UnknownArgument(arg))
  }

  /** A failed parse is decided by the first flag position that does not
      hold a file flag with its value: a help flag there stops with `Help`,
      a file flag there is the last argument and lacks its value, anything
      else is unknown. Later arguments are never looked at. */
  lemma {:induction false} FirstRefusalDecides(args: seq<string>, i: nat, input: string, output: string, k: nat)
    requires FlagPosition(args, i, k)
    requires forall j: nat :: FlagPosition(args, i, j) && j < k ==> IsInputFlag(args[j]) || IsOutputFlag(args[j])
    requires !(IsInputFlag(args[k]) || IsOutputFlag(args[k])) || k + 1 == |args|
    ensures ParseFrom(args, i, input, output) == Refusal(args[k])
    decreases k - i
  {
    if i < k {
      assert FlagPosition(args, i, i);
      var input', output' := input, output;
      if IsInputFlag(args[i]) {
        input' := args[i + 1];
      } else {
        output' := args[i + 1];
      }
      assert ParseFrom(args, i, input, output) == ParseFrom(args, i + 2, input', output');
      forall j: nat | FlagPosition(args, i + 2, j) && j < k
        ensures FlagPosition(args, i, j)
      {
      }
      FirstRefusalDecides(args, i + 2, input', output', k);
    }
  }

  // Consequences for particular command lines.

  /** Without arguments the default file names are used. */
  lemma NoArguments()
    ensures Parse([]) == Config("input.txt", "output.txt")
  {
  }

  /** A flag's value is taken verbatim, even when it looks like a flag. */
  lemma ValuesTakenVerbatim(a: string, b: string)
    ensures Parse(["-i", a, "-o", b]) == Config(a, b)
    ensures Parse(["--output", b, "--input", a]) == Config(a, b)
  {
    assert ParseFrom(["-i", a, "-o", b], 2, a, DefaultOutput) == Config(a, b);
    assert ParseFrom(["--output", b, "--input", a], 2, DefaultInput, b) == Config(a, b);
  }

  /** A help flag first stops parsing, whatever follows it. */
  lemma HelpFirst(rest: seq<string>)
    ensures Parse(["-h"] + rest) == Help
  {
    FirstRefusalDecides(["-h"] + rest, 0, DefaultInput, DefaultOutput, 0);
  }

  /** A file flag at the end of otherwise well-paired arguments lacks its
      value. */
  lemma TrailingFlag(args: seq<string>, flag: string)
    requires WellPaired(args, 0) && (IsInputFlag(flag) || IsOutputFlag(flag))
    ensures Parse(args + [flag]) == Error(if IsInputFlag(flag) then MissingInputPath else MissingOutputPath)
  {
    var all := args + [flag];
    forall j: nat | FlagPosition(all, 0, j) && j < |args|
      ensures IsInputFlag(all[j]) || IsOutputFlag(all[j])
    {
      assert FlagPosition(args, 0, j);
    }
    FirstRefusalDecides(all, 0, DefaultInput, DefaultOutput, |args|);
  }
}
