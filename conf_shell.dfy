/**
  The `shell_interpolate` wrapper of src/docker/conf/mod.rs: the scanner of
  module Fmt with a callback that runs each expression in a shell and keeps
  its standard output without trailing whitespace.

  Running the shell is a parameter (`Runner`): it receives the argument
  vector (`sh -c <expr>`, or `cmd /C <expr>` on Windows) and reports either
  a failure to start the process or the process's output.
*/
module ConfShell {
  import opened Wrappers
  import Fmt

  /** The target platform, fixed when the program is built. */
  datatype Os = Unix | Windows

  /** The captured standard output: valid UTF-8 text, or bytes that are not. */
  datatype Stdout = Text(text: string) | NotUtf8

  /** What `Command::output` returns once the process has run. */
  datatype Output = Output(status: int, stdout: Stdout)

  /** The errors `shell_interpolate` can report. */
  datatype Error =
    | SpawnFailed(reason: string)   // the shell could not be started
    | InvalidUtf8                   // its standard output is not UTF-8

  /** Running a program: `Err(reason)` when it cannot be started. */
  type Runner = seq<string> -> Result<Output, string>

  /** The shell invocation that evaluates `cmd`. */
  function ShellArgv(os: Os, cmd: string): (argv: seq<string>)
    ensures |argv| == 3 && argv[2] == cmd
    ensures argv[..2] == (if os == Windows then ["cmd", "/C"] else ["sh", "-c"])
  {
    match os
    case Windows => ["cmd", "/C", cmd]
    case Unix => ["sh", "-c", cmd]
  }

  /** Rust's `char::is_whitespace`: the Unicode White_Space property. */
  predicate IsWhitespace(c: char)
  {
    var n := c as int;
    || 0x09 <= n <= 0x0D || n == 0x20 || n == 0x85 || n == 0xA0 || n == 0x1680
    || 0x2000 <= n <= 0x200A || n == 0x2028 || n == 0x2029 || n == 0x202F
    || n == 0x205F || n == 0x3000
  }

  /** Rust's `str::trim_end`: the longest prefix of `s` that does not end in whitespace. */
  function TrimEnd(s: string): (t: string)
    ensures t <= s
    ensures t == [] || !IsWhitespace(t[|t| - 1])
    ensures forall i | |t| <= i < |s| :: IsWhitespace(s[i])
  {
    if s == [] || !IsWhitespace(s[|s| - 1]) then s
    else TrimEnd(s[..|s| - 1])
  }

  /** The callback handed to the scanner: run `cmd`, decode its output and trim its end. */
  function Capture(os: Os, run: Runner, cmd: string): (r: Result<string, Error>)
    ensures r.Ok? <==> run(ShellArgv(os, cmd)).Ok? && run(ShellArgv(os, cmd)).value.stdout.Text?
    ensures run(ShellArgv(os, cmd)).Err? ==> r == Err(SpawnFailed(run(ShellArgv(os, cmd)).error))
    ensures r.Err? && run(ShellArgv(os, cmd)).Ok? ==> r == Err(InvalidUtf8)
    ensures r.Ok? ==>
      var out := run(ShellArgv(os, cmd)).value.stdout.text;
      && r.value <= out
      && (r.value == [] || !IsWhitespace(r.value[|r.value| - 1]))
      && forall i | |r.value| <= i < |out| :: IsWhitespace(out[i])
  {
    match run(ShellArgv(os, cmd))
    case Err(reason) => Err(SpawnFailed(reason))
    case Ok(output) =>
      match output.stdout
      case NotUtf8 => Err(InvalidUtf8)
      case Text(text) => Ok(TrimEnd(text))
  }

  /**
    `conf::shell_interpolate(raw)`: the scanner over `raw` with `Capture` as
    its callback. Text without `#` comes back as it is; a success means the
    shell started and printed UTF-8 for every `#{...}` region.
  */
  function ShellInterpolate(raw: string, os: Os, run: Runner): (r: Result<string, Error>)
    ensures '#' !in raw ==> r == Ok(raw)
    ensures r.Ok? ==> forall i | 0 <= i < |Fmt.Regions(raw)| :: Capture(os, run, Fmt.Regions(raw)[i]).Ok?
  {
    var f := cmd => Capture(os, run, cmd);
    var r := Fmt.Interpolate(raw, f);
    if '#' !in raw then
      Fmt.NoHashUnchanged(raw, f);
      Fmt.CallsOnSuccess(raw, f);
      r
    else if r.Ok? then
      Fmt.CallsOnSuccess(raw, f);
      r
    else
      r
  }

  /** The exit status of the shell never matters: only its output and whether it started. */
  lemma ExitStatusIgnored(os: Os, run: Runner, run': Runner, cmd: string)
    requires run(ShellArgv(os, cmd)).Err? <==> run'(ShellArgv(os, cmd)).Err?
    requires run(ShellArgv(os, cmd)).Err? ==> run(ShellArgv(os, cmd)) == run'(ShellArgv(os, cmd))
    requires run(ShellArgv(os, cmd)).Ok? ==>
      run(ShellArgv(os, cmd)).value.stdout == run'(ShellArgv(os, cmd)).value.stdout
    ensures Capture(os, run, cmd) == Capture(os, run', cmd)
  {
  }

  /** Text without `#` comes back unchanged and no shell is started. */
  lemma NoShellWithoutHash(raw: string, os: Os, run: Runner)
    requires '#' !in raw
    ensures ShellInterpolate(raw, os, run) == Ok(raw)
    ensures Fmt.Calls(raw, cmd => Capture(os, run, cmd)) == []
  {
    Fmt.NoHashUnchanged(raw, cmd => Capture(os, run, cmd));
  }

  /** `#{x}` becomes the trimmed standard output of the shell run on `x`. */
  lemma SubstitutesTrimmedOutput(p: string, x: string, s: string, os: Os, run: Runner, out: Output)
    requires '#' !in p && '}' !in x
    requires run(ShellArgv(os, x)) == Ok(out) && out.stdout.Text?
    ensures ShellInterpolate(p + "#{" + x + "}" + s, os, run)
         == Fmt.Prepend(p + TrimEnd(out.stdout.text), ShellInterpolate(s, os, run))
  {
    Fmt.Substitute(p, x, s, cmd => Capture(os, run, cmd));
  }

  /** A shell that cannot start, or output that is not UTF-8, makes the whole interpolation fail. */
  lemma ShellFailureFails(p: string, x: string, s: string, os: Os, run: Runner)
    requires '#' !in p && '}' !in x
    requires run(ShellArgv(os, x)).Err? || run(ShellArgv(os, x)).value.stdout.NotUtf8?
    ensures ShellInterpolate(p + "#{" + x + "}" + s, os, run).Err?
    ensures run(ShellArgv(os, x)).Err? ==>
      ShellInterpolate(p + "#{" + x + "}" + s, os, run) == Err(SpawnFailed(run(ShellArgv(os, x)).error))
    ensures run(ShellArgv(os, x)).Ok? ==> ShellInterpolate(p + "#{" + x + "}" + s, os, run) == Err(InvalidUtf8)
  {
    Fmt.Substitute(p, x, s, cmd => Capture(os, run, cmd));
  }
}
