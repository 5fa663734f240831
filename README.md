# doa: interpolation and docker argument assembly

`doa` launches configured docker actions. This model covers the part of it
that decides what gets run:

- **The `#{...}` scanner** of `src/docker/fmt.rs` (module `Fmt`).
  - It is modelled as written: a method with one loop over the characters and a three-state machine (`Normal`, `Hex`, `Extract`).
  - `Interpolate` is a recursive reference reading of the same behaviour, and the method is proved to compute it exactly.
  - The callback `f` is a parameter.
  - The ghost function `Calls` lists the expressions handed to `f`, in order, so that "never called" and "not called after a failure" can be stated.
- **The shell wrapper** `conf::shell_interpolate` of `src/docker/conf/mod.rs` (module `ConfShell`).
  - It runs `sh -c <expr>` (or `cmd /C <expr>` on Windows) for each region.
  - It keeps standard output with trailing Unicode whitespace trimmed.
  - Starting the process is a `Runner` parameter.
- **The version 1.0 schema** of `src/docker/conf/v1_0.rs` (module `ConfV1_0`).
  - It covers `Version`, `Context`, `Action` and `Conf`, their defaults, and `help`.
  - `Assemble` is everything `Action::run` does before it starts `docker`.
    - Every optional field is interpolated, in the order `run` evaluates them. The first one that fails panics with its `expect` message and the error of its first failing string.
    - A failing image interpolation is returned as an error.
    - The flag groups are concatenated in the order `run` lists them.
  - The contracts of `Interpolated` and `Assemble` pin down the result in every case against the independent description `PanicOf` / `ImageArgs`.
- **The version dispatch** of `src/docker/conf/mod.rs` (module `Conf`), plus `Conf::actions` of `v1_0.rs`, which builds the dispatch enum.
- **The legacy `DockerRun::run`** of `src/docker.rs` (module `Docker`).
  - It does no interpolation.
  - As written, each env pair is one argument `-e k=v` and the env file is one argument `--env-file <path>`.

Behaviour of the code that a reader may not expect, modelled as written:

- The exit status of a shell run inside `#{...}` is never inspected. Only failing to start the shell, or output that is not UTF-8, is an error.
- The exit status of `docker` itself is ignored as well.
- A `Build` action still interpolates every optional field before it looks at its context. So a field that fails to interpolate makes even a build panic, although none of those fields appear in `build -f <path> -t <name>`.
- The network field panics with the message `Invalid env for env-file`, as written.
- Only the `#{...}` shell dialect exists in this code. There is no `{{...}}` host-environment template, and the environment map passed to `run` is unused.

## Model

| member | source | states |
|---|---|---|
| Fmt.ShellInterpolate | src/docker/fmt.rs:9-61 | the one-pass state-machine scanner returns exactly `Interpolate(raw, f)` and calls `f` on exactly `Calls(raw, f)` |
| Fmt.Step | src/docker/fmt.rs:19-58 | one character of the scanner preserves the relation between emitted text, pending state and the remaining result; on a failing `f` the whole result is that error |
| Fmt.CloseAt | src/docker/fmt.rs:42-46 | an extraction ends at the first `}`: the index returned holds `}` and nothing before it does, or there is no `}` |
| Fmt.PlainPrefix | src/docker/fmt.rs:31-49 | a prefix without `#` is copied verbatim, calls nothing and adds no region |
| Fmt.NoHashUnchanged | src/docker/fmt.rs:19-60 | a string with no `#` is returned unchanged and `f` is never called |
| Fmt.EscapedHash | src/docker/fmt.rs:21-26 | `##` outside a region emits one `#` and scanning continues normally |
| Fmt.LiteralHash | src/docker/fmt.rs:36-54 | `#c` with `c` neither `#` nor `{` (including `#}`) emits `#c` literally and calls nothing |
| Fmt.Substitute | src/docker/fmt.rs:27-46 | `#{x}` (where `x` may hold `#` and `{`) becomes `f(x)` with the surrounding text kept; a failing `f(x)` is the result and nothing after it is called |
| Fmt.DroppedTail | src/docker/fmt.rs:19-60 | a trailing lone `#` or an unterminated `#{x` is dropped from the output without calling `f` |
| Fmt.CallsOnSuccess | src/docker/fmt.rs:42-46 | on success `f` was called on every region, left to right, and each call succeeded |
| Fmt.CallsOnFailure | src/docker/fmt.rs:44 | on failure `f` was called on a prefix of the regions, all but the last succeeded, and the last one's error is the result |
| Fmt.OnlyCallsMatter | src/docker/fmt.rs:44 | two callbacks that agree on the calls made give the same result and the same calls |
| Fmt.TwoRegions | src/docker/fmt.rs:76-83 | two regions separated by plain text are evaluated left to right with the separator kept |
| Fmt.SingleRegionTest | src/docker/fmt.rs:67-74 | `#{abc}` with the test callback gives `YES` |
| Fmt.TwoRegionsTest | src/docker/fmt.rs:76-83 | `#{abc}:#{def}` with the test callback gives `YES:NO` |
| ConfShell.ShellArgv | src/docker/conf/mod.rs:29-33 | the expression is run as `cmd /C <expr>` on Windows and `sh -c <expr>` elsewhere |
| ConfShell.TrimEnd | src/docker/conf/mod.rs:35 | the result is the longest prefix that does not end in whitespace; everything removed is whitespace |
| ConfShell.Capture | src/docker/conf/mod.rs:28-36 | the callback succeeds exactly when the shell starts and its output is UTF-8, and yields that output with trailing whitespace removed; a spawn failure and invalid UTF-8 are distinct errors |
| ConfShell.ShellInterpolate | src/docker/conf/mod.rs:27-37 | text without `#` comes back unchanged; a success means the shell started and printed UTF-8 for every `#{...}` region |
| ConfShell.ExitStatusIgnored | src/docker/conf/mod.rs:29-35 | the callback depends only on whether the shell started and on its output, never on its exit status |
| ConfShell.NoShellWithoutHash | src/docker/conf/mod.rs:27-37 | text without `#` comes back unchanged and no shell is started |
| ConfShell.SubstitutesTrimmedOutput | src/docker/conf/mod.rs:27-37 | `#{x}` is replaced by the trimmed standard output of the shell run on `x` |
| ConfShell.ShellFailureFails | src/docker/conf/mod.rs:30-35 | a shell that cannot start or prints non-UTF-8 output makes the whole interpolation fail, with the start failure or `InvalidUtf8` as its error |
| ConfV1_0.DefaultContext | src/docker/conf/v1_0.rs:29-33 | the default context is an image with an empty name |
| ConfV1_0.DefaultAction | src/docker/conf/v1_0.rs:29-35 | the default action has the default context, no help text and no optional field set |
| ConfV1_0.Help | src/docker/conf/v1_0.rs:78-82 | `help()` returns the configured help text, not interpolated |
| ConfV1_0.FirstFailure | src/docker/conf/v1_0.rs:91-97 | the position returned is of a string that fails to interpolate, and every string before it interpolates |
| ConfV1_0.Values | src/docker/conf/v1_0.rs:91-97 | a list of fields interpolates element by element in order; exactly when some element fails, it panics with the field's `expect` message and the first failing element's error |
| ConfV1_0.Flagged | src/docker/conf/v1_0.rs:134-144 | a flagged list succeeds exactly when every element interpolates, and otherwise panics with the field's `expect` message and the first failing element's error |
| ConfV1_0.PairsAt | src/docker/conf/v1_0.rs:134-157 | each element contributes exactly the flag followed by its value, in list order |
| ConfV1_0.ValuesResolved | src/docker/conf/v1_0.rs:166-175 | when every element interpolates, the group is the interpolated elements in order |
| ConfV1_0.FlaggedPairs | src/docker/conf/v1_0.rs:99-164 | when every element interpolates, the group is `flag value` per element in order |
| ConfV1_0.Interpolated | src/docker/conf/v1_0.rs:91-175 | the fields are interpolated in the order of v1_0.rs:91-175; it fails exactly when `PanicOf` names a field, panicking with that first failing field's `expect` message and the error of its first failing string; otherwise each group has its flag shape: `--entrypoint e`, `-e k=v` per pair, `--env-file p`, `--network=n`, `-p` per port, `-v` per volume, `-u u`, the extra flags and the command |
| ConfV1_0.Assemble | src/docker/conf/v1_0.rs:91-207 | `run` panics on the first failing field; otherwise a build runs exactly `build -f path -t name`, uninterpolated, and an image run fails with the image's interpolation error or gets exactly `ImageArgs`: `run --rm`, the groups in order, the image and the command |
| ConfV1_0.CommandSpawnFailure | src/docker/conf/v1_0.rs:91-97 | a command region whose shell cannot start makes `run` panic with `Invalid env for cmds` and that start failure as the reported error, for an image or a build alike |
| ConfV1_0.ImageArgCount | src/docker/conf/v1_0.rs:91-198 | an absent field contributes no argument; the argument count is three plus two per entrypoint, env pair, env file, port, volume and user, plus one per network and extra flag, plus the command |
| ConfV1_0.OrderExample | src/docker/conf/v1_0.rs:181-198 | entrypoint, network, two ports, user and an extra flag appear in exactly that order, before the image and the command |
| ConfV1_0.OrderExampleShell | src/docker/conf/v1_0.rs:181-198 | the same ordering with the shell interpolator, for values without `#` |
| ConfV1_0.DefaultActionArgs | src/docker/conf/v1_0.rs:29-35 | the default action (an empty image name, no optional field) runs `run --rm ""` |
| ConfV1_0.ImageWithCommand | src/docker/conf/v1_0.rs:247-254 | the unit test's image and two-word command give `run --rm <image> <cmd...>` |
| ConfV1_0.Run | src/docker/conf/v1_0.rs:84-212 | `run` invokes the given docker path with the assembled arguments, or stops with the assembly's panic or error |
| ConfV1_0.EnvsIgnored | src/docker/conf/v1_0.rs:88 | the environment map passed to `run` has no effect |
| Conf.Help | src/docker/conf/mod.rs:39-47 | the version enum's `help` is the wrapped action's help text |
| Conf.Run | src/docker/conf/mod.rs:49-61 | the version enum's `run` behaves exactly as the wrapped action's `run` with the same arguments |
| Conf.ActionsV1_0 | src/docker/conf/v1_0.rs:224-233 | the same set of names, each action wrapped as a version 1.0 action |
| Conf.Actions | src/docker/conf/mod.rs:72-78 | the configuration's actions under the same names, each wrapping the configured action |
| Conf.ListedHelp | src/docker/conf/mod.rs:39-78 | every configured name has an action in `actions`, and that action's `help` is the help text configured for that name |
| Conf.BuildCheck | src/docker/conf/v1_0.rs:108-198 | an action with an image, one env pair and a two-word command, run through the dispatch, invokes `docker run --rm -e k=v <image> <cmd...>` |
| Docker.Args | src/docker.rs:20-44 | the arguments are `run --rm`, one `-e k=v` argument per env pair, one `--env-file path` argument if set, the image, and the command copied verbatim; their count is `3 + envs + env file + command` |
| Docker.ArgsInjective | src/docker.rs:25-44 | for actions with the same number of env pairs and both with or both without an env file, equal arguments mean the same image, command, env file and `k=v` assignments |
| Docker.EntrypointAndHelpIgnored | src/docker.rs:9-44 | the entrypoint and the help text never affect the arguments |
| Docker.ImageWithCommand | src/docker.rs:73-80 | the unit test's image and two-word command give `run --rm <image> <cmd...>` |

## Left out

- Starting processes is not modelled: the `spawn`/`wait` of `docker` in `Action::run`, the `output` call and stream forwarding in `DockerRun::run`, and the shell runs inside `conf::shell_interpolate`.
  - Only the argument vectors they receive are modelled.
  - The shell is a `Runner` parameter that returns the captured output or a start failure.
- UTF-8 decoding of the shell's output is abstracted: `Stdout` is either decoded text or "not UTF-8".
- `get_cli_path` (a PATH lookup through a foreign library) and `src/docker/mod.rs` are not part of this model.
- `src/main.rs` is not part of this model: command-line parsing, config-file discovery, TOML/YAML deserialisation, dotenv loading, reading the host environment, printing and exit codes are all I/O.
- The serde attributes and the generated `ActionBuilder` are not modelled, only the plain data types.
- `HashMap` iteration order is not modelled: the env maps are sequences of pairs in whatever order iteration yields, and nothing is claimed about that order.
- The shell `Runner` is a function, so the same command always gives the same output. The program starts a fresh shell for each `#{...}`, so `#{date +%N}:#{date +%N}` may give two different values there but gives one value twice in the model.
- `interactive` and `tty` are carried in `Action` but never read by any assembler, so nothing is stated about them.
- The error type `Box<dyn Error>` of the scanner is a type parameter `E`. The shell wrapper's errors are the two kinds it can raise: `SpawnFailed` and `InvalidUtf8`.
- A panic of `expect` is modelled as a value, `Abort.Panic(message, cause)`, rather than as unwinding. It keeps the `expect` message and the interpolation error as two fields. The panic text Rust prints from them, `<message>: <Debug of the error>`, is not formatted, because the model does not reproduce the `Debug` output of the boxed I/O or UTF-8 error.
