/**
  The version 1.0 configuration schema of src/docker/conf/v1_0.rs and the
  argument vector its `Action::run` hands to `docker`.

  `Assemble` is everything `run` does before it starts a process: it
  interpolates every optional field (panicking, through `expect`, on the
  first that fails), then, for an image, interpolates the image (returning
  the error) and concatenates the flag groups in a fixed order; for a build
  it yields `build -f <path> -t <name>`. The interpolator is a parameter;
  `Run` instantiates it with the shell interpolator of module ConfShell.
*/
module ConfV1_0 {
  import opened Wrappers
  import ConfShell

  /** The schema version tag: `"1.0"` is the only one, and the default. */
  datatype Version = V1_0

  /** Run an existing image, or build one from a Dockerfile and tag it. */
  datatype Context = Image(image: string) | Build(path: string, name: string)

  /**
    One configured action. `envs` is the environment map in its iteration
    order, which v1_0.rs leaves to its `HashMap`.
  */
  datatype Action = Action(
    context: Context,
    help: Option<string>,
    interactive: Option<bool>,
    tty: Option<bool>,
    command: Option<seq<string>>,
    entrypoint: Option<string>,
    envs: Option<seq<(string, string)>>,
    envFile: Option<string>,
    network: Option<string>,
    ports: Option<seq<string>>,
    volumes: Option<seq<string>>,
    user: Option<string>,
    extraFlags: Option<seq<string>>)

  /** `Context::default()`: an image with an empty name. */
  function DefaultContext(): (c: Context)
    ensures c.Image? && c.image == ""
  {
    Image("")
  }

  /** `Action::default()`: the default context, no help text and no optional field set. */
  function DefaultAction(): (a: Action)
    ensures a.context == DefaultContext() && a.help.None?
    ensures a.interactive.None? && a.tty.None? && a.command.None? && a.entrypoint.None?
    ensures a.envs.None? && a.envFile.None? && a.network.None? && a.ports.None?
    ensures a.volumes.None? && a.user.None? && a.extraFlags.None?
  {
    Action(DefaultContext(), None, None, None, None, None, None, None, None, None, None, None, None)
  }

  /** A configuration file of version 1.0: the tag and the actions by name. */
  datatype Conf = Conf(version: Version, actions: map<string, Action>)

  /** An interpolator: the role `conf::shell_interpolate` plays in `run`. */
  type Interp = string -> Result<string, ConfShell.Error>

  /**
    How `run` stops without producing arguments: a panic of `expect`, with
    its message and the interpolation error it reports, or an error
    returned by `?`.
  */
  datatype Abort = Panic(message: string, cause: ConfShell.Error) | Fail(error: ConfShell.Error)

  /** The program to start and its arguments. */
  datatype Invocation = Invocation(program: string, args: seq<string>)

  /** `help()` hands back the help text as configured, never interpolated. */
  function Help(a: Action): (h: Option<string>)
    ensures h == a.help
  {
    a.help
  }

  function AsSeq<T>(o: Option<T>): seq<T>
  {
    match o
    case None => []
    case Some(x) => [x]
  }

  /** The strings `run` interpolates for the env map: one `k=v` per pair. */
  function EnvAssignments(pairs: seq<(string, string)>): (r: seq<string>)
  {
    seq(|pairs|, i requires 0 <= i < |pairs| => pairs[i].0 + "=" + pairs[i].1)
  }

  /** The string `run` interpolates for the network: `--network=<value>`. */
  function NetworkArgs(network: Option<string>): seq<string>
  {
    match network
    case None => []
    case Some(n) => ["--network=" + n]
  }

  /** Every string of `xs` interpolates without error. */
  predicate AllOk(xs: seq<string>, interp: Interp)
  {
    forall i | 0 <= i < |xs| :: interp(xs[i]).Ok?
  }

  /** The interpolated strings, in order. */
  function Resolved(xs: seq<string>, interp: Interp): seq<string>
    requires AllOk(xs, interp)
  {
    seq(|xs|, i requires 0 <= i < |xs| => interp(xs[i]).value)
  }

  /** The position of the first string of `xs` that fails to interpolate. */
  function FirstFailure(xs: seq<string>, interp: Interp): (i: nat)
    requires !AllOk(xs, interp)
    ensures i < |xs| && interp(xs[i]).Err?
    ensures forall j | 0 <= j < i :: interp(xs[j]).Ok?
  {
    if interp(xs[0]).Err? then 0
    else
      assert !AllOk(xs[1..], interp) by {
        var k :| 0 <= k < |xs| && interp(xs[k]).Err?;
        assert xs[1..][k - 1] == xs[k];
      }
      1 + FirstFailure(xs[1..], interp)
  }

  /** The panic of `expect(message)` on the first string of `xs` that fails: the message and that string's error. */
  function PanicAt(message: string, xs: seq<string>, interp: Interp): Abort
    requires !AllOk(xs, interp)
  {
    Panic(message, interp(xs[FirstFailure(xs, interp)]).error)
  }

  /** `flag v` for each value, in order. */
  function Pairs(flag: string, vs: seq<string>): seq<string>
  {
    if vs == [] then [] else [flag, vs[0]] + Pairs(flag, vs[1..])
  }

  // ---------------------------------------------------------------------
  // The flag groups, as `run` builds them

  /** `shell_interpolate(x).expect(message)`. */
  function Expect(r: Result<string, ConfShell.Error>, message: string): Result<string, Abort>
  {
    match r
    case Ok(v) => Ok(v)
    case Err(e) => Err(Panic(message, e))
  }

  /** Each string interpolated, in order, panicking with `message` at the first failure. */
  function Values(xs: seq<string>, interp: Interp, message: string): (r: Result<seq<string>, Abort>)
    ensures r.Ok? <==> AllOk(xs, interp)
    ensures r.Ok? ==> |r.value| == |xs| && forall i | 0 <= i < |xs| :: r.value[i] == interp(xs[i]).value
    ensures r.Err? ==> r.error == PanicAt(message, xs, interp)
  {
    if xs == [] then Ok([])
    else
      var v :- Expect(interp(xs[0]), message);
      var vs :- Values(xs[1..], interp, message);
      Ok([v] + vs)
  }

  /** `flag` and the interpolated string, for each string in order, panicking with `message` at the first failure. */
  function Flagged(flag: string, xs: seq<string>, interp: Interp, message: string): (r: Result<seq<string>, Abort>)
    ensures r.Ok? <==> AllOk(xs, interp)
    ensures r.Err? ==> r.error == PanicAt(message, xs, interp)
  {
    if xs == [] then Ok([])
    else
      var v :- Expect(interp(xs[0]), message);
      var rest :- Flagged(flag, xs[1..], interp, message);
      Ok([flag, v] + rest)
  }

  /** The interpolated flag groups, each in the form it takes on the command line. */
  datatype Flags = Flags(
    command: seq<string>, entrypoint: seq<string>, envs: seq<string>, envFile: seq<string>,
    network: seq<string>, ports: seq<string>, volumes: seq<string>, user: seq<string>,
    extra: seq<string>)

  /**
    The first half of `Action::run`: every optional field interpolated, in
    this order. It panics with the `expect` message of the first field that
    fails and the error of its first failing string; otherwise every group
    has its flag shape.
  */
  function Interpolated(a: Action, interp: Interp): (r: Result<Flags, Abort>)
    ensures r.Ok? <==> PanicOf(a, interp).None?
    ensures r.Err? ==> r.error == PanicOf(a, interp).value
    ensures r.Ok? ==> r.value == ExpectedFlags(a, interp)
  {
    ValuesResolved(OrEmpty(a.command), interp, "Invalid env for cmds");
    FlaggedPairs("--entrypoint", AsSeq(a.entrypoint), interp, "Invalid env for entrypoint");
    FlaggedPairs("-e", EnvAssignments(OrEmpty(a.envs)), interp, "Invalid env for envs");
    FlaggedPairs("--env-file", AsSeq(a.envFile), interp, "Invalid env for env-file");
    ValuesResolved(NetworkArgs(a.network), interp, "Invalid env for env-file");
    FlaggedPairs("-p", OrEmpty(a.ports), interp, "Invalid env for ports");
    FlaggedPairs("-v", OrEmpty(a.volumes), interp, "Invalid env for volumes");
    FlaggedPairs("-u", AsSeq(a.user), interp, "Invalid env for user");
    ValuesResolved(OrEmpty(a.extraFlags), interp, "Invalid env for extra flags");
    var command :- Values(OrEmpty(a.command), interp, "Invalid env for cmds");
    var entrypoint :- Flagged("--entrypoint", AsSeq(a.entrypoint), interp, "Invalid env for entrypoint");
    var envs :- Flagged("-e", EnvAssignments(OrEmpty(a.envs)), interp, "Invalid env for envs");
    var envFile :- Flagged("--env-file", AsSeq(a.envFile), interp, "Invalid env for env-file");
    var network :- Values(NetworkArgs(a.network), interp, "Invalid env for env-file");
    var ports :- Flagged("-p", OrEmpty(a.ports), interp, "Invalid env for ports");
    var volumes :- Flagged("-v", OrEmpty(a.volumes), interp, "Invalid env for volumes");
    var user :- Flagged("-u", AsSeq(a.user), interp, "Invalid env for user");
    var extra :- Values(OrEmpty(a.extraFlags), interp, "Invalid env for extra flags");
    Ok(Flags(command, entrypoint, envs, envFile, network, ports, volumes, user, extra))
  }

  /**
    The argument vector of `Action::run`, or why it stops before starting
    `docker`: the first failing field's panic; otherwise, for a build,
    `build -f <path> -t <name>` with neither interpolated; for an image, the
    image's interpolation error or the arguments of `ImageArgs`.
  */
  function Assemble(a: Action, interp: Interp): (r: Result<seq<string>, Abort>)
    ensures PanicOf(a, interp).Some? ==> r == Err(PanicOf(a, interp).value)
    ensures PanicOf(a, interp).None? && a.context.Build? ==>
      r == Ok(["build", "-f", a.context.path, "-t", a.context.name])
    ensures PanicOf(a, interp).None? && a.context.Image? && interp(a.context.image).Err? ==>
      r == Err(Fail(interp(a.context.image).error))
    ensures PanicOf(a, interp).None? && a.context.Image? && interp(a.context.image).Ok? ==>
      r == Ok(ImageArgs(a, interp, interp(a.context.image).value))
  {
    var f :- Interpolated(a, interp);
    match a.context
    case Image(image) =>
      var image :- match interp(image) case Ok(v) => Ok(v) case Err(e) => Err(Fail(e));
      Ok(["run", "--rm"]
         + f.entrypoint + f.envs + f.envFile + f.network
         + f.ports + f.volumes + f.user + f.extra
         + [image] + f.command)
    case Build(path, name) =>
      Ok(["build", "-f", path, "-t", name])
  }

  /** The interpolator `run` uses: `conf::shell_interpolate` on the given platform and shell. */
  function ShellInterp(os: ConfShell.Os, run: ConfShell.Runner): Interp
  {
    raw => ConfShell.ShellInterpolate(raw, os, run)
  }

  /**
    `Action::run(docker_cmd, _envs)` up to the point where it starts the
    process: `docker_cmd` with the assembled arguments. The environment map
    is not used.
  */
  function Run(a: Action, dockerCmd: string, envs: map<string, string>, os: ConfShell.Os, run: ConfShell.Runner)
    : (r: Result<Invocation, Abort>)
    ensures r.Ok? ==> r.value.program == dockerCmd
    ensures r.Ok? <==> Assemble(a, ShellInterp(os, run)).Ok?
    ensures r.Ok? ==> r.value.args == Assemble(a, ShellInterp(os, run)).value
    ensures r.Err? ==> r.error == Assemble(a, ShellInterp(os, run)).error
  {
    var args :- Assemble(a, ShellInterp(os, run));
    Ok(Invocation(dockerCmd, args))
  }

  // ---------------------------------------------------------------------
  // What `run` promises

  /**
    The panic `run` raises, if any: the first field, in the order `run`
    evaluates them, whose interpolation fails, with its `expect` message and
    the error of that field's first failing string.
  */
  function PanicOf(a: Action, interp: Interp): Option<Abort>
  {
    if !AllOk(OrEmpty(a.command), interp) then
      Some(PanicAt("Invalid env for cmds", OrEmpty(a.command), interp))
    else if !AllOk(AsSeq(a.entrypoint), interp) then
      Some(PanicAt("Invalid env for entrypoint", AsSeq(a.entrypoint), interp))
    else if !AllOk(EnvAssignments(OrEmpty(a.envs)), interp) then
      Some(PanicAt("Invalid env for envs", EnvAssignments(OrEmpty(a.envs)), interp))
    else if !AllOk(AsSeq(a.envFile), interp) then
      Some(PanicAt("Invalid env for env-file", AsSeq(a.envFile), interp))
    else if !AllOk(NetworkArgs(a.network), interp) then
      Some(PanicAt("Invalid env for env-file", NetworkArgs(a.network), interp))
    else if !AllOk(OrEmpty(a.ports), interp) then
      Some(PanicAt("Invalid env for ports", OrEmpty(a.ports), interp))
    else if !AllOk(OrEmpty(a.volumes), interp) then
      Some(PanicAt("Invalid env for volumes", OrEmpty(a.volumes), interp))
    else if !AllOk(AsSeq(a.user), interp) then
      Some(PanicAt("Invalid env for user", AsSeq(a.user), interp))
    else if !AllOk(OrEmpty(a.extraFlags), interp) then
      Some(PanicAt("Invalid env for extra flags", OrEmpty(a.extraFlags), interp))
    else None
  }

  /**
    The arguments `docker run` gets for an image, in this order: `run --rm`,
    the entrypoint, env, env-file, network, port, volume, user and extra
    flags, the image, then the command.
  */
  function ImageArgs(a: Action, interp: Interp, image: string): seq<string>
    requires PanicOf(a, interp).None?
  {
    var f := ExpectedFlags(a, interp);
    ["run", "--rm"]
    + f.entrypoint + f.envs + f.envFile + f.network + f.ports + f.volumes + f.user + f.extra
    + [image]
    + f.command
  }

  /** The flag groups `run` builds when every field interpolates. */
  function ExpectedFlags(a: Action, interp: Interp): Flags
    requires PanicOf(a, interp).None?
  {
    Flags(
      Resolved(OrEmpty(a.command), interp),
      Pairs("--entrypoint", Resolved(AsSeq(a.entrypoint), interp)),
      Pairs("-e", Resolved(EnvAssignments(OrEmpty(a.envs)), interp)),
      Pairs("--env-file", Resolved(AsSeq(a.envFile), interp)),
      Resolved(NetworkArgs(a.network), interp),
      Pairs("-p", Resolved(OrEmpty(a.ports), interp)),
      Pairs("-v", Resolved(OrEmpty(a.volumes), interp)),
      Pairs("-u", Resolved(AsSeq(a.user), interp)),
      Resolved(OrEmpty(a.extraFlags), interp))
  }

  /** `flag` sits at every even position of `Pairs(flag, vs)` and the values, in order, at the odd ones. */
  lemma {:induction false} PairsAt(flag: string, vs: seq<string>)
    ensures |Pairs(flag, vs)| == 2 * |vs|
    ensures forall i | 0 <= i < |vs| :: Pairs(flag, vs)[2 * i] == flag && Pairs(flag, vs)[2 * i + 1] == vs[i]
  {
    if vs != [] {
      PairsAt(flag, vs[1..]);
      var rest := Pairs(flag, vs[1..]);
      forall i | 0 <= i < |vs| ensures Pairs(flag, vs)[2 * i] == flag && Pairs(flag, vs)[2 * i + 1] == vs[i] {
        if i > 0 {
          assert Pairs(flag, vs)[2 * i] == rest[2 * (i - 1)];
          assert Pairs(flag, vs)[2 * i + 1] == rest[2 * (i - 1) + 1];
        }
      }
    }
  }

  lemma ValuesResolved(xs: seq<string>, interp: Interp, message: string)
    ensures AllOk(xs, interp) ==> Values(xs, interp, message) == Ok(Resolved(xs, interp))
  {
    if AllOk(xs, interp) {
      assert Values(xs, interp, message).value == Resolved(xs, interp);
    }
  }

  lemma {:induction false} FlaggedPairs(flag: string, xs: seq<string>, interp: Interp, message: string)
    ensures AllOk(xs, interp) ==> Flagged(flag, xs, interp, message) == Ok(Pairs(flag, Resolved(xs, interp)))
  {
    if xs != [] && AllOk(xs, interp) {
      assert AllOk(xs[1..], interp) by {
        forall i | 0 <= i < |xs[1..]| ensures interp(xs[1..][i]).Ok? {
          assert xs[1..][i] == xs[i + 1];
        }
      }
      FlaggedPairs(flag, xs[1..], interp, message);
      assert Resolved(xs, interp)[1..] == Resolved(xs[1..], interp);
    }
  }

  /**
    Each absent field contributes no argument: an image run has `run`,
    `--rm` and the image, two arguments per entrypoint, env pair, env file,
    port, volume and user, one per network and extra flag, and the command.
  */
  lemma ImageArgCount(a: Action, interp: Interp, image: string)
    requires PanicOf(a, interp).None?
    ensures |ImageArgs(a, interp, image)|
         == 3 + 2 * |AsSeq(a.entrypoint)| + 2 * |OrEmpty(a.envs)| + 2 * |AsSeq(a.envFile)|
          + |AsSeq(a.network)| + 2 * |OrEmpty(a.ports)| + 2 * |OrEmpty(a.volumes)|
          + 2 * |AsSeq(a.user)| + |OrEmpty(a.extraFlags)| + |OrEmpty(a.command)|
  {
    PairsAt("--entrypoint", Resolved(AsSeq(a.entrypoint), interp));
    PairsAt("-e", Resolved(EnvAssignments(OrEmpty(a.envs)), interp));
    PairsAt("--env-file", Resolved(AsSeq(a.envFile), interp));
    PairsAt("-p", Resolved(OrEmpty(a.ports), interp));
    PairsAt("-v", Resolved(OrEmpty(a.volumes), interp));
    PairsAt("-u", Resolved(AsSeq(a.user), interp));
  }

  /** Strings the interpolator leaves unchanged resolve to themselves. */
  lemma ResolvedUnchanged(xs: seq<string>, interp: Interp)
    requires forall i | 0 <= i < |xs| :: interp(xs[i]) == Ok(xs[i])
    ensures AllOk(xs, interp) && Resolved(xs, interp) == xs
  {
  }

  /**
    An ordering example: entrypoint, network, two ports, a user and one
    extra flag, none changed by interpolation, give exactly these arguments.
  */
  lemma OrderExample(e: string, n: string, p1: string, p2: string, u: string, x: string,
                     image: string, cmd: string, interp: Interp)
    requires interp(e) == Ok(e) && interp("--network=" + n) == Ok("--network=" + n)
    requires interp(p1) == Ok(p1) && interp(p2) == Ok(p2) && interp(u) == Ok(u) && interp(x) == Ok(x)
    requires interp(image) == Ok(image) && interp(cmd) == Ok(cmd)
    ensures Assemble(
              Action(Image(image), None, None, None, Some([cmd]), Some(e), None, None, Some(n),
                     Some([p1, p2]), None, Some(u), Some([x])),
              interp)
         == Ok(["run", "--rm", "--entrypoint", e, "--network=" + n, "-p", p1, "-p", p2, "-u", u, x, image, cmd])
  {
    var a := Action(Image(image), None, None, None, Some([cmd]), Some(e), None, None, Some(n),
                    Some([p1, p2]), None, Some(u), Some([x]));
    ResolvedUnchanged([cmd], interp);
    ResolvedUnchanged([e], interp);
    ResolvedUnchanged(["--network=" + n], interp);
    ResolvedUnchanged([p1, p2], interp);
    ResolvedUnchanged([u], interp);
    ResolvedUnchanged([x], interp);
    assert PanicOf(a, interp).None?;
    assert Pairs("-p", [p1, p2]) == ["-p", p1, "-p", p2] by {
      assert [p2][1..] == [];
      assert Pairs("-p", [p2]) == ["-p", p2];
      assert [p1, p2][1..] == [p2];
    }
    assert Pairs("--entrypoint", [e]) == ["--entrypoint", e];
    assert Pairs("-u", [u]) == ["-u", u];
    ResolvedUnchanged([], interp);
    assert EnvAssignments([]) == [];
    assert ImageArgs(a, interp, image)
        == ["run", "--rm"] + ["--entrypoint", e] + [] + [] + ["--network=" + n] + ["-p", p1, "-p", p2] + []
           + ["-u", u] + [x] + [image] + [cmd];
    assert ["run", "--rm"] + ["--entrypoint", e] + [] + [] + ["--network=" + n] + ["-p", p1, "-p", p2] + []
           + ["-u", u] + [x] + [image] + [cmd]
        == ["run", "--rm", "--entrypoint", e, "--network=" + n, "-p", p1, "-p", p2, "-u", u, x, image, cmd];
  }

  /** The same ordering example with the shell interpolator, for text without `#`. */
  lemma OrderExampleShell(e: string, n: string, p1: string, p2: string, u: string, x: string,
                          image: string, cmd: string, os: ConfShell.Os, run: ConfShell.Runner)
    requires '#' !in e && '#' !in n && '#' !in p1 && '#' !in p2 && '#' !in u && '#' !in x
    requires '#' !in image && '#' !in cmd
    ensures Assemble(
              Action(Image(image), None, None, None, Some([cmd]), Some(e), None, None, Some(n),
                     Some([p1, p2]), None, Some(u), Some([x])),
              ShellInterp(os, run))
         == Ok(["run", "--rm", "--entrypoint", e, "--network=" + n, "-p", p1, "-p", p2, "-u", u, x, image, cmd])
  {
    assert '#' !in "--network=" + n;
    ConfShell.NoShellWithoutHash(e, os, run);
    ConfShell.NoShellWithoutHash("--network=" + n, os, run);
    ConfShell.NoShellWithoutHash(p1, os, run);
    ConfShell.NoShellWithoutHash(p2, os, run);
    ConfShell.NoShellWithoutHash(u, os, run);
    ConfShell.NoShellWithoutHash(x, os, run);
    ConfShell.NoShellWithoutHash(image, os, run);
    ConfShell.NoShellWithoutHash(cmd, os, run);
    OrderExample(e, n, p1, p2, u, x, image, cmd, ShellInterp(os, run));
  }

  /** The default action runs the empty image name with no other flag. */
  lemma DefaultActionArgs(os: ConfShell.Os, run: ConfShell.Runner)
    ensures Assemble(DefaultAction(), ShellInterp(os, run)) == Ok(["run", "--rm", ""])
  {
    var interp := ShellInterp(os, run);
    ConfShell.NoShellWithoutHash("", os, run);
    assert interp("") == Ok("");
    assert PanicOf(DefaultAction(), interp).None?;
    assert ImageArgs(DefaultAction(), interp, "") == ["run", "--rm", ""];
  }

  /** The unit test's action: an image and a command, neither containing `#`, give `run --rm <image> <command>`. */
  lemma ImageWithCommand(image: string, c1: string, c2: string, os: ConfShell.Os, run: ConfShell.Runner)
    requires '#' !in image && '#' !in c1 && '#' !in c2
    ensures Assemble(DefaultAction().(context := Image(image), command := Some([c1, c2])), ShellInterp(os, run))
         == Ok(["run", "--rm", image, c1, c2])
  {
    var a := DefaultAction().(context := Image(image), command := Some([c1, c2]));
    var interp := ShellInterp(os, run);
    ConfShell.NoShellWithoutHash(image, os, run);
    ConfShell.NoShellWithoutHash(c1, os, run);
    ConfShell.NoShellWithoutHash(c2, os, run);
    ResolvedUnchanged([c1, c2], interp);
    ResolvedUnchanged([], interp);
    assert PanicOf(a, interp).None?;
    assert interp(image) == Ok(image);
    assert ImageArgs(a, interp, image) == ["run", "--rm"] + [image] + [c1, c2];
    assert ["run", "--rm"] + [image] + [c1, c2] == ["run", "--rm", image, c1, c2];
  }

  /**
    A command whose `#{x}` region cannot start a shell makes `run` panic,
    whatever the action's context, with the command's `expect` message and
    the start failure as the reported error.
  */
  lemma CommandSpawnFailure(a: Action, p: string, x: string, s: string, os: ConfShell.Os, run: ConfShell.Runner)
    requires '#' !in p && '}' !in x && run(ConfShell.ShellArgv(os, x)).Err?
    requires a.command == Some([p + "#{" + x + "}" + s])
    ensures Assemble(a, ShellInterp(os, run))
         == Err(Panic("Invalid env for cmds", ConfShell.SpawnFailed(run(ConfShell.ShellArgv(os, x)).error)))
  {
    var interp := ShellInterp(os, run);
    var c := p + "#{" + x + "}" + s;
    ConfShell.ShellFailureFails(p, x, s, os, run);
    assert interp(c).Err?;
    assert OrEmpty(a.command) == [c];
    assert [c][0] == c;
    assert FirstFailure([c], interp) == 0;
  }

  /** The environment map handed to `run` has no effect on what it runs. */
  lemma EnvsIgnored(a: Action, dockerCmd: string, envs: map<string, string>, envs': map<string, string>,
                    os: ConfShell.Os, run: ConfShell.Runner)
    ensures Run(a, dockerCmd, envs, os, run) == Run(a, dockerCmd, envs', os, run)
  {
  }
}
