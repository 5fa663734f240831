/**
  The version dispatch of src/docker/conf/mod.rs: closed enums over the
  schema versions whose `help`, `run` and `actions` hand over to the
  version's own implementation. Version 1.0 is the only arm.

  `ActionsV1_0` is `Conf::actions` of src/docker/conf/v1_0.rs: it builds
  this module's `Action`, so it lives here.
*/
module Conf {
  import opened Wrappers
  import ConfShell
  import ConfV1_0

  /** An action of some schema version. */
  datatype Action = V1_0Action(action: ConfV1_0.Action)

  /** A configuration of some schema version. */
  datatype Conf = V1_0Conf(conf: ConfV1_0.Conf)

  /** `Action::help`: the help text as the action's version defines it. */
  function Help(a: Action): (h: Option<string>)
    ensures h == a.action.help
  {
    match a
    case V1_0Action(action) => ConfV1_0.Help(action)
  }

  /** `Action::run`: the invocation of the action's version, for the same engine path and environment. */
  function Run(a: Action, dockerCmd: string, envs: map<string, string>, os: ConfShell.Os, run: ConfShell.Runner)
    : (r: Result<ConfV1_0.Invocation, ConfV1_0.Abort>)
    ensures r == ConfV1_0.Run(a.action, dockerCmd, envs, os, run)
  {
    match a
    case V1_0Action(action) => ConfV1_0.Run(action, dockerCmd, envs, os, run)
  }

  /** `Conf::actions` of version 1.0: the same names, each action wrapped in the version enum. */
  function ActionsV1_0(c: ConfV1_0.Conf): (m: map<string, Action>)
    ensures m.Keys == c.actions.Keys
    ensures forall name | name in m :: m[name] == V1_0Action(c.actions[name])
  {
    map name | name in c.actions :: V1_0Action(c.actions[name])
  }

  /** `Conf::actions`: the actions of the configuration's version. */
  function Actions(c: Conf): (m: map<string, Action>)
    ensures m.Keys == c.conf.actions.Keys
    ensures forall name | name in m :: m[name].action == c.conf.actions[name]
  {
    match c
    case V1_0Conf(conf) => ActionsV1_0(conf)
  }

  /** The action `actions` returns under a configured name has that name's help text. */
  lemma ListedHelp(c: Conf, name: string)
    requires name in c.conf.actions
    ensures name in Actions(c) && Help(Actions(c)[name]) == c.conf.actions[name].help
  {
  }

  /**
    An end-to-end example: a configuration whose only action, here named
    `build-check`, has an image, an env pair and a two-word command, none
    containing `#`, runs
    `docker run --rm -e <k>=<v> <image> <command>`.
  */
  lemma BuildCheck(image: string, k: string, v: string, c1: string, c2: string,
                   dockerCmd: string, envs: map<string, string>, os: ConfShell.Os, run: ConfShell.Runner)
    requires '#' !in image && '#' !in k && '#' !in v && '#' !in c1 && '#' !in c2
    ensures
      var action := ConfV1_0.DefaultAction().(context := ConfV1_0.Image(image), command := Some([c1, c2]),
                                            envs := Some([(k, v)]));
      var c := V1_0Conf(ConfV1_0.Conf(ConfV1_0.V1_0, map["build-check" := action]));
      && "build-check" in Actions(c)
      && Run(Actions(c)["build-check"], dockerCmd, envs, os, run)
         == Ok(ConfV1_0.Invocation(dockerCmd, ["run", "--rm", "-e", k + "=" + v, image, c1, c2]))
  {
    var action := ConfV1_0.DefaultAction().(context := ConfV1_0.Image(image), command := Some([c1, c2]),
                                          envs := Some([(k, v)]));
    var interp := ConfV1_0.ShellInterp(os, run);
    var kv := k + "=" + v;
    assert '#' !in kv;
    ConfShell.NoShellWithoutHash(image, os, run);
    ConfShell.NoShellWithoutHash(kv, os, run);
    ConfShell.NoShellWithoutHash(c1, os, run);
    ConfShell.NoShellWithoutHash(c2, os, run);
    ConfV1_0.ResolvedUnchanged([c1, c2], interp);
    ConfV1_0.ResolvedUnchanged([kv], interp);
    ConfV1_0.ResolvedUnchanged([], interp);
    assert ConfV1_0.EnvAssignments([(k, v)]) == [kv];
    assert ConfV1_0.PanicOf(action, interp).None?;
    assert interp(image) == Ok(image);
    assert ConfV1_0.Pairs("-e", [kv]) == ["-e", kv];
    assert ConfV1_0.ImageArgs(action, interp, image) == ["run", "--rm"] + ["-e", kv] + [image] + [c1, c2];
    assert ["run", "--rm"] + ["-e", kv] + [image] + [c1, c2] == ["run", "--rm", "-e", kv, image, c1, c2];
  }
}
