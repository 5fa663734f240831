/**
  The legacy launcher of src/docker.rs: `DockerRun::run` builds
  `run --rm`, one argument per env pair, one for the env file, the image
  and the command, with no interpolation, and hands them to `docker`.
*/
module Docker {
  import opened Wrappers

  /** A legacy action. `envs` is the environment map in its iteration order. */
  datatype DockerRun = DockerRun(
    image: string,
    help: Option<string>,
    command: Option<seq<string>>,
    entrypoint: Option<seq<string>>,
    envs: Option<seq<(string, string)>>,
    envFile: Option<string>)

  /** One argument `-e k=v` per env pair. */
  function EnvFlags(envs: seq<(string, string)>): seq<string>
  {
    seq(|envs|, i requires 0 <= i < |envs| => "-e " + envs[i].0 + "=" + envs[i].1)
  }

  /** One argument `--env-file <path>` when an env file is set. */
  function EnvFileFlags(envFile: Option<string>): seq<string>
  {
    match envFile
    case None => []
    case Some(path) => ["--env-file " + path]
  }

  /** The arguments `DockerRun::run` passes to `docker`. */
  function Args(d: DockerRun): (args: seq<string>)
    ensures |args| == 3 + |OrEmpty(d.envs)| + (if d.envFile.Some? then 1 else 0) + |OrEmpty(d.command)|
    ensures args[0] == "run" && args[1] == "--rm"
    ensures forall i | 0 <= i < |OrEmpty(d.envs)| ::
      args[2 + i] == "-e " + OrEmpty(d.envs)[i].0 + "=" + OrEmpty(d.envs)[i].1
    ensures d.envFile.Some? ==> args[2 + |OrEmpty(d.envs)|] == "--env-file " + d.envFile.value
    ensures args[|args| - |OrEmpty(d.command)| - 1] == d.image
    ensures args[|args| - |OrEmpty(d.command)|..] == OrEmpty(d.command)
  {
    ["run", "--rm"] + EnvFlags(OrEmpty(d.envs)) + EnvFileFlags(d.envFile) + [d.image] + OrEmpty(d.command)
  }

  /** The arguments determine everything they were built from: env pairs, env file, image and command. */
  lemma ArgsInjective(d: DockerRun, e: DockerRun)
    requires |OrEmpty(d.envs)| == |OrEmpty(e.envs)| && d.envFile.Some? == e.envFile.Some?
    requires Args(d) == Args(e)
    ensures d.image == e.image && OrEmpty(d.command) == OrEmpty(e.command)
    ensures d.envFile == e.envFile
    ensures forall i | 0 <= i < |OrEmpty(d.envs)| ::
      "-e " + OrEmpty(d.envs)[i].0 + "=" + OrEmpty(d.envs)[i].1 == "-e " + OrEmpty(e.envs)[i].0 + "=" + OrEmpty(e.envs)[i].1
  {
    var n := 2 + |OrEmpty(d.envs)|;
    if d.envFile.Some? {
      assert Args(d)[n] == Args(e)[n];
      assert "--env-file " + d.envFile.value == "--env-file " + e.envFile.value;
      assert d.envFile.value == ("--env-file " + d.envFile.value)[11..];
      assert e.envFile.value == ("--env-file " + e.envFile.value)[11..];
    }
  }

  /** The entrypoint and the help text never reach the arguments. */
  lemma EntrypointAndHelpIgnored(d: DockerRun, entrypoint: Option<seq<string>>, help: Option<string>)
    ensures Args(d.(entrypoint := entrypoint, help := help)) == Args(d)
  {
  }

  /** The unit test's action: an image and a two-word command give `run --rm <image> <command>`. */
  lemma ImageWithCommand(image: string, c1: string, c2: string)
    ensures Args(DockerRun(image, None, Some([c1, c2]), None, None, None)) == ["run", "--rm", image, c1, c2]
  {
    assert EnvFlags([]) == [];
  }
}
