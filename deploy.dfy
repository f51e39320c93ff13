/** The `deploy` command of `deploy.py`: resolve the environment's bucket,
    build the target URL, log in, find the one built IG and copy the output
    directory to a versioned target. The cloud client is foreign; the model
    records the calls made to it. */
module Deploy {
  import opened Wrappers
  import opened Strings
  import opened Exceptions
  import Urls

  /** The `deploy` section of the configuration. */
  datatype DeployConfig = DeployConfig(env: map<string, string>, path: Option<string>)

  /** A call to the cloud client. */
  datatype Action = Login | Copy(source: string, target: string)

  /** The calls made and how the command ended. */
  datatype Deployment = Deployment(actions: seq<Action>, result: Result<(), Exception>)

  /** `str(Path("./output"))` */
  const OutputDir := "output"

  /** `f"gs://{env.rstrip("/")}/{path.strip("/")}"` */
  function Target(env: string, path: string): string {
    "gs://" + RStripChar(env, '/') + "/" + StripChar(path, '/')
  }

  function UndefinedEnvironment(name: string): Exception {
    Failure("Environment '" + name + "' not defined in config")
  }

  /** `_deploy_ig(target, gcloud)`: `igs` are the files matching
      `output/ImplementationGuide*.json`, `igVersion` the `version` field of
      the first one, and `copyError` what the cloud client's `copy` raises,
      if anything (a declined overwrite, a failing copy command). */
  function DeployIg(target: string, igs: seq<string>, igVersion: Option<string>,
                    copyError: Option<Exception>): (r: Deployment)
    ensures r.result.Ok? <==> |igs| == 1 && igVersion.Some? && copyError.None?
    ensures |igs| != 1 ==> r == Deployment([], Err(Failure("Built IG not found")))
    ensures |igs| == 1 && igVersion.None? ==> r == Deployment([], Err(KeyError("version")))
    ensures |igs| == 1 && igVersion.Some? ==>
      && r.actions == [Copy(OutputDir, target + "/" + igVersion.value)]
      && (copyError.Some? ==> r.result == Err(copyError.value))
    ensures r.actions != [] <==> |igs| == 1 && igVersion.Some?
  {
    if |igs| != 1 then Deployment([], Err(Failure("Built IG not found")))
    else if igVersion.None? then Deployment([], Err(KeyError("version")))
    else
      var copy := Copy(OutputDir, target + "/" + igVersion.value);
      match copyError
      case Some(e) => Deployment([copy], Err(e))
      case None => Deployment([copy], Ok(()))
  }

  /** The configuration names the environment and a path, so the target
      can be built. */
  predicate Resolves(config: Option<DeployConfig>, environment: string) {
    config.Some? && environment in config.value.env && config.value.path.Some?
  }

  /** `handle(cli_args, config)` for the environment named `environment`;
      `loginError` is what the cloud client's `login` raises, if anything,
      and `copyError` what its `copy` raises. */
  function Handle(config: Option<DeployConfig>, environment: string, loginError: Option<Exception>,
                  igs: seq<string>, igVersion: Option<string>, copyError: Option<Exception>): (r: Deployment)
    ensures r.result.Ok? <==>
      Resolves(config, environment) && loginError.None? && |igs| == 1 && igVersion.Some? && copyError.None?
    ensures config.None? ==> r == Deployment([], Err(AttributeError("env")))
    ensures config.Some? && environment !in config.value.env ==>
      r == Deployment([], Err(UndefinedEnvironment(environment)))
    ensures config.Some? && environment in config.value.env && config.value.path.None? ==>
      r == Deployment([], Err(AttributeError("strip")))
    ensures (Login in r.actions) <==> Resolves(config, environment)
    ensures Resolves(config, environment) && loginError.Some? ==>
      r == Deployment([Login], Err(loginError.value))
    ensures r.actions != [] ==> r.actions[0] == Login
    ensures |r.actions| == 2 <==>
      Resolves(config, environment) && loginError.None? && |igs| == 1 && igVersion.Some?
    ensures |r.actions| == 2 ==>
      r.actions[1] == Copy(OutputDir, Target(config.value.env[environment], config.value.path.value)
                                      + "/" + igVersion.value)
  {
    if config.None? then Deployment([], Err(AttributeError("env")))
    else if environment !in config.value.env then Deployment([], Err(UndefinedEnvironment(environment)))
    else if config.value.path.None? then Deployment([], Err(AttributeError("strip")))
    else
      var target := Target(config.value.env[environment], config.value.path.value);
      match loginError
      case Some(e) => Deployment([Login], Err(e))
      case None =>
        var d := DeployIg(target, igs, igVersion, copyError);
        Deployment([Login] + d.actions, d.result)
  }

  /** The target is the bucket joined with the path as `Url` joins. */
  lemma TargetIsUrlJoin(env: string, path: string)
    ensures Target(env, path) == Urls.Str(Urls.Div(Urls.Url("gs://" + RStripChar(env, '/')), path))
  {
  }

  /** Removing one trailing `c` before stripping changes nothing. */
  lemma RStripDropsOne(s: string, c: char)
    ensures RStripChar(s + [c], c) == RStripChar(s, c)
  {
    assert (s + [c])[..|s|] == s;
  }

  /** Trailing slashes on the bucket and slashes around the path do not
      change the target. */
  lemma TargetIgnoresSlashes(env: string, path: string)
    ensures Target(env + "/", "/" + path + "/") == Target(env, path)
  {
    RStripDropsOne(env, '/');
    Urls.DivIgnoresSurroundingSlashes(Urls.Url("gs://" + RStripChar(env, '/')), path);
  }

  /** The bucket part of the target never ends with a slash, and the path
      part neither starts nor ends with one. */
  lemma TargetShape(env: string, path: string)
    ensures var b := RStripChar(env, '/');
            var p := StripChar(path, '/');
            && Target(env, path) == "gs://" + b + "/" + p
            && (b == [] || b[|b| - 1] != '/')
            && (p == [] || (p[0] != '/' && p[|p| - 1] != '/'))
  {
    StripCharShape(path, '/');
    RStripCharShape(env, '/');
  }
}
