/** `tools/firely_terminal.py`: installing FHIR packages with Firely
    Terminal (`fhir`), updating it through .NET, and its version. Whether a
    binary is installed, the banner pattern and what `dotnet --version`
    reports are inputs. */
module Firely {
  import opened Wrappers
  import opened Strings
  import opened Exceptions
  import opened Versions
  import BasicShell

  const Package := "firely.terminal"

  const MissingArguments := Failure("For install provide a package name AND a version or a file.")

  /** The `fhir install` command for a package and version, or else for an
      archive file; a given path is always truthy. */
  function InstallCommand(pkg: Option<string>, version: Option<string>, file: Option<string>): Result<string, Exception> {
    if Truthy(pkg) && Truthy(version) then Ok("fhir install " + pkg.value + " " + version.value)
    else if file.Some? then Ok("fhir install " + file.value + " --file")
    else Err(MissingArguments)
  }

  /** A package with its version wins over a file; a file is used only
      without both; with neither there is no command. */
  lemma InstallCommandChoice(pkg: Option<string>, version: Option<string>, file: Option<string>)
    ensures InstallCommand(pkg, version, file).Err? <==> !(Truthy(pkg) && Truthy(version)) && file.None?
    ensures Truthy(pkg) && Truthy(version) ==> InstallCommand(pkg, version, file) == InstallCommand(pkg, version, None)
    ensures InstallCommand(pkg, version, file).Ok? ==> StartsWith(InstallCommand(pkg, version, file).value, "fhir install ")
  {
    var r := InstallCommand(pkg, version, file);
    if r.Ok? {
      assert r.value[..13] == "fhir install ";
    }
  }

  /** `install(pkg, version, file)`: `fhir` must be installed; the command
      runs unchecked through the shell runner and a non-zero exit raises
      `CalledProcessError` with the joined output. */
  method Install(fhirInstalled: bool, pkg: Option<string>, version: Option<string>, file: Option<string>,
                 clean: string -> string, lines: seq<string>, returncode: int)
    returns (r: Result<(), Exception>)
    ensures !fhirInstalled ==> r == Err(NotInstalled("fhir"))
    ensures fhirInstalled && InstallCommand(pkg, version, file).Err? ==> r == Err(MissingArguments)
    ensures fhirInstalled && InstallCommand(pkg, version, file).Ok? ==>
      var cmd := InstallCommand(pkg, version, file).value;
      && (r.Ok? <==> returncode == 0)
      && (r.Err? ==> r.error == CalledProcessError(returncode, CommandLine(cmd),
                                                   Some(BasicShell.Oneline(BasicShell.CleanAll(clean, lines))), Some("")))
  {
    if !fhirInstalled {
      return Err(NotInstalled("fhir"));
    }
    var cmd :- InstallCommand(pkg, version, file);
    var res := BasicShell.Run(cmd, false, clean, lines, returncode);
    var shell := res.value;
    if shell.returncode != 0 {
      return Err(CalledProcessError(shell.returncode, shell.args, Some(shell.StdoutOneline()), Some(shell.StderrOneline())));
    }
    r := Ok(());
  }

  /** `restore()`: `fhir restore` runs once `fhir` is installed; its exit
      code is not looked at. */
  method Restore(fhirInstalled: bool, clean: string -> string, lines: seq<string>, returncode: int)
    returns (r: Result<(), Exception>)
    ensures r.Ok? <==> fhirInstalled
    ensures r.Err? ==> r.error == NotInstalled("fhir")
  {
    if !fhirInstalled {
      return Err(NotInstalled("fhir"));
    }
    var res := BasicShell.Run("fhir restore", false, clean, lines, returncode);
    r := Ok(());
  }

  /** The .NET tool commands `update(install)` issues. */
  datatype DotnetCall = DotnetInstall(pkg: string) | DotnetUpdate(pkg: string)

  /** `update(install)`: a fresh install when asked for; the in-place
      update is disabled, so otherwise nothing happens. */
  function Update(install: bool): (r: seq<DotnetCall>)
    ensures |r| <= 1
    ensures r != [] <==> install
    ensures forall i :: 0 <= i < |r| ==> r[i] == DotnetInstall(Package)
  {
    if install then [DotnetInstall(Package)] else []
  }

  // ---------------------------------------------------------------------
  // version()

  /** The version as `version()` builds it: the attached value is the
      plain string `dotnet.version()` returns, not a `Version`. */
  datatype FirelyVersion = FirelyVersion(version: Version, addVersion: Option<string>)

  /** `version()` as written; `banner` is the group of the version pattern
      on the one-line output of `fhir -v`, `dotnet` the outcome of
      `dotnet --version`. */
  method VersionAsWritten(clean: string -> string, lines: seq<string>, returncode: int,
                          banner: string -> Option<string>, dotnet: Option<string>)
    returns (v: FirelyVersion)
    ensures returncode != 0 ==> v == FirelyVersion(Parse(None), None)
    ensures returncode == 0 ==>
      v == FirelyVersion(Parse(banner(BasicShell.Oneline(BasicShell.CleanAll(clean, lines)))), dotnet)
  {
    var res := BasicShell.Run("fhir -v", true, clean, lines, returncode);
    if res.Err? {
      return FirelyVersion(Parse(None), None);
    }
    var shell := res.value;
    var version := Parse(banner(shell.StdoutOneline()));
    v := FirelyVersion(version, dotnet);
  }

  /** `long` on that value: a non-empty string is truthy, and a string
      has no attribute `long`. */
  function LongAsWritten(v: FirelyVersion): Result<string, Exception> {
    if Truthy(v.addVersion) then Err(AttributeError("long")) else Ok(ToString(v.version))
  }

  /** As written, the long form of Firely Terminal's version raises as
      soon as .NET reports a version. */
  lemma LongAsWrittenRaises(version: Version, d: string)
    requires d != ""
    ensures LongAsWritten(FirelyVersion(version, Some(d))) == Err(AttributeError("long"))
  {
  }

  /** `version()` with the .NET version parsed into a `Version`, as the
      annotation of `add_version` demands. */
  method VersionOf(clean: string -> string, lines: seq<string>, returncode: int,
                   banner: string -> Option<string>, dotnet: Option<string>)
    returns (v: Version)
    ensures returncode != 0 ==> v == Parse(None) && Long(v) == "n/a"
    ensures returncode == 0 ==>
      && v.major == Parse(banner(BasicShell.Oneline(BasicShell.CleanAll(clean, lines)))).major
      && v.minor == Parse(banner(BasicShell.Oneline(BasicShell.CleanAll(clean, lines)))).minor
      && v.patch == Parse(banner(BasicShell.Oneline(BasicShell.CleanAll(clean, lines)))).patch
      && (v.addVersion.Some? <==> Truthy(dotnet))
      && (Truthy(dotnet) ==> v.addVersion == Some(Parse(dotnet)))
  {
    var res := BasicShell.Run("fhir -v", true, clean, lines, returncode);
    if res.Err? {
      ParseUnknown(None);
      return Parse(None);
    }
    var shell := res.value;
    var version := Parse(banner(shell.StdoutOneline()));
    v := WithAddVersion(version, if Truthy(dotnet) then Some(Parse(dotnet)) else None);
  }

  /** With the correction the long form names both versions, and falls
      back to the short form when .NET reports nothing. */
  lemma LongOfFixed(terminal: string, d: Option<string>)
    ensures Truthy(d) ==> Long(WithAddVersion(Parse(Some(terminal)), Some(Parse(d)))) == terminal + " [" + d.value + "]"
    ensures Long(WithAddVersion(Parse(Some(terminal)), None)) == terminal
  {
    if Truthy(d) {
      LongOfPair(terminal, d.value);
    }
    ParseRoundTrip(terminal);
  }
}
