/** `tools/igpub.py`: the QA summary of a built IG and the IG Publisher run.
    The parsed `qa.json` and `sushi-config.yaml` are inputs; the publisher
    is started through the runner of `tools/shell.py` (via `java.run_jar`,
    without capturing output). */
module IgPublisher {
  import opened Wrappers
  import opened Strings
  import opened Exceptions
  import LegacyShell

  /** The symbols of `log.py` that prefix the entries. */
  const Err := "\U{274C}"
  const Warn := "\U{26A0}\U{FE0F} "
  const Info := "\U{2139}\U{FE0F}"
  const Check := "\U{2705}"

  const PublisherJar := "input-cache/publisher.jar"

  const AllFine := Check + " Everything looks fine"

  /** `f"{symbol} {count}"` */
  function Entry(symbol: string, count: nat): string {
    symbol + " " + NatToString(count)
  }

  /** The entries `qa()` collects for the three counts. */
  function Entries(errs: int, warnings: int, hints: int): seq<string> {
    var e := Counted(errs, Err) + Counted(warnings, Warn) + Counted(hints, Info);
    if e == [] then [AllFine] else e
  }

  /** The entry for one count, present only when the count is positive. */
  function Counted(count: int, symbol: string): seq<string> {
    if count > 0 then [Entry(symbol, count)] else []
  }

  /** `qa()`: reads the counts of `output/qa.json` (`None` when the file is
      missing) and builds the logged summary by successive appends. */
  method Qa(qa: Option<map<string, int>>) returns (r: Result<string, Exception>)
    ensures qa.None? ==> r == Result.Err(Failure("IG not built"))
    ensures qa.Some? && "errs" !in qa.value ==> r == Result.Err(KeyError("errs"))
    ensures qa.Some? && "errs" in qa.value && "warnings" !in qa.value ==> r == Result.Err(KeyError("warnings"))
    ensures qa.Some? && "errs" in qa.value && "warnings" in qa.value && "hints" !in qa.value
            ==> r == Result.Err(KeyError("hints"))
    ensures r.Ok? ==>
      && qa.Some? && "errs" in qa.value && "warnings" in qa.value && "hints" in qa.value
      && r.value == "QA result: " + Join(", ", Entries(qa.value["errs"], qa.value["warnings"], qa.value["hints"]))
    ensures qa.Some? && "errs" in qa.value && "warnings" in qa.value && "hints" in qa.value ==> r.Ok?
  {
    if qa.None? {
      return Result.Err(Failure("IG not built"));
    }
    var counts := qa.value;
    var result: seq<string> := [];
    if "errs" !in counts {
      return Result.Err(KeyError("errs"));
    }
    var errs := counts["errs"];
    if errs > 0 {
      result := result + [Entry(Err, errs)];
    }
    if "warnings" !in counts {
      return Result.Err(KeyError("warnings"));
    }
    var warn := counts["warnings"];
    if warn > 0 {
      result := result + [Entry(Warn, warn)];
    }
    if "hints" !in counts {
      return Result.Err(KeyError("hints"));
    }
    var info := counts["hints"];
    if info > 0 {
      result := result + [Entry(Info, info)];
    }
    assert result == Counted(errs, Err) + Counted(warn, Warn) + Counted(info, Info);
    if |result| == 0 {
      result := result + [AllFine];
    }
    r := Ok("QA result: " + Join(", ", result));
  }

  /** The summary is never empty; it is the single all-clear entry exactly
      when no count is positive; otherwise it lists one entry per positive
      count, errors before warnings before hints. */
  lemma EntriesShape(errs: int, warnings: int, hints: int)
    ensures var e := Entries(errs, warnings, hints);
      && 1 <= |e| <= 3
      && (e == [AllFine] <==> errs <= 0 && warnings <= 0 && hints <= 0)
      && (errs > 0 ==> e[0] == Entry(Err, errs))
      && (errs <= 0 && warnings > 0 ==> e[0] == Entry(Warn, warnings))
      && (hints > 0 ==> e[|e| - 1] == Entry(Info, hints))
      && (errs > 0 && warnings > 0 ==> e[1] == Entry(Warn, warnings))
      && |e| == (if errs > 0 then 1 else 0) + (if warnings > 0 then 1 else 0) + (if hints > 0 then 1 else 0)
         + (if errs <= 0 && warnings <= 0 && hints <= 0 then 1 else 0)
  {
    CountedNotFine(errs, Err);
    CountedNotFine(warnings, Warn);
    CountedNotFine(hints, Info);
    var e := Counted(errs, Err) + Counted(warnings, Warn) + Counted(hints, Info);
    assert AllFine !in e;
  }

  lemma CountedNotFine(count: int, symbol: string)
    requires symbol == Err || symbol == Warn || symbol == Info
    ensures AllFine !in Counted(count, symbol)
  {
    if count > 0 {
      EntryNotFine(symbol, count);
    }
  }

  /** A count entry never reads as the all-clear entry. */
  lemma EntryNotFine(symbol: string, count: nat)
    requires symbol == Err || symbol == Warn || symbol == Info
    ensures Entry(symbol, count) != AllFine
  {
    var e := Entry(symbol, count);
    var d := NatToString(count);
    assert e[|e| - 1] == d[|d| - 1];
    assert IsDigit(e[|e| - 1]);
    assert !IsDigit(AllFine[|AllFine| - 1]);
  }

  /** A value `yaml.safe_load` gives for a key of `sushi-config.yaml`: a
      string, or a value of another type (`float` for `version: 1.0`,
      `int`, `bool`, `NoneType`, ...) named by its type. */
  datatype YamlValue = Str(text: string) | NonStr(typeName: string)

  /** The parsed `sushi-config.yaml`. */
  type SushiConfig = map<string, YamlValue>

  /** `sushi_config["canonical"] + "/" + sushi_config["version"]`,
      evaluated left to right: a missing key raises `KeyError`, and `+`
      with a value that is not a string raises `TypeError`, so a
      non-string `canonical` raises before `version` is looked up. */
  function PublishUrl(sushiConfig: SushiConfig): (r: Result<string, Exception>)
    ensures r.Ok? <==> && "canonical" in sushiConfig && sushiConfig["canonical"].Str?
                       && "version" in sushiConfig && sushiConfig["version"].Str?
    ensures r.Ok? ==> r.value == sushiConfig["canonical"].text + "/" + sushiConfig["version"].text
    ensures "canonical" !in sushiConfig ==> r == Result.Err(KeyError("canonical"))
    ensures "canonical" in sushiConfig && sushiConfig["canonical"].NonStr? ==> r.Err? && r.error.TypeError?
    ensures "canonical" in sushiConfig && sushiConfig["canonical"].Str? && "version" !in sushiConfig
            ==> r == Result.Err(KeyError("version"))
    ensures "canonical" in sushiConfig && sushiConfig["canonical"].Str?
            && "version" in sushiConfig && sushiConfig["version"].NonStr? ==>
              r.Err? && r.error.TypeError?
  {
    if "canonical" !in sushiConfig then Result.Err(KeyError("canonical"))
    else
      match sushiConfig["canonical"]
      case NonStr(t) => Result.Err(TypeError("'" + t + "' + 'str'"))
      case Str(canonical) =>
        if "version" !in sushiConfig then Result.Err(KeyError("version"))
        else
          match sushiConfig["version"]
          case NonStr(t) => Result.Err(TypeError("'str' + '" + t + "'"))
          case Str(version) => Ok(canonical + "/" + version)
  }

  /** The command `java.run_jar(PUBLISHER_JAR, *args)` runs. */
  function PublisherCommand(publishUrl: string): string {
    "java -jar " + PublisherJar + " " + Join(" ", ["-no-sushi", "-ig .", "-publish " + publishUrl])
  }

  /** `run()` with `shell` the runner's result for a command:
      `jarExists` is `input-cache/publisher.jar` existing, `sushiConfig`
      the parsed `sushi-config.yaml` (`None` when it is missing),
      `javaInstalled` the outcome of `which java`. */
  function RunWith(jarExists: bool, sushiConfig: Option<SushiConfig>, javaInstalled: bool,
                   shell: string -> Result<LegacyShell.ShellResult, Exception>): Result<(), Exception>
  {
    if !jarExists then Result.Err(Failure("IG Publisher is needed but not installed"))
    else if sushiConfig.None? then Result.Err(FileNotFound("sushi-config.yaml"))
    else
      var url :- PublishUrl(sushiConfig.value);
      if !javaInstalled then Result.Err(Failure("Java is needed but not installed"))
      else
        match shell(PublisherCommand(url))
        case Ok(_) => Ok(())
        case Err(e) => if e.CalledProcessError? then Result.Err(Failure("IG Publisher run failed")) else Result.Err(e)
  }

  /** `run()` as written: the runner is called without capture and its
      `ShellResult` then converts the missing output. */
  function RunAsWritten(jarExists: bool, sushiConfig: Option<SushiConfig>, javaInstalled: bool,
                        returncode: int): Result<(), Exception>
  {
    RunWith(jarExists, sushiConfig, javaInstalled,
            cmd => LegacyShell.RunAsWritten(cmd, None, false, "", "", returncode))
  }

  /** `run()` with the corrected runner. */
  function Run(jarExists: bool, sushiConfig: Option<SushiConfig>, javaInstalled: bool,
               returncode: int): (r: Result<(), Exception>)
    ensures !jarExists ==> r == Result.Err(Failure("IG Publisher is needed but not installed"))
    ensures jarExists && sushiConfig.None? ==> r == Result.Err(FileNotFound("sushi-config.yaml"))
    ensures jarExists && sushiConfig.Some? && PublishUrl(sushiConfig.value).Err?
            ==> r == Result.Err(PublishUrl(sushiConfig.value).error)
    ensures jarExists && sushiConfig.Some? && PublishUrl(sushiConfig.value).Ok? && !javaInstalled
            ==> r == Result.Err(Failure("Java is needed but not installed"))
    ensures r.Ok? <==> jarExists && sushiConfig.Some? && PublishUrl(sushiConfig.value).Ok?
                       && javaInstalled && returncode == 0
    ensures jarExists && sushiConfig.Some? && PublishUrl(sushiConfig.value).Ok? && javaInstalled && returncode != 0
            ==> r == Result.Err(Failure("IG Publisher run failed"))
  {
    RunWith(jarExists, sushiConfig, javaInstalled,
            cmd => LegacyShell.Run(cmd, None, false, "", "", returncode))
  }

  /** The publish URL is the canonical URL, a slash and the version, and
      the command passes it as the last argument. */
  lemma PublishUrlShape(canonical: string, version: string)
    ensures PublishUrl(map["canonical" := Str(canonical), "version" := Str(version)]) == Ok(canonical + "/" + version)
    ensures EndsWith(PublisherCommand(canonical + "/" + version), "-publish " + (canonical + "/" + version))
  {
    var p := "-publish " + (canonical + "/" + version);
    var args := ["-no-sushi", "-ig .", p];
    JoinCons(" ", args[0], args[1..]);
    JoinCons(" ", args[1], args[2..]);
    assert args[1..] == [args[1]] + args[2..];
    assert Join(" ", args) == "-no-sushi " + "-ig . " + p;
    var s := PublisherCommand(canonical + "/" + version);
    var pre := "java -jar " + PublisherJar + " ";
    assert s == pre + Join(" ", args);
    assert s == (pre + "-no-sushi " + "-ig . ") + p;
    assert s[|s| - |p|..] == p;
  }

  /** As written, a publisher run never succeeds: a failing exit becomes
      "IG Publisher run failed", and a successful one raises
      `AttributeError` while its output is converted. */
  lemma RunAsWrittenNeverSucceeds(jarExists: bool, sushiConfig: Option<SushiConfig>,
                                  javaInstalled: bool, returncode: int)
    ensures RunAsWritten(jarExists, sushiConfig, javaInstalled, returncode).Err?
    ensures jarExists && sushiConfig.Some? && PublishUrl(sushiConfig.value).Ok? && javaInstalled && returncode == 0
            ==> RunAsWritten(jarExists, sushiConfig, javaInstalled, returncode) == Result.Err(AttributeError("strip"))
  {
  }
}
