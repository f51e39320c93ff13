/** The build handlers of `build.py`: which steps `build_defs`, `build_ig`
    and `build_all` run for given command-line flags and configuration, in
    which order, and which tool failures only produce a warning. The tools
    themselves are foreign: `outcome` says how each call ends. */
module Build {
  import opened Wrappers
  import opened Exceptions

  /** The tool calls the handlers make. */
  datatype Tool =
    | IgtoolsProcess | IgtoolsReleaseNotes | IgtoolsExport
    | SushiRun
    | EpatoolsMergeCapabilities
    | IgpubRun
    | EpatoolsOpenapi
    | IgpubQa

  /** How a tool call ends: normally, or by raising. */
  datatype Outcome = Done | Raised(error: Exception)

  /** The steps of a build, each one handler or tool call of `build.py`. */
  datatype Step = Requirements | Sushi | Capabilities | Publisher | OpenApi | Qa

  /** The flags of the `defs`, `ig` and `all` sub-commands; an `only_*`
      flag the sub-command does not define is `None`. */
  datatype Flags = Flags(req: bool, cap: bool, oapi: bool,
                         onlyReq: Option<bool>, onlyCap: Option<bool>, onlyOapi: Option<bool>)

  /** The `build.steps` configuration switches. */
  datatype StepsConfig = StepsConfig(requirements: bool, capStatements: bool, openapi: bool)

  /** What running a sequence of calls produced: the calls made, the
      failures logged as warnings, and how it ended. */
  datatype Run = Run(calls: seq<Tool>, warnings: seq<Exception>, result: Result<(), Exception>)

  /** `getattr(cli_args, name, False)` */
  function Flag(f: Option<bool>): bool {
    f.GetOr(false)
  }

  // ---------------------------------------------------------------------
  // step selection

  predicate RunsRequirements(flags: Flags, config: StepsConfig) {
    config.requirements || ((flags.req || Flag(flags.onlyReq)) && !Flag(flags.onlyCap))
  }

  predicate RunsSushi(flags: Flags) {
    !Flag(flags.onlyReq) && !Flag(flags.onlyCap)
  }

  predicate RunsCapabilities(flags: Flags, config: StepsConfig) {
    config.capStatements || ((flags.cap || Flag(flags.onlyCap)) && !Flag(flags.onlyReq))
  }

  predicate RunsPublisher(flags: Flags) {
    !Flag(flags.onlyOapi)
  }

  predicate RunsOpenApi(flags: Flags, config: StepsConfig) {
    config.openapi || Flag(flags.onlyOapi) || flags.oapi
  }

  function If(b: bool, s: Step): seq<Step> {
    if b then [s] else []
  }

  /** The steps `build_defs` runs, in order. */
  function DefsSteps(flags: Flags, config: StepsConfig): seq<Step> {
    If(RunsRequirements(flags, config), Requirements)
    + If(RunsSushi(flags), Sushi)
    + If(RunsCapabilities(flags, config), Capabilities)
  }

  /** The steps `build_ig` runs, in order. */
  function IgSteps(flags: Flags, config: StepsConfig): seq<Step> {
    If(RunsPublisher(flags), Publisher) + If(RunsOpenApi(flags, config), OpenApi) + [Qa]
  }

  /** The position of a step in the full build. */
  function Rank(s: Step): nat {
    match s
    case Requirements => 0
    case Sushi => 1
    case Capabilities => 2
    case Publisher => 3
    case OpenApi => 4
    case Qa => 5
  }

  predicate InOrder(steps: seq<Step>) {
    forall i, j :: 0 <= i < j < |steps| ==> Rank(steps[i]) < Rank(steps[j])
  }

  /** `build_defs` selects requirements, SUSHI and capabilities by the
      documented rules, in that order; the configuration switch for
      requirements wins over `--only-cap`, the one for capabilities over
      `--only-req`; missing `only_*` flags count as unset. */
  lemma DefsSelection(flags: Flags, config: StepsConfig)
    ensures Requirements in DefsSteps(flags, config)
            <==> config.requirements || ((flags.req || flags.onlyReq == Some(true)) && flags.onlyCap != Some(true))
    ensures Sushi in DefsSteps(flags, config) <==> flags.onlyReq != Some(true) && flags.onlyCap != Some(true)
    ensures Capabilities in DefsSteps(flags, config)
            <==> config.capStatements || ((flags.cap || flags.onlyCap == Some(true)) && flags.onlyReq != Some(true))
    ensures InOrder(DefsSteps(flags, config))
    ensures forall s :: s in DefsSteps(flags, config) ==> Rank(s) <= 2
  {
    Optionals(RunsRequirements(flags, config), RunsSushi(flags), RunsCapabilities(flags, config),
              Requirements, Sushi, Capabilities);
  }

  /** Three optional steps of increasing rank, each present iff selected. */
  lemma Optionals(p: bool, q: bool, r: bool, x: Step, y: Step, z: Step)
    requires Rank(x) < Rank(y) < Rank(z)
    ensures var s := If(p, x) + If(q, y) + If(r, z);
      && (x in s <==> p) && (y in s <==> q) && (z in s <==> r)
      && InOrder(s)
      && forall m :: m in s ==> m == x || m == y || m == z
  {
    var s := If(p, x) + If(q, y) + If(r, z);
    assert forall m :: m in s <==> (p && m == x) || (q && m == y) || (r && m == z);
  }

  /** `build_ig` runs the publisher unless only OpenAPI is wanted, OpenAPI
      when configured or asked for, and the QA summary always, last. */
  lemma IgSelection(flags: Flags, config: StepsConfig)
    ensures Publisher in IgSteps(flags, config) <==> flags.onlyOapi != Some(true)
    ensures OpenApi in IgSteps(flags, config) <==> config.openapi || flags.onlyOapi == Some(true) || flags.oapi
    ensures IgSteps(flags, config)[|IgSteps(flags, config)| - 1] == Qa
    ensures InOrder(IgSteps(flags, config))
    ensures forall s :: s in IgSteps(flags, config) ==> Rank(s) >= 3
  {
  }

  /** `build_all` orders every definition step before every IG step. */
  lemma AllInOrder(flags: Flags, config: StepsConfig)
    ensures InOrder(DefsSteps(flags, config) + IgSteps(flags, config))
  {
    DefsSelection(flags, config);
    IgSelection(flags, config);
    var d := DefsSteps(flags, config);
    var g := IgSteps(flags, config);
    forall i, j | 0 <= i < j < |d + g|
      ensures Rank((d + g)[i]) < Rank((d + g)[j])
    {
      if j < |d| {
      } else if i >= |d| {
        assert (d + g)[i] == g[i - |d|] && (d + g)[j] == g[j - |d|];
      } else {
        assert (d + g)[i] in d && (d + g)[j] in g;
      }
    }
  }

  // ---------------------------------------------------------------------
  // running the steps

  /** NoConfig and NotInstalled are the failures `build_req` and
      `build_cap` log and skip. */
  predicate Skippable(e: Exception) {
    e.NoConfig? || e.NotInstalled?
  }

  /** The tool calls a step makes, in order. */
  function Calls(step: Step): seq<Tool> {
    match step
    case Requirements => [IgtoolsProcess, IgtoolsReleaseNotes, IgtoolsExport]
    case Sushi => [SushiRun]
    case Capabilities => [EpatoolsMergeCapabilities]
    case Publisher => [IgpubRun]
    case OpenApi => [EpatoolsOpenapi]
    case Qa => [IgpubQa]
  }

  /** Calling tools one after the other; the first that raises ends the
      sequence. */
  function CallAll(tools: seq<Tool>, outcome: Tool -> Outcome): (r: Run)
    ensures r.warnings == []
    ensures 1 <= |r.calls| <= |tools| || (tools == [] && r.calls == [])
    ensures r.calls == tools[..|r.calls|]
    ensures forall i :: 0 <= i < |r.calls| - 1 ==> outcome(r.calls[i]) == Done
    ensures r.result.Ok? <==> r.calls == tools && forall i :: 0 <= i < |tools| ==> outcome(tools[i]) == Done
    ensures r.result.Err? ==> outcome(r.calls[|r.calls| - 1]) == Raised(r.result.error)
  {
    if tools == [] then Run([], [], Ok(()))
    else
      match outcome(tools[0])
      case Raised(e) => Run([tools[0]], [], Err(e))
      case Done =>
        var rest := CallAll(tools[1..], outcome);
        assert tools == [tools[0]] + tools[1..];
        Run([tools[0]] + rest.calls, [], rest.result)
  }

  /** `except (NoConfigException, NotInstalledException)`: a skippable
      failure becomes a warning and the step counts as done. */
  function Catch(r: Run): Run {
    if r.result.Err? && Skippable(r.result.error) then Run(r.calls, r.warnings + [r.result.error], Ok(()))
    else r
  }

  /** One step: requirements and capabilities catch skippable failures,
      every other step lets all failures through. */
  function StepRun(step: Step, outcome: Tool -> Outcome): Run {
    var r := CallAll(Calls(step), outcome);
    if step == Requirements || step == Capabilities then Catch(r) else r
  }

  /** `a` followed by `b`. */
  function Then(a: Run, b: Run): Run {
    Run(a.calls + b.calls, a.warnings + b.warnings, b.result)
  }

  /** The steps one after the other; a failure that is not caught ends the
      build. */
  function RunSteps(steps: seq<Step>, outcome: Tool -> Outcome): Run {
    if steps == [] then Run([], [], Ok(()))
    else
      var first := StepRun(steps[0], outcome);
      if first.result.Err? then first else Then(first, RunSteps(steps[1..], outcome))
  }

  /** A caught step never fails with a skippable error; it logs at most
      one warning, the skippable error of the call that ended it; it ends
      cleanly without warnings exactly when every call succeeded. */
  lemma CaughtStep(step: Step, outcome: Tool -> Outcome)
    requires step == Requirements || step == Capabilities
    ensures var r := StepRun(step, outcome);
      && (r.result.Err? ==> !Skippable(r.result.error) && r.warnings == [])
      && (r.result.Ok? && r.warnings == [] <==> r.calls == Calls(step) && forall t :: t in Calls(step) ==> outcome(t) == Done)
      && |r.warnings| <= 1
      && (r.warnings != [] ==> Skippable(r.warnings[0]) && outcome(r.calls[|r.calls| - 1]) == Raised(r.warnings[0]))
  {
    var c := CallAll(Calls(step), outcome);
    assert |c.calls| >= 1;
  }

  /** A skippable failure of the first igtools call skips the other two
      and only produces a warning. */
  lemma RequirementsSkipRest(outcome: Tool -> Outcome, e: Exception)
    requires outcome(IgtoolsProcess) == Raised(e) && Skippable(e)
    ensures StepRun(Requirements, outcome) == Run([IgtoolsProcess], [e], Ok(()))
  {
  }

  /** OpenAPI failures are not caught: a missing epatools configuration
      ends the build. */
  lemma OpenApiNotCaught(outcome: Tool -> Outcome)
    requires outcome(EpatoolsOpenapi) == Raised(NoConfig("epatools"))
    ensures StepRun(OpenApi, outcome) == Run([EpatoolsOpenapi], [], Err(NoConfig("epatools")))
  {
  }

  /** Running two step lists one after the other is running their
      concatenation: this is `build_all`. */
  lemma {:induction false} RunStepsAppend(a: seq<Step>, b: seq<Step>, outcome: Tool -> Outcome)
    ensures RunSteps(a + b, outcome)
            == if RunSteps(a, outcome).result.Err? then RunSteps(a, outcome)
               else Then(RunSteps(a, outcome), RunSteps(b, outcome))
  {
    if a == [] {
      assert a + b == b;
      ThenEmpty(RunSteps(b, outcome));
    } else {
      assert (a + b)[0] == a[0];
      assert (a + b)[1..] == a[1..] + b;
      var f := StepRun(a[0], outcome);
      if !f.result.Err? {
        RunStepsAppend(a[1..], b, outcome);
        var x := RunSteps(a[1..], outcome);
        assert RunSteps(a, outcome) == Then(f, x);
        assert RunSteps(a + b, outcome) == Then(f, RunSteps(a[1..] + b, outcome));
        if !x.result.Err? {
          ThenAssoc(f, x, RunSteps(b, outcome));
        }
      }
    }
  }

  lemma ThenEmpty(r: Run)
    ensures Then(Run([], [], Ok(())), r) == r
  {
    assert [] + r.calls == r.calls;
    assert [] + r.warnings == r.warnings;
  }

  lemma ThenAssoc(f: Run, x: Run, y: Run)
    ensures Then(f, Then(x, y)) == Then(Then(f, x), y)
  {
    assert f.calls + (x.calls + y.calls) == (f.calls + x.calls) + y.calls;
    assert f.warnings + (x.warnings + y.warnings) == (f.warnings + x.warnings) + y.warnings;
  }

  /** When every tool call succeeds, every selected step makes all its
      calls and nothing is logged as a warning. */
  lemma {:induction false} RunStepsAllDone(steps: seq<Step>, outcome: Tool -> Outcome)
    requires forall t :: outcome(t) == Done
    ensures RunSteps(steps, outcome).result.Ok?
    ensures RunSteps(steps, outcome).warnings == []
    ensures RunSteps(steps, outcome).calls == Flatten(steps)
  {
    if steps != [] {
      var tools := Calls(steps[0]);
      var c := CallAll(tools, outcome);
      assert c.calls == tools;
      RunStepsAllDone(steps[1..], outcome);
    }
  }

  function Flatten(steps: seq<Step>): seq<Tool> {
    if steps == [] then [] else Calls(steps[0]) + Flatten(steps[1..])
  }

  // ---------------------------------------------------------------------
  // the handlers

  /** `build_req`: the three igtools calls inside one `try`. */
  method BuildReq(outcome: Tool -> Outcome) returns (r: Run)
    ensures r == StepRun(Requirements, outcome)
  {
    var calls := [IgtoolsProcess];
    var o := outcome(IgtoolsProcess);
    if o.Done? {
      calls := calls + [IgtoolsReleaseNotes];
      o := outcome(IgtoolsReleaseNotes);
      if o.Done? {
        calls := calls + [IgtoolsExport];
        o := outcome(IgtoolsExport);
      }
    }
    if o.Done? {
      r := Run(calls, [], Ok(()));
    } else if Skippable(o.error) {
      r := Run(calls, [o.error], Ok(()));
    } else {
      r := Run(calls, [], Err(o.error));
    }
  }

  /** `build_cap`: the capability merge inside one `try`. */
  method BuildCap(outcome: Tool -> Outcome) returns (r: Run)
    ensures r == StepRun(Capabilities, outcome)
  {
    var o := outcome(EpatoolsMergeCapabilities);
    if o.Done? {
      r := Run([EpatoolsMergeCapabilities], [], Ok(()));
    } else if Skippable(o.error) {
      r := Run([EpatoolsMergeCapabilities], [o.error], Ok(()));
    } else {
      r := Run([EpatoolsMergeCapabilities], [], Err(o.error));
    }
  }

  /** A step whose failures propagate. */
  method Call(tool: Tool, outcome: Tool -> Outcome) returns (r: Run)
    ensures r == Run([tool], [], if outcome(tool).Done? then Ok(()) else Err(outcome(tool).error))
  {
    var o := outcome(tool);
    r := Run([tool], [], if o.Done? then Ok(()) else Err(o.error));
  }

  /** A one-step list runs that step. */
  lemma RunStepsSingle(s: Step, outcome: Tool -> Outcome)
    ensures RunSteps([s], outcome) == StepRun(s, outcome)
  {
    var f := StepRun(s, outcome);
    assert [s][1..] == [];
    assert f.calls + [] == f.calls && f.warnings + [] == f.warnings;
  }

  /** A step that does not catch runs its one tool as `Call` does. */
  lemma StepOfCall(step: Step, outcome: Tool -> Outcome)
    requires step != Requirements && step != Capabilities
    ensures |Calls(step)| == 1
    ensures var t := Calls(step)[0];
      StepRun(step, outcome) == Run([t], [], if outcome(t).Done? then Ok(()) else Err(outcome(t).error))
  {
  }

  /** Running an optional step after `r`, as the handlers do. */
  lemma RunOptional(steps: seq<Step>, b: bool, s: Step, outcome: Tool -> Outcome)
    requires !RunSteps(steps, outcome).result.Err?
    ensures RunSteps(steps + If(b, s), outcome)
            == if b then Then(RunSteps(steps, outcome), StepRun(s, outcome)) else RunSteps(steps, outcome)
  {
    RunStepsAppend(steps, If(b, s), outcome);
    if b {
      RunStepsSingle(s, outcome);
    } else {
      assert steps + If(b, s) == steps;
    }
  }

  /** `build_defs(cli_args, config)` */
  method BuildDefs(flags: Flags, config: StepsConfig, outcome: Tool -> Outcome) returns (r: Run)
    ensures r == RunSteps(DefsSteps(flags, config), outcome)
  {
    var onlyCap := flags.onlyCap.GetOr(false);
    var onlyReq := flags.onlyReq.GetOr(false);
    var a := If(RunsRequirements(flags, config), Requirements);
    var ab := a + If(RunsSushi(flags), Sushi);
    var abc := ab + If(RunsCapabilities(flags, config), Capabilities);
    RunStepsAppend(a, If(RunsSushi(flags), Sushi), outcome);
    RunStepsAppend(ab, If(RunsCapabilities(flags, config), Capabilities), outcome);
    r := Run([], [], Ok(()));
    if config.requirements || ((flags.req || onlyReq) && !onlyCap) {
      RunStepsSingle(Requirements, outcome);
      r := BuildReq(outcome);
      if r.result.Err? {
        return;
      }
    }
    assert r == RunSteps(a, outcome);
    RunOptional(a, RunsSushi(flags), Sushi, outcome);
    if !onlyReq && !onlyCap {
      RunStepsSingle(Sushi, outcome);
      StepOfCall(Sushi, outcome);
      var s := Call(SushiRun, outcome);
      assert s == StepRun(Sushi, outcome);
      r := Then(r, s);
      if r.result.Err? {
        return;
      }
    }
    assert r == RunSteps(ab, outcome);
    RunOptional(ab, RunsCapabilities(flags, config), Capabilities, outcome);
    if config.capStatements || ((flags.cap || onlyCap) && !onlyReq) {
      var s := BuildCap(outcome);
      r := Then(r, s);
    }
  }

  /** `build_ig(cli_args, config)`; OpenAPI is `build_openapi`, which
      calls `epatools.openapi`. */
  method BuildIg(flags: Flags, config: StepsConfig, outcome: Tool -> Outcome) returns (r: Run)
    ensures r == RunSteps(IgSteps(flags, config), outcome)
  {
    var onlyOapi := flags.onlyOapi.GetOr(false);
    var a := If(RunsPublisher(flags), Publisher);
    var ab := a + If(RunsOpenApi(flags, config), OpenApi);
    RunStepsAppend(ab, [Qa], outcome);
    RunStepsAppend(a, If(RunsOpenApi(flags, config), OpenApi), outcome);
    r := Run([], [], Ok(()));
    if !onlyOapi {
      RunStepsSingle(Publisher, outcome);
      StepOfCall(Publisher, outcome);
      r := Call(IgpubRun, outcome);
      assert r == StepRun(Publisher, outcome);
      if r.result.Err? {
        return;
      }
    }
    assert r == RunSteps(a, outcome);
    if config.openapi || onlyOapi || flags.oapi {
      RunStepsSingle(OpenApi, outcome);
      StepOfCall(OpenApi, outcome);
      var s := Call(EpatoolsOpenapi, outcome);
      assert s == StepRun(OpenApi, outcome);
      r := Then(r, s);
      if r.result.Err? {
        return;
      }
    } else {
      assert ab == a;
    }
    assert r == RunSteps(ab, outcome);
    RunStepsSingle(Qa, outcome);
    StepOfCall(Qa, outcome);
    var s := Call(IgpubQa, outcome);
    r := Then(r, s);
  }

  /** `build_all(cli_args, config)`: the definitions, then the IG. */
  method BuildAll(flags: Flags, config: StepsConfig, outcome: Tool -> Outcome) returns (r: Run)
    ensures r == RunSteps(DefsSteps(flags, config) + IgSteps(flags, config), outcome)
  {
    RunStepsAppend(DefsSteps(flags, config), IgSteps(flags, config), outcome);
    r := BuildDefs(flags, config, outcome);
    if r.result.Err? {
      return;
    }
    var s := BuildIg(flags, config, outcome);
    r := Then(r, s);
  }
}
