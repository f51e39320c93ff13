/** The older shell runner of `tools/shell.py`: output normalisation
    without colour removal, the comma-joined one-line views, the effective
    check of `run` and the counter of `run_progress`. */
module LegacyShell {
  import opened Wrappers
  import opened Strings
  import opened Exceptions
  import BasicShell

  /** The pieces of the trimmed text that are not exactly empty, each
      stripped, in order. */
  function StripLines(pieces: seq<string>): (r: seq<string>)
    ensures |r| <= |pieces|
  {
    if pieces == [] then [] else Kept(pieces[0]) + StripLines(pieces[1..])
  }

  function Kept(p: string): (r: seq<string>)
    ensures |r| <= 1
  {
    if p == "" then [] else [Strip(p)]
  }

  /** Every resulting line is already stripped. */
  lemma {:induction false} StripLinesStripped(pieces: seq<string>)
    ensures forall i :: 0 <= i < |StripLines(pieces)| ==> Strip(StripLines(pieces)[i]) == StripLines(pieces)[i]
  {
    if pieces != [] {
      StripByIdempotent(pieces[0], IsSpace);
      StripLinesStripped(pieces[1..]);
    }
  }

  /** `_convert_std(value)`: text is trimmed, split on newlines, and each
      non-empty piece stripped. `None` and the pipe object have no `strip`
      and raise. */
  function ConvertStdAsWritten(value: BasicShell.Stream): (r: Result<seq<string>, Exception>)
    ensures value.Text? <==> r.Ok?
    ensures r.Err? ==> r.error == AttributeError("strip")
  {
    match value
    case Text(s) => Ok(StripLines(Split(Strip(s), '\n')))
    case _ => Err(AttributeError("strip"))
  }

  /** `_convert_std` as intended, and as the newer runner has it: `None`,
      the uncaptured output, gives no lines. */
  function ConvertStd(value: BasicShell.Stream): (r: Result<seq<string>, Exception>)
    ensures value.NoStream? ==> r == Ok([])
    ensures value.Text? || value.NoStream? <==> r.Ok?
    ensures value.Text? ==> r == ConvertStdAsWritten(value)
  {
    if value.NoStream? then Ok([]) else ConvertStdAsWritten(value)
  }

  lemma {:induction false} StripLinesAgree(pieces: seq<string>)
    requires forall j :: 0 <= j < |pieces| ==> '\U{1B}' !in pieces[j] && '\\' !in pieces[j]
    ensures StripLines(pieces) == BasicShell.NormaliseLines(pieces)
  {
    if pieces != [] {
      if pieces[0] != "" {
        BasicShell.NormaliseLinesPlain(pieces[0]);
        assert Kept(pieces[0]) == BasicShell.NormaliseLines([pieces[0]]);
      }
      StripLinesAgree(pieces[1..]);
    }
  }

  /** The newer normalisation is this one followed by colour removal on
      each line: both keep the same pieces, in the same order. */
  lemma {:induction false} NormaliseIsCleanedStripLines(pieces: seq<string>)
    ensures |BasicShell.NormaliseLines(pieces)| == |StripLines(pieces)|
    ensures forall i :: 0 <= i < |StripLines(pieces)| ==>
      BasicShell.NormaliseLines(pieces)[i] == BasicShell.RemoveColors(StripLines(pieces)[i])
  {
    if pieces != [] {
      NormaliseIsCleanedStripLines(pieces[1..]);
    }
  }

  /** Without escape characters in the output, the older and the newer
      normalisation give the same lines. */
  lemma AgreesWithBasic(s: string)
    requires '\U{1B}' !in s && '\\' !in s
    ensures ConvertStd(BasicShell.Text(s)) == BasicShell.ConvertStd(BasicShell.Text(s))
  {
    var t := Strip(s);
    BasicShell.StripIsSlice(s);
    var pieces := Split(t, '\n');
    assert Join(['\n'], pieces) == t;
    forall j | 0 <= j < |pieces|
      ensures '\U{1B}' !in pieces[j] && '\\' !in pieces[j]
    {
      JoinPieceIn(pieces, j, '\n');
    }
    StripLinesAgree(pieces);
  }

  /** Every character of a piece occurs in the joined text. */
  lemma {:induction false} JoinPieceIn(parts: seq<string>, j: nat, c: char)
    requires j < |parts|
    ensures forall x :: x in parts[j] ==> x in Join([c], parts)
  {
    if |parts| > 1 {
      JoinCons([c], parts[0], parts[1..]);
      assert parts == [parts[0]] + parts[1..];
      if j > 0 {
        JoinPieceIn(parts[1..], j - 1, c);
      }
    }
  }

  /** `_oneline(lines)`: the lines joined with a comma and a space. */
  function Oneline(lines: seq<string>): string {
    Join(", ", lines)
  }

  /** Dropping the space after each comma and splitting on commas gives
      the lines back when no line contains a comma or a space. */
  lemma OnelineRoundTrip(lines: seq<string>)
    requires lines != []
    requires forall i :: 0 <= i < |lines| ==> ',' !in lines[i] && ' ' !in lines[i]
    ensures Split(RemoveSpaces(Oneline(lines)), ',') == lines
  {
    RemoveSpacesJoin(lines);
    SplitOfJoin(lines, ',');
  }

  /** Splitting the `", "` join at its commas gives the first line, then
      every later line with the space the join put before it, provided no
      line contains a comma; spaces inside the lines are kept. */
  lemma OnelineSplit(lines: seq<string>)
    requires lines != []
    requires forall i :: 0 <= i < |lines| ==> ',' !in lines[i]
    ensures var r := Split(Oneline(lines), ',');
      && |r| == |lines|
      && r[0] == lines[0]
      && forall i :: 0 < i < |lines| ==> r[i] == " " + lines[i]
  {
    var parts := [lines[0]] + SpaceLed(lines[1..]);
    JoinCommaSpace("", lines);
    assert "" + lines[0] == lines[0];
    assert "" + Join(", ", lines) == Join(", ", lines);
    assert Oneline(lines) == Join([','], parts);
    forall i | 0 <= i < |parts|
      ensures ',' !in parts[i]
    {
      if i > 0 {
        assert parts[i] == " " + lines[i];
      }
    }
    SplitOfJoin(parts, ',');
    assert Split(Oneline(lines), ',') == parts;
  }

  /** Each line with a space in front. */
  function SpaceLed(lines: seq<string>): seq<string> {
    seq(|lines|, i requires 0 <= i < |lines| => " " + lines[i])
  }

  lemma {:induction false} JoinCommaSpace(pre: string, lines: seq<string>)
    requires lines != []
    ensures pre + Join(", ", lines) == Join([','], [pre + lines[0]] + SpaceLed(lines[1..]))
    decreases |lines|
  {
    if |lines| == 1 {
      assert [pre + lines[0]] + SpaceLed(lines[1..]) == [pre + lines[0]];
    } else {
      var rest := lines[1..];
      JoinCons(", ", lines[0], rest);
      assert lines == [lines[0]] + rest;
      JoinCommaSpace(" ", rest);
      assert [" " + rest[0]] + SpaceLed(rest[1..]) == SpaceLed(rest);
      JoinCons([','], pre + lines[0], SpaceLed(rest));
      assert pre + (lines[0] + ", " + Join(", ", rest))
          == (pre + lines[0]) + [','] + (" " + Join(", ", rest));
    }
  }

  /** The text without its spaces. */
  function RemoveSpaces(s: string): string {
    if s == [] then [] else (if s[0] == ' ' then [] else [s[0]]) + RemoveSpaces(s[1..])
  }

  lemma {:induction false} RemoveSpacesAppend(a: string, b: string)
    ensures RemoveSpaces(a + b) == RemoveSpaces(a) + RemoveSpaces(b)
  {
    if a != [] {
      assert (a + b)[1..] == a[1..] + b;
      RemoveSpacesAppend(a[1..], b);
    } else {
      assert a + b == b;
    }
  }

  lemma {:induction false} RemoveSpacesNone(s: string)
    requires ' ' !in s
    ensures RemoveSpaces(s) == s
  {
    if s != [] {
      assert s == [s[0]] + s[1..];
      RemoveSpacesNone(s[1..]);
    }
  }

  lemma {:induction false} RemoveSpacesJoin(lines: seq<string>)
    requires lines != []
    requires forall i :: 0 <= i < |lines| ==> ' ' !in lines[i]
    ensures RemoveSpaces(Join(", ", lines)) == Join([','], lines)
  {
    RemoveSpacesNone(lines[0]);
    if |lines| > 1 {
      JoinCons(", ", lines[0], lines[1..]);
      JoinCons([','], lines[0], lines[1..]);
      RemoveSpacesAppend(lines[0] + ", ", Join(", ", lines[1..]));
      RemoveSpacesAppend(lines[0], ", ");
      assert RemoveSpaces(", ") == [','] by {
        assert ", "[1..] == " ";
        assert RemoveSpaces(" ") == [] by {
          assert " "[1..] == [];
        }
      }
      RemoveSpacesJoin(lines[1..]);
    }
  }

  /** The record `ShellResult(process)` builds. */
  datatype ShellResult = ShellResult(stdout: seq<string>, stderr: seq<string>, returncode: int, args: Args)

  /** `ShellResult(process)` with the conversion as written. */
  function FromProcessAsWritten(p: BasicShell.Process): (r: Result<ShellResult, Exception>)
    ensures r.Ok? <==> p.stdout.Text? && p.stderr.Text?
  {
    var out :- ConvertStdAsWritten(p.stdout);
    var err :- ConvertStdAsWritten(p.stderr);
    Ok(ShellResult(out, err, p.returncode, p.args))
  }

  /** `ShellResult(process)` with the intended conversion. */
  function FromProcess(p: BasicShell.Process): (r: Result<ShellResult, Exception>)
    ensures r.Ok? <==> !p.stdout.Pipe? && !p.stderr.Pipe?
    ensures r.Ok? ==> r.value.returncode == p.returncode && r.value.args == p.args
  {
    var out :- ConvertStd(p.stdout);
    var err :- ConvertStd(p.stderr);
    Ok(ShellResult(out, err, p.returncode, p.args))
  }

  /** `check or not capture_output`, with `None` falsy. */
  function EffectiveCheck(check: Option<bool>, captureOutput: bool): (c: bool)
    ensures !captureOutput ==> c
    ensures captureOutput ==> (c <==> check == Some(true))
  {
    check == Some(true) || !captureOutput
  }

  /** The streams `subprocess.run` leaves on its result: the captured text,
      or `None` without capture. */
  function Captured(captureOutput: bool, text: string): BasicShell.Stream {
    if captureOutput then BasicShell.Text(text) else BasicShell.NoStream
  }

  /** The error `subprocess.run(check=True)` raises on a non-zero exit. */
  function RunError(cmd: string, captureOutput: bool, out: string, err: string, returncode: int): Exception {
    CalledProcessError(returncode, CommandLine(cmd),
                       if captureOutput then Some(out) else None,
                       if captureOutput then Some(err) else None)
  }

  /** `run(cmd, check, capture_output)` as written, for a process that
      printed `out` and `err` and exited with `returncode`. */
  function RunAsWritten(cmd: string, check: Option<bool>, captureOutput: bool,
                        out: string, err: string, returncode: int): (r: Result<ShellResult, Exception>)
    ensures !captureOutput ==> r.Err?
    ensures !captureOutput && returncode == 0 ==> r == Err(AttributeError("strip"))
  {
    if EffectiveCheck(check, captureOutput) && returncode != 0 then
      Err(RunError(cmd, captureOutput, out, err, returncode))
    else
      FromProcessAsWritten(BasicShell.Process(Captured(captureOutput, out), Captured(captureOutput, err),
                                              returncode, CommandLine(cmd)))
  }

  /** `run` as intended: it raises exactly when the effective check is on
      and the exit code is not 0; uncaptured output gives no lines. */
  function Run(cmd: string, check: Option<bool>, captureOutput: bool,
               out: string, err: string, returncode: int): (r: Result<ShellResult, Exception>)
    ensures r.Err? <==> EffectiveCheck(check, captureOutput) && returncode != 0
    ensures r.Err? ==> r.error == RunError(cmd, captureOutput, out, err, returncode)
    ensures r.Ok? ==>
      && r.value.returncode == returncode
      && r.value.args == CommandLine(cmd)
      && (!captureOutput ==> r.value.stdout == [] && r.value.stderr == [])
      && (captureOutput ==>
            r.value.stdout == ConvertStd(BasicShell.Text(out)).value
            && r.value.stderr == ConvertStd(BasicShell.Text(err)).value)
  {
    if EffectiveCheck(check, captureOutput) && returncode != 0 then
      Err(RunError(cmd, captureOutput, out, err, returncode))
    else
      FromProcess(BasicShell.Process(Captured(captureOutput, out), Captured(captureOutput, err),
                                     returncode, CommandLine(cmd)))
  }

  /** With captured output the code as written and as intended agree. */
  lemma RunAgreesWhenCaptured(cmd: string, check: Option<bool>, out: string, err: string, returncode: int)
    ensures RunAsWritten(cmd, check, true, out, err, returncode) == Run(cmd, check, true, out, err, returncode)
  {
  }

  /** `run_progress` as written: on a non-zero exit `ShellResult(proc)`
      converts the pipe object and raises `AttributeError`. */
  method RunProgressAsWritten(cmd: string, total: Option<int>, prefixes: seq<string>,
                              lines: seq<string>, returncode: int)
    returns (bar: BasicShell.ProgressBar, r: Result<(), Exception>)
    ensures fresh(bar)
    ensures bar.n == BasicShell.ProgressCount(lines, prefixes) && bar.total == Some(bar.n)
    ensures r.Err? <==> returncode != 0
    ensures r.Err? ==> r.error == AttributeError("strip")
  {
    bar := new BasicShell.ProgressBar(total);
    BasicShell.CountLines(bar, lines, prefixes);
    r := Ok(());
    if returncode != 0 {
      var res := FromProcessAsWritten(BasicShell.Process(BasicShell.Pipe, BasicShell.NoStream, returncode, CommandLine(cmd)));
      r := Err(res.error);
    }
  }

  /** `run_progress` as intended: a non-zero exit raises
      `CalledProcessError`; the consumed output leaves no lines. */
  method RunProgress(cmd: string, total: Option<int>, prefixes: seq<string>,
                     lines: seq<string>, returncode: int)
    returns (bar: BasicShell.ProgressBar, r: Result<(), Exception>)
    ensures fresh(bar)
    ensures bar.n == BasicShell.ProgressCount(lines, prefixes) && bar.total == Some(bar.n)
    ensures r.Err? <==> returncode != 0
    ensures r.Err? ==> r.error == CalledProcessError(returncode, CommandLine(cmd), Some(""), Some(""))
  {
    bar := new BasicShell.ProgressBar(total);
    BasicShell.CountLines(bar, lines, prefixes);
    r := Ok(());
    if returncode != 0 {
      var res := FromProcess(BasicShell.Process(BasicShell.NoStream, BasicShell.NoStream, returncode, CommandLine(cmd)));
      r := Err(CalledProcessError(returncode, CommandLine(cmd), Some(Oneline(res.value.stdout)), Some(Oneline(res.value.stderr))));
    }
  }
}
