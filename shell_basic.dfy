/** The shell runner of `tools/basic/shell.py`: output normalisation
    (trimming, splitting and colour-code removal), the one-line views, the
    mutable `ShellResult`, and the line loops of `run` and `run_progress`
    over a given sequence of output lines and exit code. */
module BasicShell {
  import opened Wrappers
  import opened Strings
  import opened Exceptions

  /** What a process attribute `stdout`/`stderr` holds: `None`, decoded
      text, or the pipe object itself when output was streamed. */
  datatype Stream = NoStream | Text(text: string) | Pipe

  /** A finished process: its two streams, exit code and arguments. */
  datatype Process = Process(stdout: Stream, stderr: Stream, returncode: int, args: Args)

  /** Python truthiness of a stream value: `None` and `""` are false. */
  predicate Truthy(v: Stream) {
    match v
    case NoStream => false
    case Text(s) => s != ""
    case Pipe => true
  }

  // ---------------------------------------------------------------------
  // COLOR_FORMATTING = (?:\x1b|\\e)\[\d+(?:;\d+)?m

  /** Length of the introducer at the start of `s`: ESC, or a backslash
      followed by `e`; 0 when there is none. */
  function IntroLength(s: string): nat {
    if |s| >= 1 && s[0] == '\U{1B}' then 1
    else if |s| >= 2 && s[0] == '\\' && s[1] == 'e' then 2
    else 0
  }

  /** The number of leading decimal digits of `s`. */
  function DigitRun(s: string): (r: nat)
    ensures r <= |s|
    ensures forall i :: 0 <= i < r ==> IsDigit(s[i])
    ensures r == |s| || !IsDigit(s[r])
  {
    if s != [] && IsDigit(s[0]) then 1 + DigitRun(s[1..]) else 0
  }

  /** The length of `\[\d+(?:;\d+)?m` matched at the start of `u`, or 0. */
  function BodyLength(u: string): (n: nat)
    ensures n <= |u|
  {
    if u == [] || u[0] != '[' then 0
    else
      var d1 := DigitRun(u[1..]);
      var j := 1 + d1;
      if d1 == 0 || j >= |u| then 0
      else if u[j] == 'm' then j + 1
      else if u[j] != ';' then 0
      else
        var d2 := DigitRun(u[j + 1..]);
        var e := j + 1 + d2;
        if d2 == 0 || e >= |u| || u[e] != 'm' then 0 else e + 1
  }

  /** The length of the colour sequence the pattern matches at the start of
      `s`, or 0 when it does not match there. */
  function CodeLength(s: string): (n: nat)
    ensures n <= |s|
  {
    var k := IntroLength(s);
    if k == 0 then 0
    else
      var b := BodyLength(s[k..]);
      if b == 0 then 0 else k + b
  }

  predicate AllDigits(d: string) {
    d != [] && forall i :: 0 <= i < |d| ==> IsDigit(d[i])
  }

  /** The parameter part between `[` and `m`: digits, or digits, one
      semicolon and digits. */
  predicate IsParams(p: string) {
    || AllDigits(p)
    || (';' in p && AllDigits(p[..IndexOf(p, ';')]) && AllDigits(p[IndexOf(p, ';') + 1..]))
  }

  /** `[`, the parameters, `m` */
  predicate IsBody(b: string) {
    |b| >= 3 && b[0] == '[' && b[|b| - 1] == 'm' && IsParams(b[1..|b| - 1])
  }

  /** The strings the pattern describes, stated without the scanner. */
  predicate IsColorCode(t: string) {
    || (|t| >= 1 && t[0] == '\U{1B}' && IsBody(t[1..]))
    || (|t| >= 2 && t[0] == '\\' && t[1] == 'e' && IsBody(t[2..]))
  }

  /** A digit run is determined by where the digits stop. */
  lemma DigitRunIs(s: string, m: nat)
    requires m <= |s| && (forall i :: 0 <= i < m ==> IsDigit(s[i]))
    requires m == |s| || !IsDigit(s[m])
    ensures DigitRun(s) == m
  {
  }

  lemma BodyLengthSound(u: string)
    requires BodyLength(u) > 0
    ensures IsBody(u[..BodyLength(u)])
  {
    var n := BodyLength(u);
    var d1 := DigitRun(u[1..]);
    var p := u[..n][1..n - 1];
    assert p == u[1..n - 1];
    if u[1 + d1] == ';' {
      var d2 := DigitRun(u[2 + d1..]);
      assert p[d1] == ';';
      assert p[..d1] == u[1..][..d1];
      assert ';' !in p[..d1];
      assert IndexOf(p, ';') == d1;
      assert p[d1 + 1..] == u[2 + d1..][..d2];
    } else {
      assert p == u[1..][..d1];
    }
  }

  lemma BodyLengthComplete(u: string, n: nat)
    requires 0 < n <= |u| && IsBody(u[..n])
    ensures BodyLength(u) == n
  {
    var p := u[..n][1..n - 1];
    assert p == u[1..n - 1];
    var w := u[1..];
    assert w[..n - 2] == p;
    assert w[n - 2] == 'm';
    if AllDigits(p) {
      DigitRunIs(w, n - 2);
    } else {
      var i := IndexOf(p, ';');
      assert w[..i] == p[..i];
      DigitRunIs(w, i);
      assert u[1 + i] == ';';
      var q := p[i + 1..];
      var v := u[2 + i..];
      assert v[..|q|] == q;
      assert v[|q|] == 'm';
      DigitRunIs(v, |q|);
    }
  }

  /** Whatever the scanner matches is a colour code. */
  lemma CodeLengthSound(s: string)
    requires CodeLength(s) > 0
    ensures IsColorCode(s[..CodeLength(s)])
  {
    var k := IntroLength(s);
    BodyLengthSound(s[k..]);
    assert s[..CodeLength(s)][k..] == s[k..][..BodyLength(s[k..])];
  }

  /** The scanner matches every colour code at the start of `s`, and takes
      all of it. */
  lemma CodeLengthComplete(s: string, n: nat)
    requires 0 < n <= |s| && IsColorCode(s[..n])
    ensures CodeLength(s) == n
  {
    var k := if s[0] == '\U{1B}' then 1 else 2;
    assert IntroLength(s) == k;
    assert s[..n][k..] == s[k..][..n - k];
    BodyLengthComplete(s[k..], n - k);
  }

  /** `COLOR_FORMATTING.sub("", s)`: scans from the left and drops each
      non-overlapping match. `RemoveColorsDropsCode` and
      `RemoveColorsKeepsOut` state what it removes and what it keeps. */
  function RemoveColors(s: string): (r: string)
    ensures |r| <= |s|
    decreases |s|
  {
    if s == [] then []
    else
      var n := CodeLength(s);
      if n > 0 then RemoveColors(s[n..])
      else [s[0]] + RemoveColors(s[1..])
  }

  /** Text with neither ESC nor backslash is left as it is. */
  lemma {:induction false} RemoveColorsPlain(s: string)
    requires '\U{1B}' !in s && '\\' !in s
    ensures RemoveColors(s) == s
  {
    if s != [] {
      assert CodeLength(s) == 0;
      assert s == [s[0]] + s[1..];
      RemoveColorsPlain(s[1..]);
    }
  }

  /** Removing colour codes introduces no character. */
  lemma {:induction false} RemoveColorsKeepsOut(s: string, c: char)
    requires c !in s
    ensures c !in RemoveColors(s)
    decreases |s|
  {
    if s != [] {
      var n := CodeLength(s);
      if n > 0 {
        assert c !in s[n..];
        RemoveColorsKeepsOut(s[n..], c);
      } else {
        assert c !in s[1..];
        RemoveColorsKeepsOut(s[1..], c);
      }
    }
  }

  /** A colour code in front is dropped. */
  lemma RemoveColorsDropsCode(code: string, rest: string)
    requires IsColorCode(code)
    ensures RemoveColors(code + rest) == RemoveColors(rest)
  {
    var s := code + rest;
    assert s[..|code|] == code;
    CodeLengthComplete(s, |code|);
    assert s[|code|..] == rest;
  }

  /** One pass is not enough: removing the inner code of
      ESC `[` ESC `[1m1m` (any digit for `1`) leaves the code ESC `[1m`. */
  lemma RemoveColorsNotIdempotent(d: char)
    requires IsDigit(d)
    ensures RemoveColors(['\U{1B}', '[', '\U{1B}', '[', d, 'm', d, 'm']) == ['\U{1B}', '[', d, 'm']
    ensures IsColorCode(['\U{1B}', '[', d, 'm'])
  {
    var inner := ['\U{1B}', '[', d, 'm'];
    OneDigitCode(d);
    RemoveColorsPlain([d, 'm']);
    assert inner + [d, 'm'] == ['\U{1B}', '[', d, 'm', d, 'm'];
    RemoveColorsDropsCode(inner, [d, 'm']);
    OuterKept(d);
  }

  lemma OneDigitCode(d: char)
    requires IsDigit(d)
    ensures IsColorCode(['\U{1B}', '[', d, 'm'])
  {
    var p := ['\U{1B}', '[', d, 'm'][1..][1..2];
    assert |p| == 1 && p[0] == d;
  }

  lemma OuterKept(d: char)
    ensures RemoveColors(['\U{1B}', '[', '\U{1B}', '[', d, 'm', d, 'm'])
         == ['\U{1B}', '['] + RemoveColors(['\U{1B}', '[', d, 'm', d, 'm'])
  {
    var s := ['\U{1B}', '[', '\U{1B}', '[', d, 'm', d, 'm'];
    KeepsUnmatchedIntro(s);
    assert s[..2] == ['\U{1B}', '['];
    assert s[2..] == ['\U{1B}', '[', d, 'm', d, 'm'];
  }

  /** ESC `[` followed by a non-digit is kept as it is. */
  lemma KeepsUnmatchedIntro(s: string)
    requires |s| >= 3 && s[0] == '\U{1B}' && s[1] == '[' && !IsDigit(s[2])
    ensures RemoveColors(s) == s[..2] + RemoveColors(s[2..])
  {
    NoCodeAt(s);
    KeptFirst(s);
    var t := s[1..];
    assert IntroLength(t) == 0;
    KeptFirst(t);
    assert t[1..] == s[2..];
    var rest := RemoveColors(s[2..]);
    assert RemoveColors(s) == [s[0]] + ([t[0]] + rest);
    assert [s[0]] + ([t[0]] + rest) == [s[0], s[1]] + rest;
    assert s[..2] == [s[0], s[1]];
  }

  /** Where no colour code starts, the first character is kept. */
  lemma KeptFirst(s: string)
    requires s != [] && CodeLength(s) == 0
    ensures RemoveColors(s) == [s[0]] + RemoveColors(s[1..])
  {
  }

  /** ESC `[` followed by a non-digit starts no colour code. */
  lemma NoCodeAt(s: string)
    requires |s| >= 3 && s[0] == '\U{1B}' && s[1] == '[' && !IsDigit(s[2])
    ensures CodeLength(s) == 0
  {
    assert s[1..][1..][0] == s[2];
    assert DigitRun(s[1..][1..]) == 0;
  }

  // ---------------------------------------------------------------------
  // _convert_std and _oneline

  /** The list comprehension of `_convert_std`: every piece that is not
      exactly empty, stripped and with its colour codes removed, in order. */
  function NormaliseLines(pieces: seq<string>): (r: seq<string>)
    ensures |r| <= |pieces|
  {
    if pieces == [] then []
    else Kept(pieces[0]) + NormaliseLines(pieces[1..])
  }

  /** What one piece contributes: nothing when it is exactly empty, else
      the stripped piece without colour codes. */
  function Kept(p: string): (r: seq<string>)
    ensures |r| <= 1
  {
    if p == "" then [] else [RemoveColors(Strip(p))]
  }

  /** The comprehension works piece by piece and keeps the order. */
  lemma {:induction false} NormaliseLinesAppend(a: seq<string>, b: seq<string>)
    ensures NormaliseLines(a + b) == NormaliseLines(a) + NormaliseLines(b)
  {
    if a != [] {
      assert (a + b)[1..] == a[1..] + b;
      assert (a + b)[0] == a[0];
      NormaliseLinesAppend(a[1..], b);
      assert NormaliseLines(a + b) == Kept(a[0]) + NormaliseLines(a[1..] + b);
    } else {
      assert a + b == b;
    }
  }

  /** Only exactly empty pieces are dropped: a piece of white space
      survives as an empty line. */
  lemma NormaliseLinesSingle(p: string)
    ensures p == "" ==> NormaliseLines([p]) == []
    ensures (p != "" && forall i :: 0 <= i < |p| ==> IsSpace(p[i])) ==> NormaliseLines([p]) == [""]
  {
    if p != "" && forall i :: 0 <= i < |p| ==> IsSpace(p[i]) {
      LStripAllSpace(p);
    }
  }

  lemma {:induction false} LStripAllSpace(s: string)
    requires forall i :: 0 <= i < |s| ==> IsSpace(s[i])
    ensures Strip(s) == []
    ensures LStripBy(s, IsSpace) == []
  {
    if s != [] {
      LStripAllSpace(s[1..]);
    }
  }

  /** A kept piece without ESC or backslash is only stripped. */
  lemma NormaliseLinesPlain(p: string)
    requires p != "" && '\U{1B}' !in p && '\\' !in p
    ensures NormaliseLines([p]) == [Strip(p)]
  {
    var t := Strip(p);
    assert '\U{1B}' !in t && '\\' !in t by {
      StripIsSlice(p);
    }
    RemoveColorsPlain(t);
  }

  /** `Strip` keeps a contiguous piece of its input. */
  lemma StripIsSlice(s: string)
    ensures forall i :: 0 <= i < |Strip(s)| ==> Strip(s)[i] in s
  {
    var l := LStripBy(s, IsSpace);
    LStripByShape(s, IsSpace);
    RStripByShape(l, IsSpace);
    assert forall i :: 0 <= i < |l| ==> l[i] in s;
  }

  /** No line of the result contains a newline when no piece does. */
  lemma {:induction false} NormaliseLinesNoNewline(pieces: seq<string>)
    requires forall j :: 0 <= j < |pieces| ==> '\n' !in pieces[j]
    ensures forall i :: 0 <= i < |NormaliseLines(pieces)| ==> '\n' !in NormaliseLines(pieces)[i]
  {
    if pieces != [] {
      StripIsSlice(pieces[0]);
      RemoveColorsKeepsOut(Strip(pieces[0]), '\n');
      NormaliseLinesNoNewline(pieces[1..]);
    }
  }

  /** `_convert_std(value)`: `None` gives no lines; text is trimmed, split
      on newlines and each piece normalised; the pipe object has no `strip`
      and raises. `NormaliseLinesPlain` states what happens to a piece
      without escapes. */
  function ConvertStd(value: Stream): (r: Result<seq<string>, Exception>)
    ensures value.NoStream? ==> r == Ok([])
    ensures value.Pipe? ==> r == Err(AttributeError("strip"))
    ensures value.Text? ==> r.Ok? && |r.value| <= Occurrences(Strip(value.text), '\n') + 1
    ensures value.Text? ==> forall i :: 0 <= i < |r.value| ==> '\n' !in r.value[i]
  {
    match value
    case NoStream => Ok([])
    case Pipe => Err(AttributeError("strip"))
    case Text(s) =>
      var pieces := Split(Strip(s), '\n');
      OccurrencesOfSplit(Strip(s), '\n');
      NormaliseLinesNoNewline(pieces);
      Ok(NormaliseLines(pieces))
  }

  /** `_oneline(lines)`: the lines joined with one space. */
  function Oneline(lines: seq<string>): string {
    Join(" ", lines)
  }

  /** Splitting the one-line view on spaces gives the lines back when no
      line contains a space. */
  lemma OnelineRoundTrip(lines: seq<string>)
    requires lines != []
    requires forall i :: 0 <= i < |lines| ==> ' ' !in lines[i]
    ensures Split(Oneline(lines), ' ') == lines
  {
    SplitOfJoin(lines, ' ');
  }

  /** The setter guard `_convert_std(value) if value else []`. */
  function Assigned(value: Stream): Result<seq<string>, Exception> {
    if Truthy(value) then ConvertStd(value) else Ok([])
  }

  /** The guard changes nothing: every falsy value already converts to no
      lines. */
  lemma AssignedIsConvertStd(value: Stream)
    ensures Assigned(value) == ConvertStd(value)
  {
    if value == Text("") {
      assert Strip("") == "";
      assert Split("", '\n') == [""];
    }
  }

  // ---------------------------------------------------------------------
  // ShellResult

  class ShellResult {
    var stdout: seq<string>
    var stderr: seq<string>
    var returncode: int
    var args: Args

    /** `ShellResult()`: no lines, exit code 0, empty arguments. */
    constructor ()
      ensures stdout == [] && stderr == [] && returncode == 0 && args == ArgList([])
    {
      stdout := [];
      stderr := [];
      returncode := 0;
      args := ArgList([]);
    }

    /** `res.stdout = value`; on an error the old lines stay. */
    method SetStdout(value: Stream) returns (r: Result<(), Exception>)
      modifies this
      ensures Assigned(value).Ok? ==> r == Ok(()) && stdout == Assigned(value).value
      ensures Assigned(value).Err? ==> r == Err(Assigned(value).error) && stdout == old(stdout)
      ensures stderr == old(stderr) && returncode == old(returncode) && args == old(args)
    {
      var a := Assigned(value);
      if a.Ok? {
        stdout := a.value;
        r := Ok(());
      } else {
        r := Err(a.error);
      }
    }

    /** `res.stderr = value`; on an error the old lines stay. */
    method SetStderr(value: Stream) returns (r: Result<(), Exception>)
      modifies this
      ensures Assigned(value).Ok? ==> r == Ok(()) && stderr == Assigned(value).value
      ensures Assigned(value).Err? ==> r == Err(Assigned(value).error) && stderr == old(stderr)
      ensures stdout == old(stdout) && returncode == old(returncode) && args == old(args)
    {
      var a := Assigned(value);
      if a.Ok? {
        stderr := a.value;
        r := Ok(());
      } else {
        r := Err(a.error);
      }
    }

    /** `res.stdout.append(line)` */
    method AppendStdout(line: string)
      modifies this
      ensures stdout == old(stdout) + [line]
      ensures stderr == old(stderr) && returncode == old(returncode) && args == old(args)
    {
      stdout := stdout + [line];
    }

    function StdoutOneline(): string
      reads this
    {
      Oneline(stdout)
    }

    function StderrOneline(): string
      reads this
    {
      Oneline(stderr)
    }
  }

  /** `ShellResult(process)`: both streams go through the setters (stdout
      first), then exit code and arguments are copied. */
  method FromProcess(p: Process) returns (r: Result<ShellResult, Exception>)
    ensures Assigned(p.stdout).Err? ==> r == Err(Assigned(p.stdout).error)
    ensures Assigned(p.stdout).Ok? && Assigned(p.stderr).Err? ==> r == Err(Assigned(p.stderr).error)
    ensures Assigned(p.stdout).Ok? && Assigned(p.stderr).Ok? ==>
      && r.Ok? && fresh(r.value)
      && r.value.stdout == Assigned(p.stdout).value
      && r.value.stderr == Assigned(p.stderr).value
      && r.value.returncode == p.returncode
      && r.value.args == p.args
  {
    var res := new ShellResult();
    var o := res.SetStdout(p.stdout);
    if o.Err? {
      return Err(o.error);
    }
    var e := res.SetStderr(p.stderr);
    if e.Err? {
      return Err(e.error);
    }
    res.returncode := p.returncode;
    res.args := p.args;
    r := Ok(res);
  }

  // ---------------------------------------------------------------------
  // run

  /** Every streamed line passed through `clean`, in order. */
  function CleanAll(clean: string -> string, lines: seq<string>): (r: seq<string>)
    ensures |r| == |lines|
    ensures forall i :: 0 <= i < |lines| ==> r[i] == clean(lines[i])
  {
    if lines == [] then [] else CleanAll(clean, lines[..|lines| - 1]) + [clean(lines[|lines| - 1])]
  }

  /** `run(cmd, check)` with stderr merged into stdout: the process printed
      `lines` and exited with `returncode`; `clean` is `helper.clean_string`.
      The result holds one cleaned line per printed line and no stderr; it
      raises exactly when `check` is set and the exit code is not 0. */
  method Run(cmd: string, check: bool, clean: string -> string, lines: seq<string>, returncode: int)
    returns (r: Result<ShellResult, Exception>)
    ensures r.Err? <==> check && returncode != 0
    ensures r.Err? ==> r.error == CalledProcessError(returncode, CommandLine(cmd),
                                                     Some(Oneline(CleanAll(clean, lines))), Some(""))
    ensures r.Ok? ==>
      && fresh(r.value)
      && r.value.stdout == CleanAll(clean, lines)
      && r.value.stderr == []
      && r.value.returncode == returncode
      && r.value.args == CommandLine(cmd)
  {
    var res := new ShellResult();
    var i := 0;
    while i < |lines|
      invariant 0 <= i <= |lines|
      invariant res.stdout == CleanAll(clean, lines[..i])
      invariant res.stderr == []
    {
      assert lines[..i + 1][..i] == lines[..i];
      res.AppendStdout(clean(lines[i]));
      i := i + 1;
    }
    assert lines[..i] == lines;
    // stderr was merged into stdout, so the process has no stderr stream
    var _ := res.SetStderr(NoStream);
    res.args := CommandLine(cmd);
    res.returncode := returncode;
    if check && res.returncode != 0 {
      return Err(CalledProcessError(res.returncode, res.args, Some(res.StdoutOneline()), Some(res.StderrOneline())));
    }
    r := Ok(res);
  }

  // ---------------------------------------------------------------------
  // run_progress

  /** The progress bar's counter and total. */
  class ProgressBar {
    var n: nat
    var total: Option<int>

    constructor (total: Option<int>)
      ensures n == 0 && this.total == total
    {
      n := 0;
      this.total := total;
    }

    /** `bar.update(1)` */
    method Update()
      modifies this
      ensures n == old(n) + 1 && total == old(total)
    {
      n := n + 1;
    }

    /** `if bar.total is None or bar.n != bar.total: bar.total = bar.n` */
    method Normalise()
      modifies this
      ensures n == old(n) && total == Some(n)
    {
      if total.None? || n != total.value {
        total := Some(n);
      }
    }
  }

  /** A line counts when its right-stripped text starts with some prefix. */
  predicate Counts(line: string, prefixes: seq<string>) {
    exists j :: 0 <= j < |prefixes| && StartsWith(RStrip(line), prefixes[j])
  }

  /** The number of counted lines; each line adds at most one. */
  function ProgressCount(lines: seq<string>, prefixes: seq<string>): nat {
    if lines == [] then 0
    else ProgressCount(lines[..|lines| - 1], prefixes) + (if Counts(lines[|lines| - 1], prefixes) then 1 else 0)
  }

  /** The inner loop: try the prefixes in order and stop at the first that
      matches. */
  method LineCounts(line: string, prefixes: seq<string>) returns (b: bool)
    ensures b <==> Counts(line, prefixes)
  {
    var l := RStrip(line);
    for j := 0 to |prefixes|
      invariant forall k :: 0 <= k < j ==> !StartsWith(l, prefixes[k])
    {
      if StartsWith(l, prefixes[j]) {
        return true;
      }
    }
    return false;
  }

  /** The outer loop: one `bar.update(1)` per counted line, then the total
      is forced to the count. */
  method CountLines(bar: ProgressBar, lines: seq<string>, prefixes: seq<string>)
    modifies bar
    ensures bar.n == old(bar.n) + ProgressCount(lines, prefixes)
    ensures bar.total == Some(bar.n)
  {
    var i := 0;
    while i < |lines|
      invariant 0 <= i <= |lines|
      invariant bar.n == old(bar.n) + ProgressCount(lines[..i], prefixes)
    {
      assert lines[..i + 1][..i] == lines[..i];
      var c := LineCounts(lines[i], prefixes);
      if c {
        bar.Update();
      }
      i := i + 1;
    }
    assert lines[..i] == lines;
    bar.Normalise();
  }

  /** `run_progress` as written: on a non-zero exit it builds
      `ShellResult(proc)` while `proc.stdout` is still the pipe object, so
      the setter raises `AttributeError` instead of the intended
      `CalledProcessError`. */
  method RunProgressAsWritten(cmd: string, total: Option<int>, prefixes: seq<string>,
                              lines: seq<string>, returncode: int)
    returns (bar: ProgressBar, r: Result<(), Exception>)
    ensures fresh(bar)
    ensures bar.n == ProgressCount(lines, prefixes) && bar.total == Some(bar.n)
    ensures r.Err? <==> returncode != 0
    ensures r.Err? ==> r.error == AttributeError("strip")
  {
    bar := new ProgressBar(total);
    CountLines(bar, lines, prefixes);
    r := Ok(());
    if returncode != 0 {
      var res := FromProcess(Process(Pipe, NoStream, returncode, CommandLine(cmd)));
      r := Err(res.error);
    }
  }

  /** `run_progress` as intended: the output stream is already consumed,
      so the result has no lines and a non-zero exit raises
      `CalledProcessError`. */
  method RunProgress(cmd: string, total: Option<int>, prefixes: seq<string>,
                     lines: seq<string>, returncode: int)
    returns (bar: ProgressBar, r: Result<(), Exception>)
    ensures fresh(bar)
    ensures bar.n == ProgressCount(lines, prefixes) && bar.total == Some(bar.n)
    ensures r.Err? <==> returncode != 0
    ensures r.Err? ==> r.error == CalledProcessError(returncode, CommandLine(cmd), Some(""), Some(""))
  {
    bar := new ProgressBar(total);
    CountLines(bar, lines, prefixes);
    r := Ok(());
    if returncode != 0 {
      var res := FromProcess(Process(NoStream, NoStream, returncode, CommandLine(cmd)));
      r := Err(CalledProcessError(returncode, CommandLine(cmd), Some(res.value.StdoutOneline()), Some(res.value.StderrOneline())));
    }
  }

  // ---------------------------------------------------------------------
  // properties of the count

  lemma {:induction false} ProgressCountBound(lines: seq<string>, prefixes: seq<string>)
    ensures ProgressCount(lines, prefixes) <= |lines|
    ensures prefixes == [] ==> ProgressCount(lines, prefixes) == 0
  {
    if lines != [] {
      ProgressCountBound(lines[..|lines| - 1], prefixes);
    }
  }

  /** The empty prefix matches every line. */
  lemma {:induction false} ProgressCountEmptyPrefix(lines: seq<string>, prefixes: seq<string>)
    requires "" in prefixes
    ensures ProgressCount(lines, prefixes) == |lines|
  {
    if lines != [] {
      var j :| 0 <= j < |prefixes| && prefixes[j] == "";
      assert StartsWith(RStrip(lines[|lines| - 1]), prefixes[j]);
      ProgressCountEmptyPrefix(lines[..|lines| - 1], prefixes);
    }
  }

  /** Counts add up over consecutive output. */
  lemma {:induction false} ProgressCountAppend(a: seq<string>, b: seq<string>, prefixes: seq<string>)
    ensures ProgressCount(a + b, prefixes) == ProgressCount(a, prefixes) + ProgressCount(b, prefixes)
  {
    if b == [] {
      assert a + b == a;
    } else {
      assert (a + b)[..|a + b| - 1] == a + b[..|b| - 1];
      ProgressCountAppend(a, b[..|b| - 1], prefixes);
    }
  }

  /** A line that several prefixes match is still counted once: listing
      every prefix twice changes nothing, and more prefixes never count
      less. */
  lemma {:induction false} ProgressCountPrefixes(lines: seq<string>, ps: seq<string>, qs: seq<string>)
    ensures ProgressCount(lines, ps + ps) == ProgressCount(lines, ps)
    ensures ProgressCount(lines, ps) <= ProgressCount(lines, ps + qs)
  {
    if lines != [] {
      var l := lines[|lines| - 1];
      if Counts(l, ps) {
        var j :| 0 <= j < |ps| && StartsWith(RStrip(l), ps[j]);
        assert (ps + ps)[j] == ps[j] && (ps + qs)[j] == ps[j];
      }
      if Counts(l, ps + ps) {
        var j :| 0 <= j < |ps + ps| && StartsWith(RStrip(l), (ps + ps)[j]);
        if j >= |ps| {
          assert (ps + ps)[j] == ps[j - |ps|];
        }
      }
      ProgressCountPrefixes(lines[..|lines| - 1], ps, qs);
    }
  }
}
