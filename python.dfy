/** `tools/basic/python.py`: the install command for Python tools (uv
    first, then pipx) and the latest released version of a Python project,
    read from its `pyproject.toml` or from the file that a setuptools
    dynamic `attr` names. HTTP responses and the parsed TOML are inputs. */
module PythonTools {
  import opened Wrappers
  import opened Strings
  import opened Exceptions
  import opened Versions
  import BasicShell

  /** The command installing `pkg`, by the managers found on the system. */
  function InstallCommand(uvAvailable: bool, pipxAvailable: bool, asGlobal: bool, pkg: string): Result<string, Exception> {
    if uvAvailable then Ok("uv tool install --force " + pkg)
    else if pipxAvailable then
      if asGlobal then Ok("sudo pipx install -f --global " + pkg) else Ok("pipx install -f " + pkg)
    else Err(Failure("No Python manager installed"))
  }

  /** uv ignores `as_global`; only pipx distinguishes a global install;
      with neither manager there is no command. */
  lemma InstallCommandChoice(uvAvailable: bool, pipxAvailable: bool, pkg: string)
    ensures InstallCommand(uvAvailable, pipxAvailable, true, pkg).Err? <==> !uvAvailable && !pipxAvailable
    ensures InstallCommand(uvAvailable, pipxAvailable, true, pkg) != InstallCommand(uvAvailable, pipxAvailable, false, pkg)
            <==> !uvAvailable && pipxAvailable
  {
    if !uvAvailable && pipxAvailable {
      assert InstallCommand(false, true, true, pkg).value[0] == 's';
      assert InstallCommand(false, true, false, pkg).value[0] == 'p';
    }
  }

  /** `install(pkg_name, as_global)`: the command runs through the shell
      runner (stderr merged, exit code unchecked there), and a non-zero
      exit raises `CalledProcessError` with the joined output. */
  method Install(pkg: string, asGlobal: bool, uvAvailable: bool, pipxAvailable: bool,
                 clean: string -> string, lines: seq<string>, returncode: int)
    returns (r: Result<(), Exception>)
    ensures InstallCommand(uvAvailable, pipxAvailable, asGlobal, pkg).Err? ==>
      r == Err(Failure("No Python manager installed"))
    ensures InstallCommand(uvAvailable, pipxAvailable, asGlobal, pkg).Ok? ==>
      var cmd := InstallCommand(uvAvailable, pipxAvailable, asGlobal, pkg).value;
      && (r.Ok? <==> returncode == 0)
      && (r.Err? ==> r.error == CalledProcessError(returncode, CommandLine(cmd),
                                                   Some(BasicShell.Oneline(BasicShell.CleanAll(clean, lines))), Some("")))
  {
    var cmd :- InstallCommand(uvAvailable, pipxAvailable, asGlobal, pkg);
    var res := BasicShell.Run(cmd, false, clean, lines, returncode);
    var shell := res.value;
    if shell.returncode != 0 {
      return Err(CalledProcessError(shell.returncode, shell.args, Some(shell.StdoutOneline()), Some(shell.StderrOneline())));
    }
    r := Ok(());
  }

  // ---------------------------------------------------------------------
  // latest_version_number

  /** `url.removeprefix("git+").removesuffix(".git") + "/raw/main/"` */
  function RawBaseUrl(url: string): string {
    RemoveSuffix(RemovePrefix(url, "git+"), ".git") + "/raw/main/"
  }

  /** One `git+` prefix and one `.git` suffix are removed, and nothing
      else. */
  lemma RawBaseUrlOf(base: string)
    requires !StartsWith(base, "git+") && !EndsWith(base, ".git")
    ensures RawBaseUrl("git+" + base + ".git") == base + "/raw/main/"
    ensures RawBaseUrl("git+" + base) == base + "/raw/main/"
    ensures RawBaseUrl(base + ".git") == base + "/raw/main/"
    ensures RawBaseUrl(base) == base + "/raw/main/"
  {
    var s := "git+" + base + ".git";
    assert StartsWith(s, "git+");
    assert s[4..] == base + ".git";
    assert StartsWith("git+" + base, "git+");
    assert ("git+" + base)[4..] == base;
    var t := base + ".git";
    assert EndsWith(t, ".git");
    assert t[..|t| - 4] == base;
    if |base| >= 4 {
      assert t[..4] == base[..4];
    } else {
      assert t[..4][|base|] == '.';
    }
  }

  /** The parts of `pyproject.toml` that are consulted: `project.version`,
      `tool.poetry.version`, `project.dynamic`, and the table
      `tool.setuptools.dynamic.version`. */
  datatype Pyproject = Pyproject(projectVersion: Option<string>, poetryVersion: Option<string>,
                                 dynamic: seq<string>, versionLoc: Option<map<string, string>>)

  /** `file, attr = attr.rsplit(".", 1)`: the source file (under `src/`)
      and the attribute name; an attr without a dot cannot be unpacked. */
  function AttrLocation(attr: string): (r: Result<(string, string), Exception>)
    ensures r.Err? <==> '.' !in attr
    ensures r.Ok? ==> '.' !in r.value.1 && StartsWith(r.value.0, "src/") && EndsWith(r.value.0, ".py")
  {
    if '.' !in attr then Err(ValueError("not enough values to unpack"))
    else
      var i := LastIndexOf(attr, '.');
      var file := "src/" + ReplaceChar(attr[..i], '.', '/') + ".py";
      assert EndsWith(file, ".py") by { assert file[|file| - 3..] == ".py"; }
      Ok((file, attr[i + 1..]))
  }

  /** `a.b.c` names attribute `c` of file `src/a/b.py`. */
  lemma AttrLocationOf(modulePath: string, name: string)
    requires '.' !in name
    ensures AttrLocation(modulePath + "." + name) == Ok(("src/" + ReplaceChar(modulePath, '.', '/') + ".py", name))
  {
    var s := modulePath + "." + name;
    assert s[|modulePath|] == '.';
    assert forall k :: |modulePath| < k < |s| ==> s[k] == name[k - |modulePath| - 1];
    var i := LastIndexOf(s, '.');
    assert s[..i] == modulePath && s[i + 1..] == name;
  }

  /** `.strip().strip("'")` */
  function Trim(s: string): string {
    StripChar(Strip(s), '\'')
  }

  /** A line of the attribute file that defines an attribute. */
  function AttrLine(line: string): (r: Option<(string, string)>)
    ensures r.Some? <==> Occurrences(line, '=') == 1
  {
    OccurrencesOfSplit(line, '=');
    if '=' in line && |Split(line, '=')| == 2 then
      var parts := Split(line, '=');
      Some((Trim(parts[0]), Trim(parts[1])))
    else None
  }

  /** `key=value` with no further `=` defines the trimmed key. */
  lemma AttrLineOf(key: string, value: string)
    requires '=' !in key && '=' !in value
    ensures AttrLine(key + "=" + value) == Some((Trim(key), Trim(value)))
  {
    SplitOfJoin([key, value], '=');
    assert Join("=", [key, value]) == key + "=" + value by {
      JoinCons("=", key, [value]);
    }
  }

  /** The dictionary comprehension over the lines, in order. */
  function Attrs(lines: seq<string>): map<string, string>
    decreases |lines|
  {
    if lines == [] then map[]
    else
      var m := Attrs(lines[..|lines| - 1]);
      match AttrLine(lines[|lines| - 1])
      case None => m
      case Some(kv) => m[kv.0 := kv.1]
  }

  /** The last line defining a key gives its value. */
  lemma {:induction false} AttrsLastWins(lines: seq<string>, i: nat, key: string, value: string)
    requires i < |lines| && AttrLine(lines[i]) == Some((key, value))
    requires forall j :: i < j < |lines| && AttrLine(lines[j]).Some? ==> AttrLine(lines[j]).value.0 != key
    ensures key in Attrs(lines) && Attrs(lines)[key] == value
    decreases |lines|
  {
    var init := lines[..|lines| - 1];
    if i < |lines| - 1 {
      assert forall j :: i < j < |init| ==> init[j] == lines[j];
      AttrsLastWins(init, i, key, value);
    }
  }

  /** Keys come only from lines with exactly one `=`: the returned index
      is such a line. */
  lemma {:induction false} AttrsKeys(lines: seq<string>, key: string) returns (j: nat)
    requires key in Attrs(lines)
    ensures j < |lines| && Occurrences(lines[j], '=') == 1 && AttrLine(lines[j]).value.0 == key
    decreases |lines|
  {
    var init := lines[..|lines| - 1];
    var last := AttrLine(lines[|lines| - 1]);
    if last.Some? && last.value.0 == key {
      j := |lines| - 1;
    } else {
      j := AttrsKeys(init, key);
      assert init[j] == lines[j];
    }
  }

  // The version regex `(?:Version\()?['"]?([\d\.]+)['"]?\)?`, matched at
  // the start. Only the captured group matters; the optional tail always
  // matches.

  predicate IsVersionChar(c: char) {
    IsDigit(c) || c == '.'
  }

  /** The longest prefix of digits and dots. */
  function VersionRun(s: string): (n: nat)
    ensures n <= |s|
    ensures forall i :: 0 <= i < n ==> IsVersionChar(s[i])
    ensures n < |s| ==> !IsVersionChar(s[n])
  {
    if s != [] && IsVersionChar(s[0]) then 1 + VersionRun(s[1..]) else 0
  }

  /** The group when matching starts at `t`: an optional quote, then the
      run of digits and dots. */
  function GroupAt(t: string): Option<string> {
    var q := if t != [] && (t[0] == '\'' || t[0] == '"') then 1 else 0;
    var n := VersionRun(t[q..]);
    if n > 0 then Some(t[q..][..n]) else None
  }

  /** The text starts with `Version(` in any case. */
  predicate HasVersionCall(s: string) {
    |s| >= 8 && Lower(s[..8]) == "version("
  }

  /** `VERSION_FILE_REGEX.match(s)[1]`, if it matches: `Version(` is
      tried first and given up when no digits follow it. */
  function FileVersionMatch(s: string): (r: Option<string>)
    ensures r.Some? ==> r.value != [] && forall i :: 0 <= i < |r.value| ==> IsVersionChar(r.value[i])
  {
    if HasVersionCall(s) && GroupAt(s[8..]).Some? then GroupAt(s[8..]) else GroupAt(s)
  }

  /** A version text of digits and dots is found bare, quoted, or inside
      `Version(...)`. */
  lemma FileVersionMatchOf(d: string, q: char)
    requires d != [] && forall i :: 0 <= i < |d| ==> IsVersionChar(d[i])
    requires q == '\'' || q == '"'
    ensures FileVersionMatch(d) == Some(d)
    ensures FileVersionMatch([q] + d + [q]) == Some(d)
    ensures FileVersionMatch("Version(" + [q] + d + [q] + ")") == Some(d)
  {
    MatchBare(d);
    MatchQuoted(d, q);
    MatchCall(d, q);
  }

  /** What `(?:Version\()?` may consume: nothing, or `Version(` in any case. */
  predicate CallPrefix(p: string) {
    p == [] || (|p| == 8 && Lower(p) == "version(")
  }

  /** What `['"]?` may consume. */
  predicate QuotePrefix(q: string) {
    q == [] || q == "'" || q == "\""
  }

  /** `t` starts with the optional quote `q` and the group `g`, a
      non-empty run of digits and dots that the greedy `+` cannot extend.
      The optional closing quote and parenthesis match whatever comes
      next. */
  predicate GroupParse(t: string, q: string, g: string) {
    && QuotePrefix(q)
    && g != [] && (forall i :: 0 <= i < |g| ==> IsVersionChar(g[i]))
    && |q| + |g| <= |t| && t[..|q| + |g|] == q + g
    && (|q| + |g| == |t| || !IsVersionChar(t[|q| + |g|]))
  }

  /** `VERSION_FILE_REGEX` matches `s` at its start with the call prefix
      `p`, the quote `q` and the group `g`. */
  predicate FileVersionParse(s: string, p: string, q: string, g: string) {
    CallPrefix(p) && |p| <= |s| && s[..|p|] == p && GroupParse(s[|p|..], q, g)
  }

  /** Every group the scanner returns is that of a parse of `s`. */
  lemma FileVersionMatchSound(s: string)
    requires FileVersionMatch(s).Some?
    ensures exists p, q :: FileVersionParse(s, p, q, FileVersionMatch(s).value)
  {
    if HasVersionCall(s) && GroupAt(s[8..]).Some? {
      var q := GroupAtSound(s[8..]);
      assert FileVersionParse(s, s[..8], q, GroupAt(s[8..]).value);
    } else {
      var q := GroupAtSound(s);
      assert s[0..] == s;
      assert FileVersionParse(s, [], q, GroupAt(s).value);
    }
  }

  /** A group found at `t` follows the quote `q` at its start and cannot be
      extended. */
  lemma GroupAtSound(t: string) returns (q: string)
    requires GroupAt(t).Some?
    ensures GroupParse(t, q, GroupAt(t).value)
  {
    var k := if t != [] && (t[0] == '\'' || t[0] == '"') then 1 else 0;
    q := t[..k];
    var g := GroupAt(t).value;
    assert t[..k + |g|] == t[..k] + t[k..][..|g|];
  }

  /** The group after an optional quote is the whole run of digits and
      dots that follows. */
  lemma GroupAtParse(t: string, q: string, g: string)
    requires GroupParse(t, q, g)
    ensures GroupAt(t) == Some(g)
  {
    var u := t[|q|..];
    assert t[0] == (q + g)[0];
    assert u == g + t[|q| + |g|..];
    RunOf(g, t[|q| + |g|..]);
    assert u[..|g|] == g;
  }

  /** Every parse of `s` gives the group the scanner returns. Since no
      string starts both with `Version(` and with a quote or a digit, and
      no string starts both with a quote and with a digit, a parse is only
      possible one way, and backtracking never changes the group. */
  lemma FileVersionMatchComplete(s: string, p: string, q: string, g: string)
    requires FileVersionParse(s, p, q, g)
    ensures FileVersionMatch(s) == Some(g)
  {
    if p == [] {
      assert s[0..] == s;
      assert s[0] == (q + g)[0];
      if |s| >= 8 {
        LowerAt(s[..8]);
        assert Lower(s[..8])[0] == LowerChar(s[0]);
      }
      GroupAtParse(s, q, g);
    } else {
      GroupAtParse(s[8..], q, g);
    }
  }

  lemma MatchBare(d: string)
    requires d != [] && forall i :: 0 <= i < |d| ==> IsVersionChar(d[i])
    ensures FileVersionMatch(d) == Some(d)
  {
    RunOf(d, []);
    assert d + [] == d;
    if |d| >= 8 {
      LowerAt(d[..8]);
      assert Lower(d[..8])[0] == LowerChar(d[0]);
    }
  }

  lemma MatchQuoted(d: string, q: char)
    requires d != [] && forall i :: 0 <= i < |d| ==> IsVersionChar(d[i])
    requires q == '\'' || q == '"'
    ensures FileVersionMatch([q] + d + [q]) == Some(d)
  {
    RunOf(d, [q]);
    var t := [q] + d + [q];
    assert t[1..] == d + [q];
    assert (d + [q])[..|d|] == d;
    if |t| >= 8 {
      LowerAt(t[..8]);
      assert Lower(t[..8])[0] == LowerChar(q);
    }
  }

  lemma MatchCall(d: string, q: char)
    requires d != [] && forall i :: 0 <= i < |d| ==> IsVersionChar(d[i])
    requires q == '\'' || q == '"'
    ensures FileVersionMatch("Version(" + [q] + d + [q] + ")") == Some(d)
  {
    var u := "Version(" + [q] + d + [q] + ")";
    assert u[..8] == "Version(";
    LowerAt(u[..8]);
    assert Lower(u[..8]) == "version(";
    var w := u[8..];
    assert w == [q] + (d + ([q] + ")"));
    assert w[1..] == d + ([q] + ")");
    RunOf(d, [q] + ")");
    assert (d + ([q] + ")"))[..|d|] == d;
  }

  lemma {:induction false} RunOf(d: string, rest: string)
    requires forall i :: 0 <= i < |d| ==> IsVersionChar(d[i])
    requires rest == [] || !IsVersionChar(rest[0])
    ensures VersionRun(d + rest) == |d|
  {
    if d != [] {
      assert (d + rest)[1..] == d[1..] + rest;
      RunOf(d[1..], rest);
    } else {
      assert d + rest == rest;
    }
  }

  /** The version found in the attribute file's text for attribute `name`. */
  function AttrVersion(content: string, name: string): Option<Version> {
    var attrs := Attrs(Split(content, '\n'));
    if name !in attrs then None
    else
      var m := FileVersionMatch(attrs[name]);
      Some(Parse(Some(if m.Some? then m.value else attrs[name])))
  }

  /** `latest_version_number(url)`: `pyproject` is the parsed
      `pyproject.toml` at the raw base URL, `fetch` the body of any other
      URL requested. */
  function LatestVersionNumber(url: string, pyproject: Pyproject, fetch: string -> string): (r: Result<Option<Version>, Exception>)
    ensures Truthy(pyproject.projectVersion) ==> r == Ok(Some(Parse(pyproject.projectVersion)))
    ensures !Truthy(pyproject.projectVersion) && Truthy(pyproject.poetryVersion) ==>
      r == Ok(Some(Parse(pyproject.poetryVersion)))
    ensures !Truthy(pyproject.projectVersion) && !Truthy(pyproject.poetryVersion) && "version" !in pyproject.dynamic ==>
      r == Ok(None)
    ensures r.Err? ==> r.error.ValueError?
  {
    if Truthy(pyproject.projectVersion) then Ok(Some(Parse(pyproject.projectVersion)))
    else if Truthy(pyproject.poetryVersion) then Ok(Some(Parse(pyproject.poetryVersion)))
    else if "version" in pyproject.dynamic && pyproject.versionLoc.Some? && pyproject.versionLoc.value != map[] then
      var loc := pyproject.versionLoc.value;
      if "attr" in loc && loc["attr"] != "" then
        var (file, name) :- AttrLocation(loc["attr"]);
        Ok(AttrVersion(fetch(RawBaseUrl(url) + file), name))
      else Ok(None)
    else Ok(None)
  }

  /** With a setuptools attr the version file is requested from the raw
      base URL, and its attribute decides. */
  lemma LatestFromAttr(url: string, pyproject: Pyproject, fetch: string -> string, modulePath: string, name: string)
    requires !Truthy(pyproject.projectVersion) && !Truthy(pyproject.poetryVersion)
    requires "version" in pyproject.dynamic && pyproject.versionLoc.Some?
    requires "attr" in pyproject.versionLoc.value && pyproject.versionLoc.value["attr"] == modulePath + "." + name
    requires '.' !in name
    ensures LatestVersionNumber(url, pyproject, fetch)
            == Ok(AttrVersion(fetch(RawBaseUrl(url) + ("src/" + ReplaceChar(modulePath, '.', '/') + ".py")), name))
  {
    AttrLocationOf(modulePath, name);
    assert pyproject.versionLoc.value != map[];
  }
}
