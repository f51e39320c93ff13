# fhir-scripts, modelled in Dafny

gematik's `fhir-scripts` is a command-line layer over the FHIR tool chain:
SUSHI, IG Publisher, epatools, igtools, Firely Terminal, npm and gcloud. This
project models its core. That covers:

- the version type and its ordering;
- the URL type;
- the yes/no prompt;
- the two shell wrappers (`tools/basic/shell.py`, `tools/shell.py`) and their
  output normalisation;
- the build sequencing (`build defs`, `build ig`, `build all`);
- the `deploy` command: target construction, login and copy;
- the FHIR package cache rebuild;
- the epatools archive update;
- the IG Publisher adapter and its QA summary;
- the latest-version lookups for Python projects and GitHub releases;
- the Firely Terminal adapter.

Each Python exception becomes a value of `Exceptions.Exception`, and each
operation that can raise returns a `Result`:

- Python values become datatypes and `seq`/`map` values.
- Objects whose fields the code assigns in place become classes:
  - the two `ShellResult`s and the tqdm progress bar;
  - the file system seen by the cache rebuild (`Cache.Workspace`);
  - the output directory seen by the archive update (`EpaTools.Output`).
- Loops become methods with loop invariants. Each such method is proved
  against a function that states its result.

Python's string built-ins are written out in `Strings`: `strip`, `lower`,
`split`, `split` with a limit, `rsplit`, `removeprefix`/`removesuffix`,
`replace` and string comparison. These are used with the code's own
semantics. The regular expressions (`COLOR_FORMATTING`, `REPO_REGEX`,
`VERSION_FILE_REGEX`) are hand-written scanners. Each scanner is proved sound
and complete against a predicate describing the strings the pattern accepts
(`BasicShell.CodeLengthSound`/`CodeLengthComplete`,
`GitHub.RepoSlugSound`/`RepoSlugComplete`,
`PythonTools.FileVersionMatchSound`/`FileVersionMatchComplete`).

Everything external becomes an input of the model:

- what a process prints, its exit code, and whether a binary or file exists;
- what an HTTP request returns;
- what the cloud client's login and copy raise, if anything;
- what `helper.clean_string` does to a line, given as a function parameter
  `clean`.

The modules follow the source files:

| module | file |
|---|---|
| `Versions` | `version.py` |
| `Urls` | `types.py` |
| `Confirm` | `helper.py` |
| `BasicShell` | `tools/basic/shell.py` |
| `LegacyShell` | `tools/shell.py` |
| `Build` | `build.py` |
| `Deploy` | `deploy.py` |
| `Cache` | `cache.py` |
| `EpaTools` | `tools/epatools.py` |
| `IgPublisher` | `tools/igpub.py`, with `tools/java.py` |
| `PythonTools` | `tools/basic/python.py` |
| `GitHub` | `tools/basic/github.py` |
| `Firely` | `tools/firely_terminal.py` |

`Strings`, `Files`, `Wrappers` and `Exceptions` are shared helpers.

Several places in the code raise where the surrounding code plainly expects
a value; they are listed under Findings. For each one, the model keeps an
"as written" member that shows the failure and a corrected member. The rest
of the model is built on the corrected member.

## Model

| member | source | states |
|---|---|---|
| Versions.ToString | src/fhir_scripts/version.py:11-18 | `str(v)`: `n/a` for an unknown version, else the present components joined by dots; `ParseRoundTrip` states that it undoes parsing |
| Versions.Eq | src/fhir_scripts/version.py:32-37 | `==`: both unknown, or all three components equal; `EqOfParsed`, `AbsentIsNotZero` and `EqEquivalence` state its properties |
| Versions.GtAsWritten | src/fhir_scripts/version.py:39-64 | `__gt__` as written, raising `TypeError` where it compares a string with `None`; `GtAsWrittenAgrees` and `GtAsWrittenRaises` relate it to `Gt` |
| Versions.Gt | src/fhir_scripts/version.py:39-64 | the corrected `__gt__`, with a missing component below a present one; `GtLexicographic`, `GtIrreflexive`, `GtTransitive` and `GtTrichotomy` state its properties |
| Versions.Parse | src/fhir_scripts/version.py:2-9 | parsing fills major, minor and patch from the left; the result is well formed and has no attached version |
| Versions.ParseUnknown | src/fhir_scripts/version.py:2-30 | a version is unknown exactly when it was built from `None`; it prints as `n/a`; the empty string gives a known version with empty major |
| Versions.ParseRoundTrip | src/fhir_scripts/version.py:2-18 | `str(Version(s)) == s` for every string `s` |
| Versions.ParseComponents | src/fhir_scripts/version.py:3-7 | the components are the pieces of `s.split(".", 2)`: at most two dots split, the rest stays in the patch |
| Versions.Long | src/fhir_scripts/version.py:20-26 | the long form starts with the short form and equals it exactly when no version is attached |
| Versions.LongOfPair | src/fhir_scripts/version.py:20-26 | with a version attached the long form is `a [b]` |
| Versions.EqOfParsed | src/fhir_scripts/version.py:32-37 | two parsed strings are equal as versions exactly when the strings are equal |
| Versions.AbsentIsNotZero | src/fhir_scripts/version.py:32-37 | unknown equals unknown, never a known version; `1.2` is not `1.2.0` |
| Versions.EqEquivalence | src/fhir_scripts/version.py:32-37 | `==` on versions is reflexive, symmetric and transitive |
| Versions.GtAsWrittenAgrees | src/fhir_scripts/version.py:39-64 | where `__gt__` as written returns, it returns the corrected ordering |
| Versions.GtAsWrittenRaises | src/fhir_scripts/version.py:50-62 | `__gt__` as written raises `TypeError` exactly when it reaches a comparison of a string with a missing component of the other version, and only where the corrected ordering holds |
| Versions.GtAsWrittenRaisesOnShorterOther | src/fhir_scripts/version.py:51 | `Version("1.2") > Version("1")` raises as written, though `1.2` is the greater |
| Versions.GtIsStringOrder | src/fhir_scripts/version.py:43-48 | components compare as strings: `9` is greater than `10` |
| Versions.GtDecidedByPatch | src/fhir_scripts/version.py:57-62 | with equal major and minor, the patches decide in string order, as written and corrected |
| Versions.GtOfPatchExample | src/fhir_scripts/version.py:57-62 | `Version("1.2.3") > Version("1.2.2")` is true as written |
| Versions.GtIrreflexive | src/fhir_scripts/version.py:39-64 | no version is greater than itself, and nothing is greater than or less than an unknown version |
| Versions.GtLexicographic | src/fhir_scripts/version.py:39-64 | the corrected ordering compares major, minor and patch lexicographically, with a missing component below any present one |
| Versions.GtTransitive | src/fhir_scripts/version.py:39-64 | the corrected ordering is transitive |
| Versions.GtTrichotomy | src/fhir_scripts/version.py:32-64 | of two known versions exactly one is greater or they are equal |
| Urls.Eq | src/fhir_scripts/types.py:17-18 | `u == value`: `value` is a `Url` with the same string; `EqIsValueEquality` states its properties |
| Urls.IsDir | src/fhir_scripts/types.py:24-25 | `is_dir()`: the name has no dot; `IsDirOfDiv` states it for `u / s` |
| Urls.Div | src/fhir_scripts/types.py:11-12 | `u / s` is `u`'s string, a slash, and exactly `s` with its leading and trailing slashes removed (`IsStripOf`) |
| Urls.DivDetermined | src/fhir_scripts/types.py:11-12 | any URL that is `u`, a slash and `s` stripped of its slashes is `u / s`, so `Div`'s contract fixes its result |
| Urls.StrOfDiv | src/fhir_scripts/types.py:5-12 | `str` gives back the string a URL was built from, and `str(u / s)` is `str(u)`, a slash and the stripped `s` |
| Urls.EndsWithNameAndJoin | src/fhir_scripts/types.py:14-22 | `endswith` on the stored string: a URL ends with its own name, and `u / s` ends with a slash and the stripped `s` |
| Urls.Str | src/fhir_scripts/types.py:5-6 | `str(u)` is the stored string; `StrOfDiv` states it |
| Urls.UrlEndsWith | src/fhir_scripts/types.py:14-15 | `u.endswith(v)` is the stored string's `endswith`; `EndsWithNameAndJoin` states it for names and joins |
| Urls.Name | src/fhir_scripts/types.py:20-22 | the name is the slash-free tail of the URL after its last slash, the whole URL without one |
| Urls.EqIsValueEquality | src/fhir_scripts/types.py:17-18 | a URL equals another URL exactly when their strings are equal, symmetrically, and never equals any other object |
| Urls.NameOfDiv | src/fhir_scripts/types.py:11-22 | the name of `u / s` is `s` stripped of slashes when that has no inner slash |
| Urls.IsDirOfDiv | src/fhir_scripts/types.py:11-25 | `u / s` is a directory exactly when the stripped `s` has no dot |
| Urls.DivIgnoresSurroundingSlashes | src/fhir_scripts/types.py:11-12 | `u / "/s/"` equals `u / s` |
| Urls.DivKeepsLeftSlash | src/fhir_scripts/types.py:11-12 | a trailing slash on the left operand is kept, giving a double slash |
| Confirm.Ask | src/fhir_scripts/helper.py:1-16 | the prompt returns what the first decisive answer means and raises `EOFError` when answers run out; the prompt with its suffix is shown once per answer read |
| Confirm.DecideSkipsInvalid | src/fhir_scripts/helper.py:9-16 | answers that are neither blank nor yes or no are skipped |
| Confirm.DecideFails | src/fhir_scripts/helper.py:9-16 | the prompt fails exactly when no remaining answer is decisive |
| Confirm.FirstDecisive | src/fhir_scripts/helper.py:9-16 | the first decisive answer decides the result |
| Confirm.BlankIsDefault | src/fhir_scripts/helper.py:10-12 | an answer gives the default exactly when it is all white space |
| Confirm.ClassifyIgnoresCase | src/fhir_scripts/helper.py:10 | an answer means the same as its lower-cased form |
| Confirm.ClassifyIgnoresSpace | src/fhir_scripts/helper.py:10 | an answer means the same as its stripped form |
| BasicShell.CodeLengthSound | src/fhir_scripts/tools/basic/shell.py:11 | the scanner's match at the start of a string is a colour code of the pattern |
| BasicShell.CodeLengthComplete | src/fhir_scripts/tools/basic/shell.py:11 | any colour code at the start of a string is what the scanner matches |
| BasicShell.RemoveColors | src/fhir_scripts/tools/basic/shell.py:59 | removing colour codes never lengthens a line |
| BasicShell.RemoveColorsPlain | src/fhir_scripts/tools/basic/shell.py:59 | a line without escape character or backslash is unchanged |
| BasicShell.RemoveColorsKeepsOut | src/fhir_scripts/tools/basic/shell.py:59 | no character absent from the line appears in the result |
| BasicShell.RemoveColorsDropsCode | src/fhir_scripts/tools/basic/shell.py:59 | a leading colour code is removed |
| BasicShell.RemoveColorsNotIdempotent | src/fhir_scripts/tools/basic/shell.py:59 | one `sub` pass can leave a colour code formed from the pieces of a nested one |
| BasicShell.NormaliseLines | src/fhir_scripts/tools/basic/shell.py:58-62 | the normalised pieces are at most as many as the split pieces |
| BasicShell.NormaliseLinesAppend | src/fhir_scripts/tools/basic/shell.py:58-62 | normalisation works piece by piece |
| BasicShell.NormaliseLinesSingle | src/fhir_scripts/tools/basic/shell.py:61 | an empty piece is dropped; a blank but non-empty piece stays as an empty line |
| BasicShell.NormaliseLinesPlain | src/fhir_scripts/tools/basic/shell.py:58-62 | a non-empty piece without escapes becomes its stripped form |
| BasicShell.NormaliseLinesNoNewline | src/fhir_scripts/tools/basic/shell.py:58-62 | no normalised line contains a newline |
| BasicShell.ConvertStd | src/fhir_scripts/tools/basic/shell.py:51-62 | `None` gives no lines, a pipe object raises `AttributeError`, text gives at most one line per newline plus one, none with a newline |
| BasicShell.Oneline | src/fhir_scripts/tools/basic/shell.py:65-66 | `stdout_oneline`: the lines joined by single spaces; `OnelineRoundTrip` states what it keeps |
| BasicShell.OnelineRoundTrip | src/fhir_scripts/tools/basic/shell.py:65-66 | splitting the one-line form at spaces gives the lines back when they hold no space |
| BasicShell.AssignedIsConvertStd | src/fhir_scripts/tools/basic/shell.py:30-32 | the setter's falsy guard gives what `_convert_std` gives |
| BasicShell.ShellResult.SetStdout | src/fhir_scripts/tools/basic/shell.py:30-32 | assigning `stdout` stores the converted lines or raises and keeps the old ones; nothing else changes |
| BasicShell.ShellResult.SetStderr | src/fhir_scripts/tools/basic/shell.py:42-44 | the same for `stderr` |
| BasicShell.ShellResult.AppendStdout | src/fhir_scripts/tools/basic/shell.py:88 | appending a line adds it at the end of `stdout`; nothing else changes |
| BasicShell.FromProcess | src/fhir_scripts/tools/basic/shell.py:14-24 | `ShellResult(process)` raises when either stream does, and otherwise holds both converted streams, the exit code and the arguments |
| BasicShell.CleanAll | src/fhir_scripts/tools/basic/shell.py:86-88 | every read line is cleaned, one for one and in order |
| BasicShell.Run | src/fhir_scripts/tools/basic/shell.py:69-104 | `run` raises `CalledProcessError` exactly when checked and the exit code is non-zero; the result holds the cleaned lines, an empty `stderr`, the exit code and the command |
| BasicShell.ProgressBar.Update | src/fhir_scripts/tools/basic/shell.py:130 | one update advances the count by one |
| BasicShell.ProgressBar.Normalise | src/fhir_scripts/tools/basic/shell.py:135-137 | normalising sets the total to the count |
| BasicShell.LineCounts | src/fhir_scripts/tools/basic/shell.py:127-131 | a line counts when, right-stripped, it starts with some prefix |
| BasicShell.CountLines | src/fhir_scripts/tools/basic/shell.py:126-137 | the bar advances by the number of counting lines, and its total ends as its count |
| BasicShell.RunProgressAsWritten | src/fhir_scripts/tools/basic/shell.py:107-143 | as written, a failing command raises `AttributeError` from `ShellResult(proc)` instead of `CalledProcessError` |
| BasicShell.RunProgress | src/fhir_scripts/tools/basic/shell.py:107-143 | a failing command raises `CalledProcessError` with its exit code and command; the bar counts the matching lines |
| BasicShell.ProgressCountBound | src/fhir_scripts/tools/basic/shell.py:126-131 | at most one count per line, and none without prefixes |
| BasicShell.ProgressCountEmptyPrefix | src/fhir_scripts/tools/basic/shell.py:128-129 | the empty prefix counts every line |
| BasicShell.ProgressCountAppend | src/fhir_scripts/tools/basic/shell.py:126-131 | counting is additive over the output |
| BasicShell.ProgressCountPrefixes | src/fhir_scripts/tools/basic/shell.py:128-131 | `break` avoids double counting: repeated prefixes change nothing, extra prefixes never lower the count |
| LegacyShell.StripLinesStripped | src/fhir_scripts/tools/shell.py:29 | every converted line is stripped |
| LegacyShell.ConvertStdAsWritten | src/fhir_scripts/tools/shell.py:25-29 | as written, conversion succeeds only on text; `None` raises `AttributeError` |
| LegacyShell.ConvertStd | src/fhir_scripts/tools/shell.py:25-29 | with a `None` guard, no output gives no lines and text converts as written |
| LegacyShell.NormaliseIsCleanedStripLines | src/fhir_scripts/tools/shell.py:29 | the newer runner's normalisation (`tools/basic/shell.py:59-62`) is this one with colour codes then removed from each line, line for line |
| LegacyShell.AgreesWithBasic | src/fhir_scripts/tools/shell.py:25-29 | on text without colour escapes both shell wrappers convert alike |
| LegacyShell.Oneline | src/fhir_scripts/tools/shell.py:32-33 | `stdout_oneline`: the lines joined by `", "`; `OnelineRoundTrip` states what it keeps |
| LegacyShell.OnelineRoundTrip | src/fhir_scripts/tools/shell.py:32-33 | for a non-empty list of lines none of which holds a comma or a space, deleting every space of the `", "`-joined form and splitting at `,` gives the lines back |
| LegacyShell.OnelineSplit | src/fhir_scripts/tools/shell.py:32-33 | for a non-empty list of comma-free lines, splitting the `", "`-joined form at `,` gives the first line, then each later line with one space in front; spaces inside the lines are kept |
| LegacyShell.FromProcessAsWritten | src/fhir_scripts/tools/shell.py:9-14 | as written, `ShellResult(process)` succeeds only when both streams were captured |
| LegacyShell.FromProcess | src/fhir_scripts/tools/shell.py:9-14 | with the guard it succeeds unless a stream is a pipe, and keeps the exit code and arguments |
| LegacyShell.EffectiveCheck | src/fhir_scripts/tools/shell.py:47 | `check or not capture_output`: uncaptured output is always checked, captured output only when asked |
| LegacyShell.RunAsWritten | src/fhir_scripts/tools/shell.py:36-51 | as written, every call without captured output raises, and a successful one raises `AttributeError` |
| LegacyShell.Run | src/fhir_scripts/tools/shell.py:36-51 | `run` raises exactly when the effective check is on and the exit code is non-zero, and otherwise returns the converted output |
| LegacyShell.RunAgreesWhenCaptured | src/fhir_scripts/tools/shell.py:36-51 | with captured output the corrected `run` is the one as written |
| LegacyShell.RunProgressAsWritten | src/fhir_scripts/tools/shell.py:54-90 | as written, a failing command raises `AttributeError` instead of `CalledProcessError` |
| LegacyShell.RunProgress | src/fhir_scripts/tools/shell.py:54-90 | a failing command raises `CalledProcessError`; the bar counts the matching lines |
| Build.DefsSelection | src/fhir_scripts/build.py:45-59 | which definition steps run for each flag and switch; SUSHI runs exactly unless only requirements or only capabilities are asked for; the steps come in order |
| Build.IgSelection | src/fhir_scripts/build.py:90-103 | IG Publisher runs unless only OpenAPI is asked for; OpenAPI runs exactly when configured or asked for; QA always runs last |
| Build.AllInOrder | src/fhir_scripts/build.py:112-114 | `build all` runs every definition step before every IG step |
| Build.CallAll | src/fhir_scripts/build.py:67-71 | tool calls run in order up to and including the first that raises, whose exception is the result |
| Build.CaughtStep | src/fhir_scripts/build.py:64-87 | a requirements or capabilities step turns a not-configured or not-installed exception into a warning and succeeds |
| Build.RequirementsSkipRest | src/fhir_scripts/build.py:67-74 | a skippable failure of `igtools.process` skips release notes and export |
| Build.OpenApiNotCaught | src/fhir_scripts/build.py:106-109 | the OpenAPI step does not catch a not-configured exception |
| Build.RunStepsAppend | src/fhir_scripts/build.py:112-114 | running two step lists one after the other is running their concatenation |
| Build.RunStepsAllDone | src/fhir_scripts/build.py:45-114 | when every tool succeeds, all calls are made in order without warnings |
| Build.StepRun | src/fhir_scripts/build.py:64-109 | one step: its tool calls in order, with the requirements and capabilities steps catching not-configured and not-installed errors; `CaughtStep`, `RequirementsSkipRest` and `OpenApiNotCaught` state its properties |
| Build.RunSteps | src/fhir_scripts/build.py:45-114 | a step sequence runs step by step up to the first failing step; `RunStepsAppend` and `RunStepsAllDone` state its properties |
| Build.BuildReq | src/fhir_scripts/build.py:64-76 | `build_req` behaves as the requirements step |
| Build.BuildCap | src/fhir_scripts/build.py:79-87 | `build_cap` behaves as the capabilities step |
| Build.BuildDefs | src/fhir_scripts/build.py:45-61 | `build defs` runs exactly the selected definition steps |
| Build.BuildIg | src/fhir_scripts/build.py:90-103 | `build ig` runs exactly the selected IG steps |
| Build.BuildAll | src/fhir_scripts/build.py:112-114 | `build all` runs the definition steps followed by the IG steps |
| Deploy.Target | src/fhir_scripts/deploy.py:32 | the bucket URL of an environment and a path; `TargetIsUrlJoin`, `TargetIgnoresSlashes` and `TargetShape` state its properties |
| Deploy.DeployIg | src/fhir_scripts/deploy.py:45-61 | not exactly one built IG raises "Built IG not found" and a missing version `KeyError`, both before any copy; otherwise the output directory is copied to `target/version` once, and the result is the copy's exception or success |
| Deploy.Handle | src/fhir_scripts/deploy.py:22-43 | a missing configuration, an undefined environment or a missing path raises before anything happens; login comes first and happens exactly when the target can be built; a failing login raises before any copy; the copy follows exactly when login succeeds and there is one built IG with a version; success needs all of these and a successful copy |
| Deploy.TargetIsUrlJoin | src/fhir_scripts/deploy.py:32 | the bucket target is the URL join of `gs://` plus the right-stripped environment with the path |
| Deploy.TargetIgnoresSlashes | src/fhir_scripts/deploy.py:32 | extra slashes around the environment and path do not change the target |
| Deploy.TargetShape | src/fhir_scripts/deploy.py:32 | the target is `gs://`, the environment without trailing slashes, a slash, and the path without surrounding ones |
| Files.BaseNameOfJoin | src/fhir_scripts/tools/epatools.py:168 | the base name of `dir / name` is `name` |
| Files.PathJoin | src/fhir_scripts/tools/epatools.py:164-168 | `Path(dir) / name` for a relative name; `BaseNameOfJoin` states that its base name is `name` |
| Files.BaseName | src/fhir_scripts/tools/epatools.py:168 | `Path(p).name` is the slash-free tail of `p` |
| EpaTools.Output.UpdateArchive | src/fhir_scripts/tools/epatools.py:148-177 | a missing archive raises and changes nothing; an archive without a `site/` folder raises `FileNotFoundError` and is left unchanged once a configured file is present in the output; otherwise each configured file present in the output replaces or adds its `site/` entry, in order; output files are untouched |
| EpaTools.Output.OpenApi | src/fhir_scripts/tools/epatools.py:62-123 | OpenAPI needs the project configured, the tool installed in command-line mode, and a configuration; a converter error in package mode raises; once these checks pass, the result and the archive are those of the archive update: a missing archive raises, a present file without a `site/` folder raises `FileNotFoundError`, otherwise the files are written in |
| EpaTools.ArchiveKeepsOthers | src/fhir_scripts/tools/epatools.py:159-175 | archive entries no configured file writes survive unchanged |
| EpaTools.ArchiveKeys | src/fhir_scripts/tools/epatools.py:163-175 | the entries afterwards are the old ones plus one per present configured file |
| EpaTools.ArchiveSkipsMissing | src/fhir_scripts/tools/epatools.py:165 | a configured file absent from the output is skipped |
| EpaTools.ArchiveLastWins | src/fhir_scripts/tools/epatools.py:163-169 | of two files of the same base name the later one wins |
| EpaTools.ArchiveAfterAppend | src/fhir_scripts/tools/epatools.py:163-169 | the update works file by file |
| Cache.Lookup | src/fhir_scripts/cache.py:105-126 | a package file is found under the official name or the own-build name, and only if present |
| Cache.LookupOrder | src/fhir_scripts/cache.py:107-119 | the official name is tried first, the own-build name only without it |
| Cache.InstallAll | src/fhir_scripts/cache.py:99-142 | the install loop from a given dependency on: each dependency's archive, the local one or a download, installed in order up to the first download or install exception, which ends the loop; at most one archive per dependency, one each when none fails |
| Cache.InstallAllInOrder | src/fhir_scripts/cache.py:99-142 | when every archive is local and every install succeeds, each dependency is installed once, in order, from its own archive, and nothing is downloaded |
| Cache.InstallAllStopsAtDownload | src/fhir_scripts/cache.py:99-126 | a failing download ends the loop with that exception, after installing exactly the dependencies before it |
| Cache.Workspace.Fetch | src/fhir_scripts/cache.py:105-126 | a cache hit uses the file present; a miss downloads under the official name or raises; nothing else changes |
| Cache.Workspace.InstallDependency | src/fhir_scripts/cache.py:99-142 | one pass of the loop, as `Step` gives it: a failing download raises and changes nothing; otherwise `package.json` is backed up and the archive installed; a successful install restores `package.json` and removes the backup, a failing one raises and leaves the backup |
| Cache.Workspace.InstallNext | src/fhir_scripts/cache.py:99-142 | one pass of the loop against `InstallAll`: an exception ends the loop's specification at this dependency, and otherwise the specification goes on from the next one with this archive installed |
| Cache.Workspace.InstallEach | src/fhir_scripts/cache.py:99-142 | the loop inside the `try`: the archives installed, the package directory and the exception are those of `InstallAll` |
| Cache.Workspace.InstallDependencies | src/fhir_scripts/cache.py:97-150 | the `try` with its handler: as `InstallEach`; after an exception a remaining backup is put back, so `package.json` is the stale `package.bak.json` exactly when the first dependency's download failed with such a file present, and is unchanged otherwise |
| Cache.Workspace.Rebuild | src/fhir_scripts/cache.py:65-153 | without `package.json` it raises and changes nothing; clearing a missing FHIR cache raises `FileNotFoundError`; otherwise the cache is emptied unless told not to, the archives installed are exactly those of `InstallAll` up to its first exception, which is re-raised; without one, `fhir restore` runs once, and its exception, if any, is the result; `package.json` is as before except after a failing first download with a stale backup present, which is then put in its place |
| IgPublisher.Qa | src/fhir_scripts/tools/igpub.py:40-60 | no QA file raises `IG not built`; a missing `errs`, `warnings` or `hints` key raises `KeyError` for the first one missing, in that order; with all counts it summarises, with the all-fine entry exactly when no count is positive |
| IgPublisher.EntriesShape | src/fhir_scripts/tools/igpub.py:47-58 | one entry per positive count in order, and the all-fine entry alone otherwise |
| IgPublisher.EntryNotFine | src/fhir_scripts/tools/igpub.py:48-58 | a count entry is never the all-fine entry |
| IgPublisher.PublishUrl | src/fhir_scripts/tools/igpub.py:22 | evaluated left to right: a missing `canonical` raises `KeyError`, a non-string `canonical` raises `TypeError` before `version` is read, then a missing `version` raises `KeyError` and a non-string one `TypeError`; otherwise the URL is canonical, slash, version |
| IgPublisher.RunAsWritten | src/fhir_scripts/tools/igpub.py:16-29 | `run()` through the uncaptured legacy shell runner; `RunAsWrittenNeverSucceeds` states that it always raises |
| IgPublisher.Run | src/fhir_scripts/tools/igpub.py:16-29 | a missing jar raises first; then a missing `sushi-config.yaml` raises `FileNotFoundError`; then a publish URL that cannot be formed raises its own exception (`PublishUrl`); then a missing Java raises `Java is needed but not installed`; success needs all of these and a zero exit; a failing publisher raises `IG Publisher run failed` |
| IgPublisher.PublishUrlShape | src/fhir_scripts/tools/igpub.py:22-25 | the publish URL is canonical, slash, version, and ends the command line |
| IgPublisher.RunAsWrittenNeverSucceeds | src/fhir_scripts/tools/igpub.py:23-29 | as written, the publisher run never succeeds, because an uncaptured successful run raises inside the shell wrapper |
| PythonTools.InstallCommand | src/fhir_scripts/tools/basic/python.py:32-44 | the install command for uv, pipx or global pipx, and the missing-manager error; `InstallCommandChoice` states the choice |
| PythonTools.InstallCommandChoice | src/fhir_scripts/tools/basic/python.py:32-44 | without uv or pipx there is no command; the global flag matters for pipx only |
| PythonTools.Install | src/fhir_scripts/tools/basic/python.py:32-51 | no manager raises; otherwise a non-zero exit raises `CalledProcessError` with the output |
| PythonTools.RawBaseUrl | src/fhir_scripts/tools/basic/python.py:55 | the raw-file base URL of a repository URL; `RawBaseUrlOf` states what is removed |
| PythonTools.RawBaseUrlOf | src/fhir_scripts/tools/basic/python.py:55 | `git+` and `.git` are removed, each when present, before `/raw/main/` |
| PythonTools.AttrLocation | src/fhir_scripts/tools/basic/python.py:77-79 | an attribute without a dot raises; otherwise the module path becomes `src/…/….py` |
| PythonTools.AttrLocationOf | src/fhir_scripts/tools/basic/python.py:77-79 | `a.b.c` gives file `src/a/b.py` and attribute `c` |
| PythonTools.AttrLine | src/fhir_scripts/tools/basic/python.py:84-86 | a line contributes exactly when it holds one `=` |
| PythonTools.AttrLineOf | src/fhir_scripts/tools/basic/python.py:84-86 | `key = value` gives the trimmed, unquoted key and value |
| PythonTools.Attrs | src/fhir_scripts/tools/basic/python.py:83-87 | the name/value table built from the lines with one `=`; `AttrsLastWins` and `AttrsKeys` state its properties |
| PythonTools.AttrVersion | src/fhir_scripts/tools/basic/python.py:83-93 | the version named by an attribute: none when the table lacks it, else the regex match or the whole value; `LatestFromAttr` states its use |
| PythonTools.AttrsLastWins | src/fhir_scripts/tools/basic/python.py:83-87 | of several assignments to one name the last wins |
| PythonTools.AttrsKeys | src/fhir_scripts/tools/basic/python.py:83-87 | every name in the table comes from a line with one `=` |
| PythonTools.FileVersionMatch | src/fhir_scripts/tools/basic/python.py:13-15 | a match is a non-empty run of digits and dots |
| PythonTools.FileVersionMatchOf | src/fhir_scripts/tools/basic/python.py:13-15 | a bare, quoted or `Version(…)`-wrapped version is matched |
| PythonTools.FileVersionMatchSound | src/fhir_scripts/tools/basic/python.py:13-15 | every group the scanner returns is the group of a parse of the text by `VERSION_FILE_REGEX` (`FileVersionParse`) |
| PythonTools.FileVersionMatchComplete | src/fhir_scripts/tools/basic/python.py:13-15 | every parse of the text by `VERSION_FILE_REGEX` gives the group the scanner returns, whichever alternative backtracking tries first |
| PythonTools.LatestVersionNumber | src/fhir_scripts/tools/basic/python.py:54-96 | the project version wins, then the poetry version; without either and without a dynamic version there is none; only the attribute split can raise |
| PythonTools.LatestFromAttr | src/fhir_scripts/tools/basic/python.py:76-93 | a setuptools attribute is looked up in the fetched file under `src/` |
| GitHub.RepoSlugOf | src/fhir_scripts/tools/basic/github.py:7 | a GitHub URL gives `owner/repo`, whatever follows the next slash |
| GitHub.RepoSlugSound | src/fhir_scripts/tools/basic/github.py:7-11 | every slug the scanner returns is `owner/repo` of a parse of the URL by `REPO_REGEX` (`RepoParse`) |
| GitHub.RepoSlugComplete | src/fhir_scripts/tools/basic/github.py:7-11 | every parse of the URL by `REPO_REGEX` gives the slug the scanner returns |
| GitHub.RepoSlugAsWrittenKeepsGit | src/fhir_scripts/tools/basic/github.py:11 | as written, a clone URL keeps `.git` in the slug; with `removesuffix` the slug is `owner/repo` |
| GitHub.RemovePrefixIsNoOp | src/fhir_scripts/tools/basic/github.py:7-11 | removing a `.git` prefix does nothing to a URL the pattern matches |
| GitHub.Sort | src/fhir_scripts/tools/basic/github.py:24-26 | `sorted` by publication time, as an insertion sort; `SortCorrect` states that it orders and permutes |
| GitHub.SortCorrect | src/fhir_scripts/tools/basic/github.py:22-27 | the sort orders releases by publication time and is a permutation |
| GitHub.LatestRelease | src/fhir_scripts/tools/basic/github.py:22-29 | the last sorted release is the latest published one, the last of equally late ones |
| GitHub.LatestVersionNumberAsWritten | src/fhir_scripts/tools/basic/github.py:10-29 | `latest_version_number` with the slug taken after `removeprefix(".git")`; `RepoSlugAsWrittenKeepsGit` shows where it differs |
| GitHub.LatestVersionNumber | src/fhir_scripts/tools/basic/github.py:10-29 | no match gives none, and so does a response whose status is not 200; only an empty release list of a successful response raises |
| GitHub.LatestVersionIsNewest | src/fhir_scripts/tools/basic/github.py:22-29 | the answer is the tag without `v` of a release published no earlier than any other |
| Firely.InstallCommand | src/fhir_scripts/tools/firely_terminal.py:19-26 | the install command for a package with version or a file, and the missing-arguments error; `InstallCommandChoice` states the choice |
| Firely.InstallCommandChoice | src/fhir_scripts/tools/firely_terminal.py:19-26 | a package with version wins over a file; with neither there is no command |
| Firely.Install | src/fhir_scripts/tools/firely_terminal.py:15-33 | `fhir` missing raises first; missing arguments raise; a non-zero exit raises `CalledProcessError` |
| Firely.Restore | src/fhir_scripts/tools/firely_terminal.py:65-67 | restore succeeds exactly when `fhir` is installed |
| Firely.Update | src/fhir_scripts/tools/firely_terminal.py:36-43 | the only .NET call is a fresh install, and only when asked |
| Firely.VersionAsWritten | src/fhir_scripts/tools/firely_terminal.py:46-62 | as written, the attached version is the plain string .NET reports |
| Firely.LongAsWritten | src/fhir_scripts/version.py:20-26 | `long` on the version as written, whose attached value is a string; `LongAsWrittenRaises` states that it raises |
| Firely.LongAsWrittenRaises | src/fhir_scripts/tools/firely_terminal.py:57 | that string makes the long form raise `AttributeError` |
| Firely.VersionOf | src/fhir_scripts/tools/firely_terminal.py:46-62 | a failing `fhir -v` gives the unknown version; otherwise the banner's version with the .NET version parsed and attached |
| Firely.LongOfFixed | src/fhir_scripts/tools/firely_terminal.py:56-57 | the corrected long form is `terminal [dotnet]` |
| Strings.SplitN | src/fhir_scripts/version.py:3 | `split(sep, n)` gives at most `n + 1` pieces that join back to the input |
| Strings.SplitNLength | src/fhir_scripts/version.py:3 | the number of pieces is the separator count plus one, capped at `n + 1` |
| Strings.Split | src/fhir_scripts/tools/basic/shell.py:60 | `split(c)` gives pieces without `c` that join back to the input |
| Strings.OccurrencesOfSplit | src/fhir_scripts/tools/basic/python.py:85-86 | `split(c)` gives one piece more than there are `c` |
| Strings.SplitOfJoin | src/fhir_scripts/tools/basic/shell.py:65-66 | splitting a join gives the parts back |
| Strings.LastSegment | src/fhir_scripts/types.py:22 | `rsplit(c, 1)[-1]` is the tail after the last `c` |
| Strings.StripCharShape | src/fhir_scripts/types.py:12 | `strip(c)` gives a contiguous piece of `s` with only `c` before and after it and neither end `c` (`IsStripOf`) |
| Strings.StripOfUnique | src/fhir_scripts/types.py:12 | at most one string is `s` with its leading and trailing `c` removed |
| Strings.RemovePrefix | src/fhir_scripts/tools/basic/python.py:55 | `removeprefix` removes the prefix when present and nothing else |
| Strings.RemoveSuffix | src/fhir_scripts/tools/basic/python.py:55 | `removesuffix` removes the suffix when present and nothing else |
| Strings.ReplaceChar | src/fhir_scripts/tools/basic/python.py:78 | `replace(a, b)` replaces each `a` and keeps the rest |
| Strings.LexLessCompare | src/fhir_scripts/version.py:44-62 | string comparison is total, asymmetric and irreflexive |
| Strings.LexLessTransitive | src/fhir_scripts/version.py:44-62 | string comparison is transitive |
| Strings.NatToString | src/fhir_scripts/tools/igpub.py:49 | a count prints as a non-empty run of digits |

## Left out

- Process spawning, `tqdm` drawing, logging and waiting for processes. The
  lines a process prints and its exit code are inputs.
- `helper.clean_string` is not part of this model. It is the function
  parameter `clean`.
- Decoding bytes as UTF-8 (`tools/basic/shell.py:55-56`,
  `tools/shell.py:26-27`). Output is modelled as text from the start.
- `Strings.Lower` folds ASCII letters only, and `\d` and `\s` are ASCII in
  the scanners. Python's Unicode case folding and digit classes are wider.
- `pathlib` path normalisation and directory entries of zip archives. The
  archive is a map from entry names to contents. Creating the package
  directory (`cache.py:90-91`) has no effect in the model.
- `npm.download` is the `download` parameter of `Cache.Workspace.Fetch`.
  Scoped npm package names are not treated specially.
- The entries of `~/.fhir/packages` are not modelled one by one: clearing
  empties the set, and a missing directory raises.
- `deploy.py` imports `GCloudHelper` from `tools/gcloud.py`, which does not
  define it, so the cloud client is not part of this model. What its login
  and copy raise are the `loginError` and `copyError` parameters of
  `Deploy.Handle` (for example "Login failed …" of `tools/gcloud.py:43`, a
  declined overwrite, or the failing copy command of `tools/gcloud.py:105`).
- JSON/YAML/TOML parsing, HTTP and zip encoding. Their results are inputs: a
  parsed QA map, a SUSHI configuration map of typed values, `Pyproject`
  values and a `Response`.
- `Version.__eq__` and `__gt__` applied to objects that are not versions.
- The version banner patterns of Firely Terminal, Python and epatools. Each
  is modelled as a function parameter giving the matched group.
- `tools/basic/dotnet.py` and `tools/epatools.py:108,121` pass
  `capture_output` to the basic shell's `run`, which has no such parameter,
  so Python would raise `TypeError` there. That drift between the two shell
  modules is not modelled. The version .NET would report is an input of the
  Firely functions.
- EpaTools.Output.OpenApi: in command-line mode the `epatools openapi` call
  (`tools/epatools.py:121`) is treated as succeeding.
- Build.StepRun: the `epatools merge` call of the command-line mode
  (`tools/epatools.py:108`) is a tool outcome like any other, not the
  `TypeError` of that call.
- Build.BuildDefs, Build.BuildIg: `build.py:48` and `build.py:93` read
  `config.build.steps`, but `Config` (`config.py:19-21`) has no `build`
  field and `BuildConfig` (`models/build_config.py:14-15`) has only
  `builtin`, so as written both raise `AttributeError` before any step
  runs. The model takes the definitions and IG step switches as given
  inputs and models the step selection the code goes on to make.
- BasicShell.Run: with `log_output`, `tools/basic/shell.py:90` calls
  `log.debug`, which `log.py` does not define, so a logged run that prints
  a line raises `AttributeError`. Logging is left out, and the model
  treats every run as if that call did nothing.
- How `epatools.merge_capabilities` works inside. Only its outcome (done or
  raised) enters `Build` as a tool call.
- `require_installed`, `check_installed` and `is_configured` are boolean
  inputs guarding a `NotInstalled` or `NoConfig` error.
- `dotnet.install` becomes the `Firely.Update` call list, and
  `dotnet.version` an input.
- Timestamps: `datetime.fromisoformat` is not modelled; publication times
  are integers.
- `python.version()` (`tools/basic/python.py:99-112`), `igpub.update` and
  `igpub.version` (`tools/igpub.py:63-85`), and the epatools `update` and
  `version` functions (`tools/epatools.py:81-88,125-145`). These are thin
  wrappers around a shell call and a banner pattern, with no logic beyond
  the shell wrappers modelled here.
- The uv and pipx availability probes (`tools/basic/python.py:17-29`). They
  are the boolean parameters of `PythonTools.Install`.
- `__repr__` of URLs.
- `Build.CallAll` models the tool calls of one step with a fixed outcome per
  tool. A tool with different outcomes on repeated calls is not expressible.

## Findings

| source | as written | input that shows it | evidently intended | confidence | as-written member | corrected member |
|---|---|---|---|---|---|---|
| src/fhir_scripts/version.py:51 | `self.minor < other.minor` is evaluated before `other.minor is None` is tested (likewise for the patch at line 58) | `Version("1.2") > Version("1")` raises `TypeError` comparing `"2"` with `None` | a missing component of the other version makes this one greater | not executed | Versions.GtAsWrittenRaisesOnShorterOther | Versions.Gt |
| src/fhir_scripts/tools/basic/shell.py:140 | `ShellResult(proc)` on a streaming process: the setter calls `strip` on the pipe object | `run_progress("false", None, [], "")` raises `AttributeError` | raise `CalledProcessError` with the exit code and command | not executed | BasicShell.RunProgressAsWritten | BasicShell.RunProgress |
| src/fhir_scripts/tools/shell.py:87 | the same for the legacy `run_progress`; its `ShellResult` calls `strip` on the pipe | `run_progress("false", None, [], "")` raises `AttributeError` | raise `CalledProcessError` | not executed | LegacyShell.RunProgressAsWritten | LegacyShell.RunProgress |
| src/fhir_scripts/tools/shell.py:11 | without captured output `process.stdout` is `None`, and `_convert_std(None)` calls `None.strip()` | `run("true")` raises `AttributeError` after the command succeeded | no output gives no lines | not executed | LegacyShell.RunAsWritten | LegacyShell.Run |
| src/fhir_scripts/tools/igpub.py:25 | the publisher runs through `java.run_jar` without captured output, so a successful run raises inside `tools/shell.py` and escapes the `CalledProcessError` handler | any successful IG Publisher run | the run succeeds | not executed | IgPublisher.RunAsWrittenNeverSucceeds | IgPublisher.Run |
| src/fhir_scripts/tools/basic/github.py:11 | `repo_url.removeprefix(".git")` | `https://github.com/o/r.git` gives slug `o/r.git` and the API URL `repos/o/r.git/releases` | `removesuffix(".git")` | not executed | GitHub.RepoSlugAsWrittenKeepsGit | GitHub.LatestVersionNumber |
| src/fhir_scripts/tools/firely_terminal.py:57 | `add_version` is assigned the string `dotnet.version()` returns, and `long` (`version.py:23`) calls `.long` on it | any non-empty .NET version, then `version.long` as `versions.py:39` does, raises `AttributeError`; this assumes the `capture_output` drift of `dotnet.version()` (`tools/basic/dotnet.py:36`, under "## Left out") is fixed, since as the files stand that call raises `TypeError` before line 57 is reached | attach `Version(v)` only when `dotnet.version()` returns a non-empty string `v`, and nothing otherwise, so that `long` gives `terminal [dotnet]` (Firely.LongOfFixed) | not executed | Firely.LongAsWrittenRaises | Firely.VersionOf |
