/** `update_archive` and the guards of `openapi` in `tools/epatools.py`:
    configured content files are copied into the `site/` folder of the
    built IG archive `output/full-ig.zip`. The archive is modelled by its
    decoded entries; extraction into a temporary directory and the rewrite
    are the map those entries form. */
module EpaTools {
  import opened Wrappers
  import opened Strings
  import opened Exceptions
  import opened Files

  const ArchivePath := "output/full-ig.zip"

  /** The `archive` part of the epatools configuration. */
  datatype ArchiveConfig = ArchiveConfig(contentFiles: seq<string>)

  datatype EpaToolsConfig = EpaToolsConfig(archive: ArchiveConfig)

  /** How the tool is reached: the `epatools` Python package, or its
      command line. */
  datatype Mode = PackageMode | CommandLineMode

  /** The archive entry a content file becomes. */
  function EntryName(contentFile: string): string {
    "site/" + BaseName(contentFile)
  }

  /** The extracted archive has a `site` directory. */
  predicate HasSite(entries: map<string, Bytes>) {
    exists k :: k in entries && StartsWith(k, "site/")
  }

  /** One content file: copied when it exists under `output`. */
  function AddFile(entries: map<string, Bytes>, output: map<string, Bytes>, contentFile: string): map<string, Bytes> {
    if contentFile in output then entries[EntryName(contentFile) := output[contentFile]] else entries
  }

  /** The archive entries after the content files, in configuration order. */
  function ArchiveAfter(entries: map<string, Bytes>, output: map<string, Bytes>, files: seq<string>): map<string, Bytes>
    decreases |files|
  {
    if files == [] then entries
    else AddFile(ArchiveAfter(entries, output, files[..|files| - 1]), output, files[|files| - 1])
  }

  /** Some configured content file exists under `output`. */
  predicate AnyPresent(output: map<string, Bytes>, files: seq<string>) {
    exists i :: 0 <= i < |files| && files[i] in output
  }

  /** The checks `openapi` makes before it rewrites the archive all pass. */
  predicate GuardsPass(mode: Mode, configured: bool, installed: bool, config: Option<EpaToolsConfig>,
                       converterError: Option<string>) {
    && configured
    && (mode == CommandLineMode ==> installed)
    && config.Some?
    && (mode == PackageMode ==> converterError.None?)
  }

  class Output {
    /** The files under `./output`, keyed relative to it. */
    var files: map<string, Bytes>
    /** The entries of `output/full-ig.zip`, `None` when it does not exist. */
    var archive: Option<map<string, Bytes>>

    constructor(files: map<string, Bytes>, archive: Option<map<string, Bytes>>)
      ensures this.files == files && this.archive == archive
    {
      this.files := files;
      this.archive := archive;
    }

    /** `update_archive(config)`. Writing into `site/` fails when the
        archive has no such folder; the archive is then left as it was. */
    method UpdateArchive(config: ArchiveConfig) returns (r: Result<(), Exception>)
      modifies this
      ensures files == old(files)
      ensures old(archive).None? ==> r == Err(Failure("Archive does not exists: " + ArchivePath)) && archive == old(archive)
      ensures old(archive).Some? ==>
        if !HasSite(old(archive).value) && AnyPresent(files, config.contentFiles) then
          r.Err? && r.error.FileNotFound? && archive == old(archive)
        else
          r == Ok(()) && archive == Some(ArchiveAfter(old(archive).value, files, config.contentFiles))
    {
      if archive.None? {
        return Err(Failure("Archive does not exists: " + ArchivePath));
      }
      var tmp := archive.value;
      var i := 0;
      while i < |config.contentFiles|
        invariant 0 <= i <= |config.contentFiles|
        invariant archive == old(archive) && files == old(files)
        invariant tmp == ArchiveAfter(archive.value, files, config.contentFiles[..i])
        invariant HasSite(tmp) == HasSite(archive.value)
        invariant HasSite(archive.value) || !AnyPresent(files, config.contentFiles[..i])
      {
        var contentFile := config.contentFiles[i];
        assert config.contentFiles[..i + 1][..i] == config.contentFiles[..i];
        if contentFile in files {
          if !HasSite(tmp) {
            assert AnyPresent(files, config.contentFiles) by {
              assert config.contentFiles[i] in files;
            }
            return Err(FileNotFound("site/" + BaseName(contentFile)));
          }
          tmp := tmp[EntryName(contentFile) := files[contentFile]];
          assert StartsWith(EntryName(contentFile), "site/");
        } else {
          AnyPresentStep(files, config.contentFiles, i);
        }
        i := i + 1;
      }
      assert config.contentFiles[..i] == config.contentFiles;
      archive := Some(tmp);
      r := Ok(());
    }

    /** `openapi(config)`: the project must be configured (`configured`:
        `./epatools.yaml` exists) and, on the command line, the tool
        installed, before the missing configuration is reported; a failure
        of the package's converter becomes a plain exception, the command
        line's exit code is not checked. */
    method OpenApi(mode: Mode, configured: bool, installed: bool, config: Option<EpaToolsConfig>,
                   converterError: Option<string>)
      returns (r: Result<(), Exception>)
      modifies this
      ensures !configured ==> r == Err(NoConfig("epatools")) && archive == old(archive)
      ensures configured && mode == CommandLineMode && !installed ==>
        r == Err(NotInstalled("epatools")) && archive == old(archive)
      ensures configured && (mode == PackageMode || installed) && config.None? ==>
        r == Err(Failure("Missing config for epatools")) && archive == old(archive)
      ensures configured && mode == PackageMode && config.Some? && converterError.Some? ==>
        r == Err(Failure("Failed to build Open APIs: " + converterError.value)) && archive == old(archive)
      ensures r.Ok? ==> configured && config.Some? && (mode == PackageMode ==> converterError.None?)
                        && old(archive).Some?
                        && archive == Some(ArchiveAfter(old(archive).value, files, config.value.archive.contentFiles))
      ensures GuardsPass(mode, configured, installed, config, converterError) ==>
        if old(archive).None? then
          r == Err(Failure("Archive does not exists: " + ArchivePath)) && archive == old(archive)
        else if !HasSite(old(archive).value) && AnyPresent(files, config.value.archive.contentFiles) then
          r.Err? && r.error.FileNotFound? && archive == old(archive)
        else
          r == Ok(()) && archive == Some(ArchiveAfter(old(archive).value, files, config.value.archive.contentFiles))
      ensures files == old(files)
    {
      if !configured {
        return Err(NoConfig("epatools"));
      }
      if mode == CommandLineMode && !installed {
        return Err(NotInstalled("epatools"));
      }
      if config.None? {
        return Err(Failure("Missing config for epatools"));
      }
      if mode == PackageMode && converterError.Some? {
        return Err(Failure("Failed to build Open APIs: " + converterError.value));
      }
      r := UpdateArchive(config.value.archive);
    }
  }

  lemma AnyPresentStep(output: map<string, Bytes>, files: seq<string>, i: nat)
    requires i < |files| && files[i] !in output
    ensures AnyPresent(output, files[..i + 1]) <==> AnyPresent(output, files[..i])
  {
    assert forall j :: 0 <= j < i ==> files[..i + 1][j] == files[..i][j];
  }

  /** Entries no content file maps to keep their original contents, and
      no entry is ever removed. */
  lemma {:induction false} ArchiveKeepsOthers(entries: map<string, Bytes>, output: map<string, Bytes>,
                                              files: seq<string>, k: string)
    requires forall i :: 0 <= i < |files| && files[i] in output ==> EntryName(files[i]) != k
    ensures k in ArchiveAfter(entries, output, files) <==> k in entries
    ensures k in entries ==> ArchiveAfter(entries, output, files)[k] == entries[k]
    decreases |files|
  {
    if files != [] {
      var init := files[..|files| - 1];
      assert forall i :: 0 <= i < |init| ==> init[i] == files[i];
      ArchiveKeepsOthers(entries, output, init, k);
    }
  }

  /** The entry names the existing content files map to. */
  function Added(output: map<string, Bytes>, files: seq<string>): set<string>
    decreases |files|
  {
    if files == [] then {}
    else
      var last := files[|files| - 1];
      Added(output, files[..|files| - 1]) + (if last in output then {EntryName(last)} else {})
  }

  /** The entries of the rewritten archive: the original ones and those
      the existing content files map to. */
  lemma {:induction false} ArchiveKeys(entries: map<string, Bytes>, output: map<string, Bytes>, files: seq<string>)
    ensures ArchiveAfter(entries, output, files).Keys == entries.Keys + Added(output, files)
    decreases |files|
  {
    if files != [] {
      ArchiveKeys(entries, output, files[..|files| - 1]);
    }
  }

  /** Every existing content file contributes its entry. */
  lemma {:induction false} AddedHas(output: map<string, Bytes>, files: seq<string>, i: nat)
    requires i < |files| && files[i] in output
    ensures EntryName(files[i]) in Added(output, files)
    decreases |files|
  {
    if i < |files| - 1 {
      var init := files[..|files| - 1];
      assert init[i] == files[i];
      AddedHas(output, init, i);
    }
  }

  /** Files missing from `output` are skipped: they change nothing. */
  lemma ArchiveSkipsMissing(entries: map<string, Bytes>, output: map<string, Bytes>,
                            files: seq<string>, missing: string)
    requires missing !in output
    ensures ArchiveAfter(entries, output, files + [missing]) == ArchiveAfter(entries, output, files)
  {
    assert (files + [missing])[..|files|] == files;
  }

  /** The last existing file with a given base name decides the entry. */
  lemma ArchiveLastWins(entries: map<string, Bytes>, output: map<string, Bytes>,
                        files: seq<string>, i: nat)
    requires i < |files| && files[i] in output
    requires forall j :: i < j < |files| && files[j] in output ==> EntryName(files[j]) != EntryName(files[i])
    ensures EntryName(files[i]) in ArchiveAfter(entries, output, files)
    ensures ArchiveAfter(entries, output, files)[EntryName(files[i])] == output[files[i]]
  {
    var front := files[..i + 1];
    var back := files[i + 1..];
    assert files == front + back;
    assert front[..i] == files[..i];
    var mid := ArchiveAfter(entries, output, front);
    assert mid[EntryName(files[i])] == output[files[i]];
    ArchiveAfterAppend(entries, output, front, back);
    assert forall j :: 0 <= j < |back| ==> back[j] == files[i + 1 + j];
    ArchiveKeepsOthers(mid, output, back, EntryName(files[i]));
  }

  /** Processing two lists of files one after the other. */
  lemma {:induction false} ArchiveAfterAppend(entries: map<string, Bytes>, output: map<string, Bytes>,
                                              a: seq<string>, b: seq<string>)
    ensures ArchiveAfter(entries, output, a + b) == ArchiveAfter(ArchiveAfter(entries, output, a), output, b)
    decreases |b|
  {
    if b == [] {
      assert a + b == a;
    } else {
      var b' := b[..|b| - 1];
      assert (a + b)[..|a + b| - 1] == a + b';
      assert (a + b)[|a + b| - 1] == b[|b| - 1];
      ArchiveAfterAppend(entries, output, a, b');
    }
  }
}
