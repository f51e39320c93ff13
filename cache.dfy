/** `cache_rebuild_fhir_cache` of `cache.py`: clear the FHIR package cache,
    install every dependency of `package.json` from a local package
    directory (downloading what is missing), keep `package.json` as it was
    around each install, and finally run `fhir restore`. Downloads, installs
    and the restore are foreign; their outcomes are parameters. */
module Cache {
  import opened Wrappers
  import opened Exceptions
  import opened Files

  const Registry := "https://packages.simplifier.net"

  /** `f"{pkg}-{version}.tgz"`: the name of packages from the registry. */
  function OfficialName(pkg: string, version: string): string {
    pkg + "-" + version + ".tgz"
  }

  /** `f"{pkg}_{version}.tgz"`: the name of packages built locally. */
  function OwnName(pkg: string, version: string): string {
    pkg + "_" + version + ".tgz"
  }

  const NoPackageJson := Failure("Not in project root; no `package.json` found")

  /** `Path.home() / ".fhir/packages"` */
  const FhirCache := "~/.fhir/packages"

  /** The local archive to install a dependency from, if there is one: the
      registry name is tried first, then the local-build name. */
  function Lookup(packageFiles: map<string, Bytes>, pkg: string, version: string): (r: Option<string>)
    ensures r.Some? <==> OfficialName(pkg, version) in packageFiles || OwnName(pkg, version) in packageFiles
    ensures r.Some? ==> r.value in packageFiles
    ensures r.Some? ==> r.value == OfficialName(pkg, version) || r.value == OwnName(pkg, version)
  {
    if OfficialName(pkg, version) in packageFiles then Some(OfficialName(pkg, version))
    else if OwnName(pkg, version) in packageFiles then Some(OwnName(pkg, version))
    else None
  }

  /** The registry name wins when both archives exist; the local-build name
      is used only without a registry archive. */
  lemma LookupOrder(packageFiles: map<string, Bytes>, pkg: string, version: string)
    ensures OfficialName(pkg, version) in packageFiles ==> Lookup(packageFiles, pkg, version) == Some(OfficialName(pkg, version))
    ensures Lookup(packageFiles, pkg, version) == Some(OwnName(pkg, version))
            <==> OfficialName(pkg, version) !in packageFiles && OwnName(pkg, version) in packageFiles
  {
    assert OfficialName(pkg, version)[|pkg|] == '-';
    assert OwnName(pkg, version)[|pkg|] == '_';
  }

  /** What a `fhir install --file` call leaves behind: the contents of
      `package.json` after it, and the exception it raised, if any. */
  datatype InstallEffect = InstallEffect(packageJson: Bytes, error: Option<Exception>)

  /** Where the install loop stands: the package directory, the archives
      handed to `fhir install --file` in order, and the exception that
      ended the loop, if one did. */
  datatype Progress = Progress(packageFiles: map<string, Bytes>, installed: seq<string>, error: Option<Exception>)

  /** The archive one dependency is installed from, with the package
      directory afterwards: the local file when there is one, else the
      download stored under the registry name. */
  function FileFor(packageFiles: map<string, Bytes>, dir: string, pkg: string, version: string,
                   download: (string, string) -> Result<Bytes, Exception>): Result<(string, map<string, Bytes>), Exception>
  {
    match Lookup(packageFiles, pkg, version)
    case Some(name) => Ok((PathJoin(dir, name), packageFiles))
    case None =>
      match download(pkg, version)
      case Err(e) => Err(e)
      case Ok(bytes) =>
        var name := OfficialName(pkg, version);
        Ok((PathJoin(dir, name), packageFiles[name := bytes]))
  }

  /** One pass of the loop body: the archive `FileFor` picks is installed,
      or the download's exception ends the loop before any install. */
  function Step(packageFiles: map<string, Bytes>, dir: string, pkg: string, version: string,
                download: (string, string) -> Result<Bytes, Exception>,
                install: string -> InstallEffect): Progress
  {
    match FileFor(packageFiles, dir, pkg, version, download)
    case Err(e) => Progress(packageFiles, [], Some(e))
    case Ok((file, files)) => Progress(files, [file], install(file).error)
  }

  /** The `for pkg, version in dependencies.items()` loop from the
      dependency at `from` on: each dependency in order is fetched and
      installed, and the first exception, of a download or an install, ends
      the loop. */
  function InstallAll(packageFiles: map<string, Bytes>, dir: string, deps: seq<(string, string)>, from: nat,
                      download: (string, string) -> Result<Bytes, Exception>,
                      install: string -> InstallEffect): (p: Progress)
    requires from <= |deps|
    ensures |p.installed| <= |deps| - from
    ensures p.error.None? ==> |p.installed| == |deps| - from
    decreases |deps| - from
  {
    if from == |deps| then Progress(packageFiles, [], None)
    else
      var s := Step(packageFiles, dir, deps[from].0, deps[from].1, download, install);
      if s.error.Some? then s
      else
        var rest := InstallAll(s.packageFiles, dir, deps, from + 1, download, install);
        Progress(rest.packageFiles, s.installed + rest.installed, rest.error)
  }

  /** Every dependency is installed once, in order, when nothing fails,
      and each from the archive its own lookup finds. */
  lemma {:induction false} InstallAllInOrder(packageFiles: map<string, Bytes>, dir: string, deps: seq<(string, string)>,
                                             from: nat, download: (string, string) -> Result<Bytes, Exception>,
                                             install: string -> InstallEffect)
    requires from <= |deps|
    requires forall k :: from <= k < |deps| ==> Lookup(packageFiles, deps[k].0, deps[k].1).Some?
    requires forall k :: from <= k < |deps| ==>
      install(PathJoin(dir, Lookup(packageFiles, deps[k].0, deps[k].1).value)).error.None?
    ensures var p := InstallAll(packageFiles, dir, deps, from, download, install);
      && p.error.None? && p.packageFiles == packageFiles && |p.installed| == |deps| - from
      && forall k :: from <= k < |deps| ==>
           p.installed[k - from] == PathJoin(dir, Lookup(packageFiles, deps[k].0, deps[k].1).value)
    decreases |deps| - from
  {
    if from < |deps| {
      InstallAllInOrder(packageFiles, dir, deps, from + 1, download, install);
    }
  }

  /** A download that fails at dependency `stop` ends the loop there: the
      archives of the dependencies before it are installed and the
      download's exception is the one re-raised. */
  lemma {:induction false} InstallAllStopsAtDownload(packageFiles: map<string, Bytes>, dir: string,
                                                     deps: seq<(string, string)>, from: nat, stop: nat,
                                                     download: (string, string) -> Result<Bytes, Exception>,
                                                     install: string -> InstallEffect)
    requires from <= stop < |deps|
    requires forall k :: from <= k < stop ==> Lookup(packageFiles, deps[k].0, deps[k].1).Some?
    requires forall k :: from <= k < stop ==>
      install(PathJoin(dir, Lookup(packageFiles, deps[k].0, deps[k].1).value)).error.None?
    requires Lookup(packageFiles, deps[stop].0, deps[stop].1).None?
    requires download(deps[stop].0, deps[stop].1).Err?
    ensures var p := InstallAll(packageFiles, dir, deps, from, download, install);
      && p.error == Some(download(deps[stop].0, deps[stop].1).error)
      && p.packageFiles == packageFiles && |p.installed| == stop - from
    decreases stop - from
  {
    if from < stop {
      InstallAllStopsAtDownload(packageFiles, dir, deps, from + 1, stop, download, install);
    }
  }

  class Workspace {
    /** `./package.json` */
    var packageJson: Option<Bytes>
    /** `./package.bak.json` */
    var backup: Option<Bytes>
    /** The entry names in `~/.fhir/packages`, `None` when that directory
        does not exist. */
    var cache: Option<set<string>>
    /** The archives in the package directory, by file name. */
    var packageFiles: map<string, Bytes>
    /** The archives handed to `fhir install --file`, in order. */
    var installed: seq<string>
    /** How often `fhir restore` ran. */
    var restores: nat

    constructor(packageJson: Option<Bytes>, backup: Option<Bytes>, cache: Option<set<string>>, packageFiles: map<string, Bytes>)
      ensures this.packageJson == packageJson && this.backup == backup && this.cache == cache
      ensures this.packageFiles == packageFiles && installed == [] && restores == 0
    {
      this.packageJson := packageJson;
      this.backup := backup;
      this.cache := cache;
      this.packageFiles := packageFiles;
      installed := [];
      restores := 0;
    }

    /** The file lookup of one dependency, downloading `<pkg>-<ver>.tgz`
        into the package directory on a miss. */
    method Fetch(dir: string, pkg: string, version: string, download: (string, string) -> Result<Bytes, Exception>)
      returns (r: Result<string, Exception>)
      modifies this
      ensures Lookup(old(packageFiles), pkg, version).Some? ==>
        r == Ok(PathJoin(dir, Lookup(old(packageFiles), pkg, version).value)) && packageFiles == old(packageFiles)
      ensures Lookup(old(packageFiles), pkg, version).None? && download(pkg, version).Err? ==>
        r == Err(download(pkg, version).error) && packageFiles == old(packageFiles)
      ensures Lookup(old(packageFiles), pkg, version).None? && download(pkg, version).Ok? ==>
        r == Ok(PathJoin(dir, OfficialName(pkg, version)))
        && packageFiles == old(packageFiles)[OfficialName(pkg, version) := download(pkg, version).value]
      ensures packageJson == old(packageJson) && backup == old(backup) && cache == old(cache)
      ensures installed == old(installed) && restores == old(restores)
    {
      var found := false;
      var name := OfficialName(pkg, version);
      if name in packageFiles {
        found := true;
      } else {
        name := OwnName(pkg, version);
        if name in packageFiles {
          found := true;
        }
        if !found {
          var d := download(pkg, version);
          if d.Err? {
            return Err(d.error);
          }
          name := OfficialName(pkg, version);
          packageFiles := packageFiles[name := d.value];
        }
      }
      r := Ok(PathJoin(dir, name));
    }

    /** One dependency: fetch its archive, back up `package.json`, install,
        and put `package.json` back. A failing install leaves the backup in
        place for the caller's handler. */
    method InstallDependency(dir: string, pkg: string, version: string,
                             download: (string, string) -> Result<Bytes, Exception>,
                             install: string -> InstallEffect)
      returns (r: Result<(), Exception>)
      requires packageJson.Some?
      modifies this
      ensures var s := Step(old(packageFiles), dir, pkg, version, download, install);
        && installed == old(installed) + s.installed
        && packageFiles == s.packageFiles
        && r == if s.error.Some? then Err(s.error.value) else Ok(())
      ensures r.Ok? ==> packageJson == old(packageJson) && backup.None? && |installed| == |old(installed)| + 1
      ensures r.Err? && installed == old(installed) ==> packageJson == old(packageJson) && backup == old(backup)
      ensures r.Err? && installed != old(installed) ==>
        packageJson == Some(install(installed[|installed| - 1]).packageJson) && backup == old(packageJson)
      ensures cache == old(cache) && restores == old(restores)
    {
      var file :- Fetch(dir, pkg, version, download);
      backup := packageJson;
      var effect := install(file);
      installed := installed + [file];
      packageJson := Some(effect.packageJson);
      if effect.error.Some? {
        return Err(effect.error.value);
      }
      packageJson := backup;
      backup := None;
      r := Ok(());
    }

    /** One pass of the loop at dependency `i`, stated against the loop's
        specification. `total` is `InstallAll` from the first dependency,
        `done` the archives installed before `i` on top of `base`: an
        exception ends `total` right here, and otherwise `total` goes on
        with `InstallAll` from `i + 1`. `added` is what this pass installed. */
    method InstallNext(dir: string, deps: seq<(string, string)>, i: nat,
                       download: (string, string) -> Result<Bytes, Exception>,
                       install: string -> InstallEffect,
                       ghost total: Progress, ghost base: seq<string>, ghost done: seq<string>)
      returns (r: Result<(), Exception>, ghost added: seq<string>)
      requires i < |deps| && packageJson.Some?
      requires installed == base + done
      requires var p := InstallAll(packageFiles, dir, deps, i, download, install);
        total == Progress(p.packageFiles, done + p.installed, p.error)
      modifies this
      ensures installed == base + (done + added)
      ensures r.Err? ==> packageFiles == total.packageFiles && installed == base + total.installed && total.error == Some(r.error)
      ensures var p := InstallAll(packageFiles, dir, deps, i + 1, download, install);
        r.Ok? ==> |added| == 1 && total == Progress(p.packageFiles, (done + added) + p.installed, p.error)
      ensures r.Ok? ==> packageJson == old(packageJson) && backup.None?
      ensures r.Err? && added == [] ==> packageJson == old(packageJson) && backup == old(backup)
      ensures r.Err? && added != [] ==> backup == old(packageJson)
      ensures cache == old(cache) && restores == old(restores)
    {
      ghost var s := Step(packageFiles, dir, deps[i].0, deps[i].1, download, install);
      ghost var p := InstallAll(packageFiles, dir, deps, i, download, install);
      r := InstallDependency(dir, deps[i].0, deps[i].1, download, install);
      added := s.installed;
      assert (base + done) + added == base + (done + added);
      if r.Ok? {
        ghost var rest := InstallAll(packageFiles, dir, deps, i + 1, download, install);
        assert p == Progress(rest.packageFiles, added + rest.installed, rest.error);
        assert done + (added + rest.installed) == (done + added) + rest.installed;
      } else {
        assert p == s;
      }
    }

    /** The body of the `try`: each dependency in order is fetched and
        installed until the first exception, which is returned as it is,
        leaving a `package.json` backup behind when an install raised it. */
    method InstallEach(dir: string, deps: seq<(string, string)>,
                       download: (string, string) -> Result<Bytes, Exception>,
                       install: string -> InstallEffect)
      returns (r: Result<(), Exception>)
      requires packageJson.Some?
      modifies this
      ensures var p := InstallAll(old(packageFiles), dir, deps, 0, download, install);
        && installed == old(installed) + p.installed
        && packageFiles == p.packageFiles
        && r == if p.error.Some? then Err(p.error.value) else Ok(())
      ensures r.Ok? ==>
        && packageJson == old(packageJson)
        && (deps != [] ==> backup.None?) && (deps == [] ==> backup == old(backup))
      ensures r.Err? && |installed| == |old(installed)| ==> packageJson == old(packageJson) && backup == old(backup)
      ensures r.Err? && |installed| != |old(installed)| ==>
        (packageJson == old(packageJson) && backup.None?) || backup == old(packageJson)
      ensures cache == old(cache) && restores == old(restores)
    {
      ghost var total := InstallAll(old(packageFiles), dir, deps, 0, download, install);
      ghost var done: seq<string> := [];
      var i := 0;
      while i < |deps|
        invariant 0 <= i <= |deps|
        invariant packageJson == old(packageJson) && packageJson.Some?
        invariant i == 0 ==> backup == old(backup) && done == []
        invariant i > 0 ==> backup.None? && done != []
        invariant installed == old(installed) + done
        invariant var p := InstallAll(packageFiles, dir, deps, i, download, install);
          total == Progress(p.packageFiles, done + p.installed, p.error)
        invariant cache == old(cache) && restores == old(restores)
      {
        ghost var added;
        r, added := InstallNext(dir, deps, i, download, install, total, old(installed), done);
        if r.Err? {
          return;
        }
        done := done + added;
        i := i + 1;
      }
      r := Ok(());
    }

    /** The `try` around the install loop with its `except` handler: the
        first exception puts a `package.json` backup, if there is one, back
        in place and is re-raised. */
    method InstallDependencies(dir: string, deps: seq<(string, string)>,
                               download: (string, string) -> Result<Bytes, Exception>,
                               install: string -> InstallEffect)
      returns (r: Result<(), Exception>)
      requires packageJson.Some?
      modifies this
      ensures var p := InstallAll(old(packageFiles), dir, deps, 0, download, install);
        && installed == old(installed) + p.installed
        && packageFiles == p.packageFiles
        && r == if p.error.Some? then Err(p.error.value) else Ok(())
      ensures r.Ok? ==> packageJson == old(packageJson)
      ensures deps != [] ==> backup.None?
      ensures deps == [] ==> backup == old(backup)
      ensures packageJson == if r.Err? && |installed| == |old(installed)| && old(backup).Some? then old(backup) else old(packageJson)
      ensures cache == old(cache) && restores == old(restores)
    {
      r := InstallEach(dir, deps, download, install);
      if r.Err? && backup.Some? {
        packageJson := backup;
        backup := None;
      }
    }

    /** `cache_rebuild_fhir_cache(cli_args)`: `noClear` is `--no-clear`,
        `packageDir` is `--package-dir`, `deps` the `dependencies` of
        `package.json` in order, and `restoreError` what `fhir restore`
        raises, if anything. */
    method Rebuild(noClear: bool, packageDir: Option<string>, deps: seq<(string, string)>,
                   download: (string, string) -> Result<Bytes, Exception>,
                   install: string -> InstallEffect, restoreError: Option<Exception>)
      returns (r: Result<(), Exception>)
      modifies this
      ensures old(packageJson).None? ==>
        r == Err(NoPackageJson) && cache == old(cache) && installed == old(installed)
        && restores == old(restores) && backup == old(backup) && packageJson == old(packageJson)
        && packageFiles == old(packageFiles)
      ensures old(packageJson).Some? && !noClear && old(cache).None? ==>
        r == Err(FileNotFound(FhirCache)) && cache == old(cache) && installed == old(installed)
        && restores == old(restores) && backup == old(backup) && packageJson == old(packageJson)
        && packageFiles == old(packageFiles)
      ensures old(packageJson).Some? && (noClear || old(cache).Some?) ==>
        && cache == (if noClear then old(cache) else Some({}))
        && var p := if packageDir.Some? then InstallAll(old(packageFiles), packageDir.value, deps, 0, download, install)
                    else Progress(old(packageFiles), [], None);
        && installed == old(installed) + p.installed
        && packageFiles == p.packageFiles
        && (p.error.Some? ==> r == Err(p.error.value) && restores == old(restores))
        && (p.error.None? && restoreError.Some? ==> r == Err(restoreError.value) && restores == old(restores))
        && (p.error.None? && restoreError.None? ==> r == Ok(()) && restores == old(restores) + 1)
        && packageJson == if p.error.Some? && p.installed == [] && old(backup).Some? then old(backup) else old(packageJson)
      ensures r.Ok? ==> packageJson == old(packageJson)
      ensures old(packageJson).Some? && packageDir.Some? && deps != [] && (noClear || old(cache).Some?) ==> backup.None?
      ensures packageDir.None? || deps == [] ==> backup == old(backup)
    {
      if packageJson.None? {
        return Err(NoPackageJson);
      }
      if !noClear {
        if cache.None? {
          return Err(FileNotFound(FhirCache));
        }
        cache := Some({});
      }
      if packageDir.Some? {
        var res := InstallDependencies(packageDir.value, deps, download, install);
        if res.Err? {
          return res;
        }
      }
      if restoreError.Some? {
        return Err(restoreError.value);
      }
      restores := restores + 1;
      r := Ok(());
    }
  }
}
