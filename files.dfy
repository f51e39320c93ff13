/** Files as the modelled code sees them: a directory tree is a map from
    slash-separated relative paths to file contents. */
module Files {
  import opened Strings

  type Bytes = seq<bv8>

  /** `Path(dir) / name` for a relative `name`. */
  function PathJoin(dir: string, name: string): string {
    dir + "/" + name
  }

  /** `Path(p).name`: the last path component. */
  function BaseName(p: string): (r: string)
    ensures '/' !in r
    ensures |r| <= |p| && r == p[|p| - |r|..]
  {
    LastSegment(p, '/')
  }

  /** The base name of a path joined under a directory is the joined
      name's, when it is itself a single component. */
  lemma BaseNameOfJoin(dir: string, name: string)
    requires '/' !in name
    ensures BaseName(PathJoin(dir, name)) == name
  {
    var s := PathJoin(dir, name);
    assert s == dir + ['/'] + name;
    var r := BaseName(s);
    assert s[|s| - |name| - 1] == '/';
    assert forall k :: |s| - |name| <= k < |s| ==> s[k] == name[k - (|s| - |name|)];
    assert |r| == |name|;
  }
}
