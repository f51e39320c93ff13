/** `tools/basic/github.py`: the latest release of a GitHub repository,
    the tag of the most recently published release without a leading `v`.
    The HTTP response is an input; publication times are their instants as
    integers. */
module GitHub {
  import opened Wrappers
  import opened Strings
  import opened Exceptions

  const RepoPrefix := "https://github.com/"

  /** The length of the longest prefix without a slash. */
  function SegmentRun(s: string): (n: nat)
    ensures n <= |s| && '/' !in s[..n]
    ensures n < |s| ==> s[n] == '/'
  {
    if s != [] && s[0] != '/' then
      assert s[..1 + SegmentRun(s[1..])] == [s[0]] + s[1..][..SegmentRun(s[1..])];
      1 + SegmentRun(s[1..])
    else 0
  }

  /** `REPO_REGEX.match(url)[1]`, if it matches: the owner and the
      repository, each a non-empty run without slashes. */
  function RepoSlug(url: string): Option<string> {
    if !StartsWith(url, RepoPrefix) then None else SlugAt(url[|RepoPrefix|..])
  }

  /** The group of the pattern, matched after the `https://github.com/`. */
  function SlugAt(rest: string): Option<string> {
    var owner := SegmentRun(rest);
    if owner == 0 || owner == |rest| then None
    else
      var repo := SegmentRun(rest[owner + 1..]);
      if repo == 0 then None else Some(rest[..owner + 1 + repo])
  }

  /** The slug is `owner/repo` for a URL naming them, whatever follows
      from the next slash on. */
  lemma RepoSlugOf(owner: string, repo: string, tail: string)
    requires owner != [] && repo != [] && '/' !in owner && '/' !in repo
    requires tail == [] || tail[0] == '/'
    ensures RepoSlug(RepoPrefix + owner + "/" + repo + tail) == Some(owner + "/" + repo)
  {
    var rest := owner + ("/" + (repo + tail));
    var url := RepoPrefix + rest;
    assert url == RepoPrefix + owner + "/" + repo + tail;
    assert url[..|RepoPrefix|] == RepoPrefix;
    assert url[|RepoPrefix|..] == rest;
    SlugAtOf(owner, repo, tail);
  }

  /** The pattern `https://github\.com/([^/]+/[^/]+)` matches `url` at its
      start with `owner/repo` as the group: both are non-empty and
      slash-free, and the greedy `[^/]+` is stopped by the slash that
      starts `tail` or by the end. */
  predicate RepoParse(url: string, owner: string, repo: string, tail: string) {
    && owner != [] && repo != [] && '/' !in owner && '/' !in repo
    && (tail == [] || tail[0] == '/')
    && url == RepoPrefix + owner + "/" + repo + tail
  }

  /** Every slug the scanner returns comes from a parse of the URL. */
  lemma RepoSlugSound(url: string)
    requires RepoSlug(url).Some?
    ensures exists owner, repo, tail :: RepoParse(url, owner, repo, tail) && RepoSlug(url).value == owner + "/" + repo
  {
    var owner, repo, tail := RepoSlugParts(url);
  }

  /** The owner, repository and rest of a URL the scanner matches. */
  lemma RepoSlugParts(url: string) returns (owner: string, repo: string, tail: string)
    requires RepoSlug(url).Some?
    ensures RepoParse(url, owner, repo, tail) && RepoSlug(url).value == owner + "/" + repo
  {
    var rest := url[|RepoPrefix|..];
    assert url == RepoPrefix + rest;
    owner, repo, tail := SlugAtParts(rest);
    Regroup(RepoPrefix, owner, "/", repo, tail);
  }

  /** The two segments `SlugAt` finds, and what follows them. */
  lemma SlugAtParts(rest: string) returns (owner: string, repo: string, tail: string)
    requires SlugAt(rest).Some?
    ensures owner != [] && repo != [] && '/' !in owner && '/' !in repo
    ensures tail == [] || tail[0] == '/'
    ensures rest == owner + ("/" + (repo + tail))
    ensures SlugAt(rest).value == owner + "/" + repo
  {
    var o := SegmentRun(rest);
    var rest2 := rest[o + 1..];
    var r := SegmentRun(rest2);
    owner, repo, tail := rest[..o], rest2[..r], rest2[r..];
    assert rest == owner + ("/" + rest2);
    assert rest2 == repo + tail;
    assert rest[..o + 1 + r] == owner + "/" + repo;
  }

  lemma Regroup(a: string, b: string, c: string, d: string, e: string)
    ensures a + (b + (c + (d + e))) == a + b + c + d + e
  {
  }

  /** Every parse of the URL gives the slug the scanner returns. */
  lemma RepoSlugComplete(url: string, owner: string, repo: string, tail: string)
    requires RepoParse(url, owner, repo, tail)
    ensures RepoSlug(url) == Some(owner + "/" + repo)
  {
    RepoSlugOf(owner, repo, tail);
  }

  lemma SlugAtOf(owner: string, repo: string, tail: string)
    requires owner != [] && repo != [] && '/' !in owner && '/' !in repo
    requires tail == [] || tail[0] == '/'
    ensures SlugAt(owner + ("/" + (repo + tail))) == Some(owner + "/" + repo)
  {
    var mid := "/" + (repo + tail);
    var rest := owner + mid;
    SegmentRunOf(owner, mid);
    assert rest[|owner| + 1..] == repo + tail;
    SegmentRunOf(repo, tail);
    assert rest[..|owner| + 1 + |repo|] == owner + "/" + repo;
  }

  lemma {:induction false} SegmentRunOf(seg: string, rest: string)
    requires '/' !in seg && (rest == [] || rest[0] == '/')
    ensures SegmentRun(seg + rest) == |seg|
  {
    if seg != [] {
      assert (seg + rest)[1..] == seg[1..] + rest;
      assert '/' !in seg[1..];
      SegmentRunOf(seg[1..], rest);
    } else {
      assert seg + rest == rest;
    }
  }

  /** The slug as written: `repo_url.removeprefix(".git")`. */
  function RepoSlugAsWritten(url: string): Option<string> {
    RepoSlug(RemovePrefix(url, ".git"))
  }

  /** The slug with the evidently intended `removesuffix(".git")`. */
  function RepoSlugFixed(url: string): Option<string> {
    RepoSlug(RemoveSuffix(url, ".git"))
  }

  /** As written, the `.git` of a clone URL stays in the slug: no URL the
      pattern matches starts with `.git`, so nothing is ever removed. */
  lemma RepoSlugAsWrittenKeepsGit(owner: string, repo: string)
    requires owner != [] && repo != [] && '/' !in owner && '/' !in repo
    ensures RepoSlugAsWritten(RepoPrefix + owner + "/" + repo + ".git") == Some(owner + "/" + repo + ".git")
    ensures RepoSlugFixed(RepoPrefix + owner + "/" + repo + ".git") == Some(owner + "/" + repo)
  {
    var url := RepoPrefix + owner + "/" + repo + ".git";
    assert !StartsWith(url, ".git") by { assert url[0] == 'h'; }
    assert url == RepoPrefix + owner + "/" + (repo + ".git") + [];
    RepoSlugOf(owner, repo + ".git", []);
    assert owner + "/" + (repo + ".git") == owner + "/" + repo + ".git";
    assert EndsWith(url, ".git") by { assert url[|url| - 4..] == ".git"; }
    assert RemoveSuffix(url, ".git") == RepoPrefix + owner + "/" + repo + [];
    RepoSlugOf(owner, repo, []);
  }

  /** Removing a `.git` prefix never changes a URL the pattern matches. */
  lemma RemovePrefixIsNoOp(url: string)
    requires RepoSlug(url).Some?
    ensures RemovePrefix(url, ".git") == url
  {
    assert url[0] == 'h';
  }

  /** A release of the GitHub API: its tag and when it was published. */
  datatype Release = Release(tagName: string, publishedAt: int)

  predicate Sorted(s: seq<Release>) {
    forall i, j :: 0 <= i < j < |s| ==> s[i].publishedAt <= s[j].publishedAt
  }

  /** Places `x` after every release published no later than it. */
  function Insert(x: Release, s: seq<Release>): (r: seq<Release>)
    ensures |r| == |s| + 1
    decreases |s|
  {
    if s == [] || s[|s| - 1].publishedAt <= x.publishedAt then s + [x]
    else Insert(x, s[..|s| - 1]) + [s[|s| - 1]]
  }

  /** `sorted(releases, key=published_at)`, a stable sort. */
  function Sort(s: seq<Release>): (r: seq<Release>)
    ensures |r| == |s|
    decreases |s|
  {
    if s == [] then [] else Insert(s[|s| - 1], Sort(s[..|s| - 1]))
  }

  lemma {:induction false} InsertPermutes(x: Release, s: seq<Release>)
    ensures multiset(Insert(x, s)) == multiset(s) + multiset{x}
    decreases |s|
  {
    if s != [] && s[|s| - 1].publishedAt > x.publishedAt {
      InsertPermutes(x, s[..|s| - 1]);
      assert s == s[..|s| - 1] + [s[|s| - 1]];
    }
  }

  lemma {:induction false} InsertSorted(x: Release, s: seq<Release>)
    requires Sorted(s)
    ensures Sorted(Insert(x, s))
    ensures forall i :: 0 <= i < |s| && s[i].publishedAt <= x.publishedAt ==> Insert(x, s)[i] == s[i]
    decreases |s|
  {
    if s != [] && s[|s| - 1].publishedAt > x.publishedAt {
      var init := s[..|s| - 1];
      InsertSorted(x, init);
      InsertPermutes(x, init);
      var r := Insert(x, init);
      forall k | 0 <= k < |r| ensures r[k].publishedAt <= s[|s| - 1].publishedAt {
        assert r[k] in multiset(init) + multiset{x};
        if r[k] != x {
          assert r[k] in init;
        }
      }
      forall i | 0 <= i < |s| && s[i].publishedAt <= x.publishedAt ensures Insert(x, s)[i] == s[i] {
        assert i < |init| && init[i] == s[i];
      }
    }
  }

  /** The sort orders by publication and only reorders. */
  lemma {:induction false} SortCorrect(s: seq<Release>)
    ensures Sorted(Sort(s)) && multiset(Sort(s)) == multiset(s)
    decreases |s|
  {
    if s != [] {
      var init := s[..|s| - 1];
      SortCorrect(init);
      InsertSorted(s[|s| - 1], Sort(init));
      InsertPermutes(s[|s| - 1], Sort(init));
      assert s == init + [s[|s| - 1]];
    }
  }

  /** The last release of the sorted list is the latest published one, and
      among equally late ones the last in the API's order. */
  lemma {:induction false} LatestRelease(s: seq<Release>) returns (i: nat)
    requires s != []
    ensures i < |s| && Sort(s)[|s| - 1] == s[i]
    ensures forall j :: 0 <= j < |s| ==> s[j].publishedAt <= s[i].publishedAt
    ensures forall j :: i < j < |s| ==> s[j].publishedAt < s[i].publishedAt
    decreases |s|
  {
    var init := s[..|s| - 1];
    var x := s[|s| - 1];
    if init == [] {
      i := 0;
    } else {
      var i0 := LatestRelease(init);
      var sorted := Sort(init);
      if sorted[|sorted| - 1].publishedAt <= x.publishedAt {
        i := |s| - 1;
        assert forall j :: 0 <= j < |init| ==> init[j] == s[j];
      } else {
        i := i0;
        assert init[i0] == s[i0];
        assert forall j :: 0 <= j < |init| ==> init[j] == s[j];
      }
    }
  }

  /** The releases URL of the API for a repository slug. */
  function ApiUrl(slug: string): string {
    "https://api.github.com/repos/" + slug + "/releases"
  }

  /** What `requests.get` returns: the status and the parsed releases. */
  datatype Response = Response(status: int, releases: seq<Release>)

  /** `latest_version_number(repo_url)`, with the slug as given by
      `slug`. An empty list of releases raises `IndexError`. */
  function LatestWith(slug: string -> Option<string>, repoUrl: string, get: string -> Response): Result<Option<string>, Exception> {
    match slug(repoUrl)
    case None => Ok(None)
    case Some(s) =>
      var response := get(ApiUrl(s));
      if response.status != 200 then Ok(None)
      else
        var sorted := Sort(response.releases);
        if sorted == [] then Err(IndexError)
        else Ok(Some(RemovePrefix(sorted[|sorted| - 1].tagName, "v")))
  }

  /** The function as written. */
  function LatestVersionNumberAsWritten(repoUrl: string, get: string -> Response): Result<Option<string>, Exception> {
    LatestWith(RepoSlugAsWritten, repoUrl, get)
  }

  /** The function with the `.git` suffix removed. */
  function LatestVersionNumber(repoUrl: string, get: string -> Response): (r: Result<Option<string>, Exception>)
    ensures RepoSlugFixed(repoUrl).None? ==> r == Ok(None)
    ensures r.Err? <==> RepoSlugFixed(repoUrl).Some? && get(ApiUrl(RepoSlugFixed(repoUrl).value)).status == 200
                        && get(ApiUrl(RepoSlugFixed(repoUrl).value)).releases == []
    ensures RepoSlugFixed(repoUrl).Some? && get(ApiUrl(RepoSlugFixed(repoUrl).value)).status != 200 ==>
      r == Ok(None)
  {
    LatestWith(RepoSlugFixed, repoUrl, get)
  }

  /** With releases to choose from, the answer is the tag of a release
      published no earlier than any other, without its `v`. */
  lemma LatestVersionIsNewest(repoUrl: string, get: string -> Response) returns (i: nat)
    requires RepoSlugFixed(repoUrl).Some?
    requires get(ApiUrl(RepoSlugFixed(repoUrl).value)).status == 200
    requires get(ApiUrl(RepoSlugFixed(repoUrl).value)).releases != []
    ensures var rs := get(ApiUrl(RepoSlugFixed(repoUrl).value)).releases;
      && i < |rs|
      && LatestVersionNumber(repoUrl, get) == Ok(Some(RemovePrefix(rs[i].tagName, "v")))
      && (forall j :: 0 <= j < |rs| ==> rs[j].publishedAt <= rs[i].publishedAt)
      && (forall j :: i < j < |rs| ==> rs[j].publishedAt < rs[i].publishedAt)
  {
    i := LatestRelease(get(ApiUrl(RepoSlugFixed(repoUrl).value)).releases);
  }
}
