/** The `Url` value type: a plain string with a path-join operator, the last
    path segment, a directory heuristic and value equality. */
module Urls {
  import opened Strings

  datatype Url = Url(url: string)

  /** The right operand of `==`: a `Url` or any other object. */
  datatype Operand = UrlOperand(u: Url) | OtherObject

  /** `str(u)`: the stored string, unchanged. */
  function Str(u: Url): string {
    u.url
  }

  /** `u / s`: the stored string, a slash, then `s` without its leading and
      trailing slashes. `u` itself is not trimmed. */
  function Div(u: Url, s: string): (r: Url)
    ensures StartsWith(r.url, u.url + "/")
    ensures var rest := r.url[|u.url| + 1..];
      |rest| <= |s| && IsStripOf(rest, s, '/')
  {
    StripCharShape(s, '/');
    Url(u.url + "/" + StripChar(s, '/'))
  }

  /** `u.endswith(v)`: delegated to the stored string. */
  predicate UrlEndsWith(u: Url, v: string) {
    EndsWith(Str(u), v)
  }

  /** `u.name`: the text after the last slash, or all of it. */
  function Name(u: Url): (r: string)
    ensures '/' !in r
    ensures |r| <= |u.url| && r == u.url[|u.url| - |r|..]
    ensures |r| < |u.url| ==> u.url[|u.url| - |r| - 1] == '/'
    ensures '/' !in u.url ==> r == u.url
  {
    LastSegment(u.url, '/')
  }

  /** `u.is_dir()`: the last segment has no dot. */
  predicate IsDir(u: Url) {
    '.' !in Name(u)
  }

  /** `u == value`: only another `Url` with the identical string. */
  predicate Eq(u: Url, value: Operand) {
    value.UrlOperand? && u.url == value.u.url
  }

  /** Equality is exactly equality of the stored strings, never holds
      against a non-`Url`, and is symmetric. */
  lemma EqIsValueEquality(u: Url, v: Url)
    ensures Eq(u, UrlOperand(v)) <==> u == v
    ensures Eq(u, UrlOperand(v)) <==> Eq(v, UrlOperand(u))
    ensures Eq(u, UrlOperand(u))
    ensures !Eq(u, OtherObject)
  {
  }

  /** The last segment of `a + c + x` is `x` when `x` holds no `c`. */
  lemma LastSegmentOfAppend(a: string, c: char, x: string)
    requires c !in x
    ensures LastSegment(a + [c] + x, c) == x
  {
    var s := a + [c] + x;
    var r := LastSegment(s, c);
    assert s[|s| - |x| - 1] == c;
    assert forall k :: |s| - |x| <= k < |s| ==> s[k] == x[k - (|s| - |x|)];
    assert |r| == |x|;
    assert r == s[|s| - |x|..] == x;
  }

  /** Joining a single segment and taking the name gives the segment back,
      without its slashes. */
  lemma NameOfDiv(u: Url, s: string)
    requires '/' !in StripChar(s, '/')
    ensures Name(Div(u, s)) == StripChar(s, '/')
  {
    LastSegmentOfAppend(u.url, '/', StripChar(s, '/'));
    assert Div(u, s).url == u.url + ['/'] + StripChar(s, '/');
  }

  /** `Div`'s contract fixes its result: any `Url` that is `u`, a slash and
      `s` stripped of its slashes is `u / s`. */
  lemma DivDetermined(u: Url, s: string, v: Url)
    requires StartsWith(v.url, u.url + "/") && IsStripOf(v.url[|u.url| + 1..], s, '/')
    ensures v == Div(u, s)
  {
    var w := Div(u, s);
    StripOfUnique(v.url[|u.url| + 1..], w.url[|u.url| + 1..], s, '/');
    assert v.url == v.url[..|u.url| + 1] + v.url[|u.url| + 1..];
    assert w.url == w.url[..|u.url| + 1] + w.url[|u.url| + 1..];
  }

  /** `str` gives back the string the `Url` was built from, and a joined
      `Url` prints as the left operand, a slash and the stripped text. */
  lemma StrOfDiv(x: string, u: Url, s: string)
    ensures Str(Url(x)) == x
    ensures Str(Div(u, s)) == Str(u) + "/" + StripChar(s, '/')
  {
  }

  /** A `Url` ends with its own name, and `u / s` ends with a slash and the
      stripped `s`. */
  lemma {:induction false} EndsWithNameAndJoin(u: Url, s: string)
    ensures UrlEndsWith(u, Name(u))
    ensures UrlEndsWith(Div(u, s), "/" + StripChar(s, '/'))
  {
    var t := "/" + StripChar(s, '/');
    var w := Div(u, s).url;
    assert w == u.url + t;
    assert w[|w| - |t|..] == t;
  }

  /** The directory test of a joined single segment looks at that segment
      only. */
  lemma IsDirOfDiv(u: Url, s: string)
    requires '/' !in StripChar(s, '/')
    ensures IsDir(Div(u, s)) <==> '.' !in StripChar(s, '/')
  {
    NameOfDiv(u, s);
  }

  /** Stripping leading characters stops at the first one that is kept,
      whatever follows it. */
  lemma {:induction false} LStripAppend(s: string, t: string, p: char -> bool, i: nat)
    requires i < |s| && !p(s[i])
    ensures LStripBy(s + t, p) == LStripBy(s, p) + t
    decreases i
  {
    if p(s[0]) {
      assert (s + t)[1..] == s[1..] + t;
      LStripAppend(s[1..], t, p, i - 1);
    }
  }

  /** Stripping everything from a string of stripped characters. */
  lemma {:induction false} LStripAll(s: string, p: char -> bool)
    requires forall i :: 0 <= i < |s| ==> p(s[i])
    ensures LStripBy(s, p) == []
  {
    if s != [] {
      LStripAll(s[1..], p);
    }
  }

  /** `u / ("/" + s + "/")` and `u / s` are the same `Url`: extra slashes
      around the joined text make no difference. */
  lemma DivIgnoresSurroundingSlashes(u: Url, s: string)
    ensures Div(u, "/" + s + "/") == Div(u, s)
  {
    var p := (x: char) => x == '/';
    var t := "/" + s + "/";
    assert t[1..] == s + "/";
    assert LStripBy(t, p) == LStripBy(s + "/", p);
    if i :| 0 <= i < |s| && s[i] != '/' {
      LStripAppend(s, "/", p, i);
      var l := LStripBy(s, p);
      assert (l + "/")[..|l|] == l;
      assert RStripBy(l + "/", p) == RStripBy(l, p);
    } else {
      LStripAll(s, p);
      LStripAll(s + "/", p);
    }
  }

  /** The left operand keeps its trailing slash: `Url("a/") / "b"` is
      `Url("a//b")`. */
  lemma DivKeepsLeftSlash(a: string, b: string)
    requires b != [] && b[0] != '/' && b[|b| - 1] != '/'
    ensures Div(Url(a + "/"), b) == Url(a + "//" + b)
  {
    StripCharKeeps(b, '/');
  }

  /** Nothing is stripped from a string that neither starts nor ends with
      the character. */
  lemma StripCharKeeps(s: string, c: char)
    requires s != [] && s[0] != c && s[|s| - 1] != c
    ensures StripChar(s, c) == s
  {
    var p := (x: char) => x == c;
    assert LStripBy(s, p) == s;
    assert RStripBy(s, p) == s;
  }
}
