/** The parts of Python's `str` the modelled code relies on: whitespace and
    character stripping, splitting and joining, prefix and suffix tests,
    ASCII lower-casing, decimal rendering and code-point ordering. */
module Strings {
  import opened Wrappers

  /** Python truthiness of an optional string: present and non-empty. */
  predicate Truthy(s: Option<string>) {
    s.Some? && s.value != ""
  }

  /** Python's `str.isspace` for one character: what `strip()` and
      `rstrip()` without arguments remove. */
  predicate IsSpace(c: char) {
    || c == ' '
    || ('\t' <= c <= '\r')
    || ('\U{1C}' <= c <= '\U{1F}')
    || c == '\U{85}'
    || c == '\U{A0}'
    || c == '\U{1680}'
    || ('\U{2000}' <= c <= '\U{200A}')
    || c == '\U{2028}'
    || c == '\U{2029}'
    || c == '\U{202F}'
    || c == '\U{205F}'
    || c == '\U{3000}'
  }

  predicate IsDigit(c: char) {
    '0' <= c <= '9'
  }

  /** Removes the longest prefix whose characters all satisfy `p`. */
  function LStripBy(s: string, p: char -> bool): (r: string)
    ensures |r| <= |s|
  {
    if s != [] && p(s[0]) then LStripBy(s[1..], p) else s
  }

  /** Removes the longest suffix whose characters all satisfy `p`. */
  function RStripBy(s: string, p: char -> bool): (r: string)
    ensures |r| <= |s|
  {
    if s != [] && p(s[|s| - 1]) then RStripBy(s[..|s| - 1], p) else s
  }

  /** `LStripBy` keeps a suffix that does not start with a character
      satisfying `p`. */
  lemma {:induction false} LStripByShape(s: string, p: char -> bool)
    ensures var r := LStripBy(s, p);
      |r| <= |s| && r == s[|s| - |r|..] && (r == [] || !p(r[0]))
  {
    if s != [] && p(s[0]) {
      LStripByShape(s[1..], p);
      var r := LStripBy(s, p);
      assert s[1..][|s[1..]| - |r|..] == s[|s| - |r|..];
    }
  }

  /** `RStripBy` keeps a prefix that does not end with a character
      satisfying `p`. */
  lemma {:induction false} RStripByShape(s: string, p: char -> bool)
    ensures var r := RStripBy(s, p);
      |r| <= |s| && r == s[..|r|] && (r == [] || !p(r[|r| - 1]))
  {
    if s != [] && p(s[|s| - 1]) {
      RStripByShape(s[..|s| - 1], p);
      var r := RStripBy(s, p);
      assert s[..|s| - 1][..|r|] == s[..|r|];
    }
  }

  /** Every character `LStripBy` removes satisfies `p`. */
  lemma {:induction false} LStripByRemoved(s: string, p: char -> bool)
    ensures forall i :: 0 <= i < |s| - |LStripBy(s, p)| ==> p(s[i])
  {
    if s != [] && p(s[0]) {
      LStripByRemoved(s[1..], p);
    }
  }

  /** Every character `RStripBy` removes satisfies `p`. */
  lemma {:induction false} RStripByRemoved(s: string, p: char -> bool)
    ensures forall i :: |RStripBy(s, p)| <= i < |s| ==> p(s[i])
  {
    if s != [] && p(s[|s| - 1]) {
      RStripByRemoved(s[..|s| - 1], p);
    }
  }

  function StripBy(s: string, p: char -> bool): string {
    RStripBy(LStripBy(s, p), p)
  }

  /** `s.strip()` */
  function Strip(s: string): string {
    StripBy(s, IsSpace)
  }

  /** `s.rstrip()` */
  function RStrip(s: string): string {
    RStripBy(s, IsSpace)
  }

  /** `s.strip(c)` for a one-character argument */
  function StripChar(s: string, c: char): string {
    StripBy(s, x => x == c)
  }

  /** `s.rstrip(c)` for a one-character argument */
  function RStripChar(s: string, c: char): string {
    RStripBy(s, x => x == c)
  }

  /** Stripping on both ends leaves neither end strippable, and keeps a
      contiguous piece of the input. */
  lemma StripByShape(s: string, p: char -> bool)
    ensures var r := StripBy(s, p);
            && (r == [] || (!p(r[0]) && !p(r[|r| - 1])))
            && var k := |s| - |LStripBy(s, p)|;
               0 <= k <= |s| - |r| && r == s[k..k + |r|]
  {
    var l := LStripBy(s, p);
    var r := RStripBy(l, p);
    LStripByShape(s, p);
    RStripByShape(l, p);
    var k := |s| - |l|;
    assert r == l[..|r|];
    assert l == s[k..];
    assert r == s[k..][..|r|];
    if r != [] {
      assert l != [] && !p(l[0]);
      assert r[0] == l[0];
      assert !p(r[|r| - 1]);
    }
  }

  /** `r` is the piece of `s` from `k` on, and everything of `s` before and
      after it is `c`. */
  predicate StripsAt(r: string, s: string, c: char, k: int) {
    && 0 <= k <= |s| - |r| && r == s[k..k + |r|]
    && (forall i :: 0 <= i < k ==> s[i] == c)
    && (forall i :: k + |r| <= i < |s| ==> s[i] == c)
  }

  /** `r` is `s` with its leading and trailing `c` removed: a contiguous
      piece of `s` with only `c` around it, neither end of which is `c`. */
  predicate IsStripOf(r: string, s: string, c: char) {
    && (r == [] || (r[0] != c && r[|r| - 1] != c))
    && exists k :: 0 <= k <= |s| && StripsAt(r, s, c, k)
  }

  /** At most one string is `s` stripped of `c`. */
  lemma StripOfUnique(r1: string, r2: string, s: string, c: char)
    requires IsStripOf(r1, s, c) && IsStripOf(r2, s, c)
    ensures r1 == r2
  {
    var k1 :| StripsAt(r1, s, c, k1);
    var k2 :| StripsAt(r2, s, c, k2);
    assert StripsAt(r1, s, c, k1) && StripsAt(r2, s, c, k2);
    if r1 != [] && r2 != [] {
      assert s[k1] == r1[0] && s[k2] == r2[0];
      assert s[k1 + |r1| - 1] == r1[|r1| - 1] && s[k2 + |r2| - 1] == r2[|r2| - 1];
      assert k1 == k2;
      assert |r1| == |r2|;
    }
  }

  /** `s.strip(c)` removes exactly the leading and trailing `c`. */
  lemma StripCharShape(s: string, c: char)
    ensures var r := StripChar(s, c);
      |r| <= |s| && IsStripOf(r, s, c)
  {
    var p := x => x == c;
    var l := LStripBy(s, p);
    var r := RStripBy(l, p);
    StripByShape(s, p);
    LStripByShape(s, p);
    LStripByRemoved(s, p);
    RStripByRemoved(l, p);
    var k := |s| - |l|;
    assert l == s[k..];
    assert r == s[k..k + |r|];
    assert forall i :: k + |r| <= i < |s| ==> s[i] == l[i - k];
    assert StripsAt(r, s, c, k);
  }

  /** `s.rstrip(c)` does not end with `c`. */
  lemma RStripCharShape(s: string, c: char)
    ensures var r := RStripChar(s, c);
      r == s[..|r|] && (r == [] || r[|r| - 1] != c)
  {
    RStripByShape(s, x => x == c);
  }

  /** Stripping twice is stripping once. */
  lemma {:induction false} StripByIdempotent(s: string, p: char -> bool)
    ensures StripBy(StripBy(s, p), p) == StripBy(s, p)
  {
    var r := StripBy(s, p);
    StripByShape(s, p);
    if r != [] {
      assert LStripBy(r, p) == r;
      assert RStripBy(r, p) == r;
    }
  }

  function LowerChar(c: char): char {
    if 'A' <= c <= 'Z' then (c as int + 32) as char else c
  }

  /** `s.lower()`, restricted to ASCII letters */
  function Lower(s: string): (r: string)
    ensures |r| == |s|
  {
    if s == [] then [] else [LowerChar(s[0])] + Lower(s[1..])
  }

  /** Lower-casing works character by character. */
  lemma {:induction false} LowerAt(s: string)
    ensures forall i :: 0 <= i < |s| ==> Lower(s)[i] == LowerChar(s[i])
  {
    if s != [] {
      LowerAt(s[1..]);
    }
  }

  /** `sep.join(parts)` */
  function Join(sep: string, parts: seq<string>): string {
    if parts == [] then ""
    else if |parts| == 1 then parts[0]
    else parts[0] + sep + Join(sep, parts[1..])
  }

  lemma JoinCons(sep: string, a: string, rest: seq<string>)
    requires rest != []
    ensures Join(sep, [a] + rest) == a + sep + Join(sep, rest)
  {
    assert ([a] + rest)[1..] == rest;
  }

  function IndexOf(s: string, c: char): (i: nat)
    requires c in s
    ensures i < |s| && s[i] == c && c !in s[..i]
  {
    if s[0] == c then 0 else 1 + IndexOf(s[1..], c)
  }

  function LastIndexOf(s: string, c: char): (i: nat)
    requires c in s
    ensures i < |s| && s[i] == c && c !in s[i + 1..]
  {
    if s[|s| - 1] == c then |s| - 1
    else
      assert s == s[..|s| - 1] + [s[|s| - 1]];
      LastIndexOf(s[..|s| - 1], c)
  }

  /** `s.split(c)`: the pieces between the occurrences of `c`. */
  function Split(s: string, c: char): (r: seq<string>)
    ensures |r| >= 1
    ensures forall i :: 0 <= i < |r| ==> c !in r[i]
    ensures Join([c], r) == s
    decreases |s|
  {
    if c !in s then [s]
    else
      var i := IndexOf(s, c);
      var rest := Split(s[i + 1..], c);
      JoinCons([c], s[..i], rest);
      assert s == s[..i] + [c] + s[i + 1..];
      [s[..i]] + rest
  }

  /** `s.split(c, n)`: at most `n` splits, taken from the left, so the last
      piece keeps any further occurrences of `c`. */
  function SplitN(s: string, c: char, n: nat): (r: seq<string>)
    ensures 1 <= |r| <= n + 1
    ensures forall i :: 0 <= i < |r| - 1 ==> c !in r[i]
    ensures |r| <= n ==> c !in r[|r| - 1]
    ensures Join([c], r) == s
    decreases n
  {
    if n == 0 || c !in s then [s]
    else
      var i := IndexOf(s, c);
      var rest := SplitN(s[i + 1..], c, n - 1);
      JoinCons([c], s[..i], rest);
      assert s == s[..i] + [c] + s[i + 1..];
      var r := [s[..i]] + rest;
      assert forall k :: 1 <= k < |r| ==> r[k] == rest[k - 1];
      r
  }

  /** Splitting a join on a separator that no part contains gives the parts
      back. */
  lemma {:induction false} SplitOfJoin(parts: seq<string>, c: char)
    requires parts != []
    requires forall i :: 0 <= i < |parts| ==> c !in parts[i]
    ensures Split(Join([c], parts), c) == parts
  {
    if |parts| > 1 {
      var rest := parts[1..];
      JoinCons([c], parts[0], rest);
      assert parts == [parts[0]] + rest;
      var s := Join([c], parts);
      assert s == parts[0] + [c] + Join([c], rest);
      assert c in s by { assert s[|parts[0]|] == c; }
      var i := IndexOf(s, c);
      var n := |parts[0]|;
      assert s[..n] == parts[0];
      assert s[n] == c;
      assert forall j :: 0 <= j < n ==> s[j] == parts[0][j];
      assert s[..i] == parts[0];
      assert s[i + 1..] == Join([c], rest);
      SplitOfJoin(rest, c);
    }
  }

  /** `s.rsplit(c, 1)[-1]`: the text after the last `c`, or all of `s`. */
  function LastSegment(s: string, c: char): (r: string)
    ensures c !in r
    ensures |r| <= |s| && r == s[|s| - |r|..]
    ensures |r| < |s| ==> s[|s| - |r| - 1] == c
    ensures c !in s ==> r == s
  {
    if c in s then s[LastIndexOf(s, c) + 1..] else s
  }

  /** The number of occurrences of `c` in `s`. */
  function Occurrences(s: string, c: char): nat {
    if s == [] then 0 else (if s[0] == c then 1 else 0) + Occurrences(s[1..], c)
  }

  /** The first occurrence accounts for one; the rest lie after it. */
  lemma OccurrencesFromIndexOf(s: string, c: char)
    requires c in s
    ensures Occurrences(s, c) == 1 + Occurrences(s[IndexOf(s, c) + 1..], c)
  {
    var i := IndexOf(s, c);
    OccurrencesAppend(s[..i], s[i..], c);
    assert s == s[..i] + s[i..];
    OccurrencesNone(s[..i], c);
    assert s[i..][1..] == s[i + 1..];
  }

  lemma {:induction false} OccurrencesOfSplit(s: string, c: char)
    ensures |Split(s, c)| == Occurrences(s, c) + 1
    decreases |s|
  {
    if c in s {
      OccurrencesFromIndexOf(s, c);
      OccurrencesOfSplit(s[IndexOf(s, c) + 1..], c);
    } else {
      OccurrencesNone(s, c);
    }
  }

  /** `s.split(c, n)` yields one piece more than there are occurrences of
      `c`, but never more than `n + 1` pieces. */
  lemma {:induction false} SplitNLength(s: string, c: char, n: nat)
    ensures |SplitN(s, c, n)| == if Occurrences(s, c) < n then Occurrences(s, c) + 1 else n + 1
    decreases n
  {
    if c !in s {
      OccurrencesNone(s, c);
    } else if n > 0 {
      OccurrencesFromIndexOf(s, c);
      SplitNLength(s[IndexOf(s, c) + 1..], c, n - 1);
    }
  }

  lemma {:induction false} OccurrencesNone(s: string, c: char)
    requires c !in s
    ensures Occurrences(s, c) == 0
  {
    if s != [] {
      assert c !in s[1..];
      OccurrencesNone(s[1..], c);
    }
  }

  lemma {:induction false} OccurrencesAppend(a: string, b: string, c: char)
    ensures Occurrences(a + b, c) == Occurrences(a, c) + Occurrences(b, c)
  {
    if a != [] {
      assert (a + b)[1..] == a[1..] + b;
      OccurrencesAppend(a[1..], b, c);
    } else {
      assert a + b == b;
    }
  }

  predicate StartsWith(s: string, prefix: string) {
    prefix <= s
  }

  predicate EndsWith(s: string, suffix: string) {
    |suffix| <= |s| && s[|s| - |suffix|..] == suffix
  }

  /** `s.removeprefix(prefix)` */
  function RemovePrefix(s: string, prefix: string): (r: string)
    ensures StartsWith(s, prefix) ==> prefix + r == s
    ensures !StartsWith(s, prefix) ==> r == s
  {
    if StartsWith(s, prefix) then s[|prefix|..] else s
  }

  /** `s.removesuffix(suffix)` */
  function RemoveSuffix(s: string, suffix: string): (r: string)
    ensures EndsWith(s, suffix) ==> r + suffix == s
    ensures !EndsWith(s, suffix) ==> r == s
  {
    if EndsWith(s, suffix) && suffix != [] then s[..|s| - |suffix|] else s
  }

  /** `s.replace(a, b)` for single characters */
  function ReplaceChar(s: string, a: char, b: char): (r: string)
    ensures |r| == |s|
    ensures forall i :: 0 <= i < |s| ==> r[i] == if s[i] == a then b else s[i]
  {
    if s == [] then [] else [if s[0] == a then b else s[0]] + ReplaceChar(s[1..], a, b)
  }

  /** Python's `a < b` on `str`: lexicographic order of code points, a
      proper prefix being smaller. */
  predicate LexLess(a: string, b: string) {
    if a == [] then b != []
    else if b == [] then false
    else if a[0] != b[0] then a[0] < b[0]
    else LexLess(a[1..], b[1..])
  }

  lemma {:induction false} LexLessIrreflexive(a: string)
    ensures !LexLess(a, a)
  {
    if a != [] {
      LexLessIrreflexive(a[1..]);
    }
  }

  lemma {:induction false} LexLessTransitive(a: string, b: string, c: string)
    requires LexLess(a, b) && LexLess(b, c)
    ensures LexLess(a, c)
  {
    if a != [] && b != [] && c != [] && a[0] == b[0] && b[0] == c[0] {
      LexLessTransitive(a[1..], b[1..], c[1..]);
    }
  }

  lemma {:induction false} LexLessTotal(a: string, b: string)
    ensures a == b || LexLess(a, b) || LexLess(b, a)
  {
    if a != [] && b != [] && a[0] == b[0] {
      LexLessTotal(a[1..], b[1..]);
      if a[1..] == b[1..] {
        assert a == [a[0]] + a[1..] && b == [b[0]] + b[1..];
      }
    }
  }

  lemma {:induction false} LexLessAsymmetric(a: string, b: string)
    requires LexLess(a, b)
    ensures !LexLess(b, a)
  {
    if a != [] && b != [] && a[0] == b[0] {
      LexLessAsymmetric(a[1..], b[1..]);
    }
  }

  /** Code-point order is a strict total order. */
  lemma LexLessCompare(a: string, b: string)
    ensures a == b || LexLess(a, b) || LexLess(b, a)
    ensures !(LexLess(a, b) && LexLess(b, a))
    ensures !LexLess(a, a)
  {
    LexLessTotal(a, b);
    LexLessIrreflexive(a);
    if LexLess(a, b) {
      LexLessAsymmetric(a, b);
    }
  }

  /** `str(n)` for a non-negative integer */
  function NatToString(n: nat): (r: string)
    ensures r != []
    ensures forall i :: 0 <= i < |r| ==> IsDigit(r[i])
  {
    if n < 10 then [('0' as int + n) as char]
    else NatToString(n / 10) + [('0' as int + n % 10) as char]
  }
}
