/** `fhir_scripts.version.Version`: a version string cut into at most three
    string tokens (major, minor, patch), any of which may be absent, plus an
    optional secondary version (`add_version`) that callers attach, such as
    the .NET runtime behind Firely Terminal. */
module Versions {
  import opened Wrappers
  import opened Strings
  import opened Exceptions

  datatype Version = Version(
    major: Option<string>,
    minor: Option<string>,
    patch: Option<string>,
    addVersion: Option<Version>)

  /** All three components are absent: the sentinel for "not installed". */
  predicate Unknown(v: Version) {
    v.major.None? && v.minor.None? && v.patch.None?
  }

  /** Components fill from the left, as the constructor produces them. */
  predicate WellFormed(v: Version) {
    (v.minor.Some? ==> v.major.Some?) && (v.patch.Some? ==> v.minor.Some?)
  }

  function Part(parts: seq<string>, i: nat): Option<string> {
    if i < |parts| then Some(parts[i]) else None
  }

  /** `Version(version_string)`: split at the first two dots only;
      `Version()` and `Version(None)` give the unknown version. */
  function Parse(s: Option<string>): (v: Version)
    ensures WellFormed(v) && v.addVersion == None
  {
    var parts := if s.Some? then SplitN(s.value, '.', 2) else [];
    Version(Part(parts, 0), Part(parts, 1), Part(parts, 2), None)
  }

  /** A caller assigning `v.add_version = a`. */
  function WithAddVersion(v: Version, a: Option<Version>): (r: Version)
    ensures r.major == v.major && r.minor == v.minor && r.patch == v.patch
    ensures r.addVersion == a
  {
    v.(addVersion := a)
  }

  /** The components that are present, in order. */
  function Present(v: Version): seq<string> {
    (if v.major.Some? then [v.major.value] else [])
    + (if v.minor.Some? then [v.minor.value] else [])
    + (if v.patch.Some? then [v.patch.value] else [])
  }

  /** `str(v)` */
  function ToString(v: Version): string {
    if Unknown(v) then "n/a" else Join(".", Present(v))
  }

  /** `v.long`: the version, then each attached version in brackets. */
  function Long(v: Version): (r: string)
    ensures ToString(v) <= r
    ensures r == ToString(v) <==> v.addVersion.None?
  {
    match v.addVersion
    case None => ToString(v)
    case Some(a) => ToString(v) + " [" + Long(a) + "]"
  }

  /** `a == b`: two unknowns, or the same three components as strings. The
      attached versions play no part. */
  predicate Eq(a: Version, b: Version) {
    (Unknown(a) && Unknown(b))
    || (a.major == b.major && a.minor == b.minor && a.patch == b.patch)
  }

  /** Python's `x < y` on two `str | None` values. */
  function PyLess(x: Option<string>, y: Option<string>): Result<bool, Exception> {
    if x.Some? && y.Some? then Ok(LexLess(x.value, y.value))
    else Err(TypeError("'<' with None"))
  }

  /** Python's `x > y` on two `str | None` values. */
  function PyGreater(x: Option<string>, y: Option<string>): Result<bool, Exception> {
    if x.Some? && y.Some? then Ok(LexLess(y.value, x.value))
    else Err(TypeError("'>' with None"))
  }

  /** `a > b` exactly as written: it compares `a`'s component with the
      other's before it asks whether the other's is `None`, so it raises
      `TypeError` where `a` has a minor or patch that `b` lacks. */
  function GtAsWritten(a: Version, b: Version): Result<bool, Exception> {
    if Unknown(a) || Unknown(b) then Ok(false)
    else
      var majorLess :- PyLess(a.major, b.major);
      if majorLess then Ok(false)
      else
        var majorGreater :- PyGreater(a.major, b.major);
        if majorGreater then Ok(true)
        else if a.minor.None? then Ok(false)
        else
          var minorLess :- PyLess(a.minor, b.minor);
          if minorLess then Ok(false)
          else if b.minor.None? then Ok(true)
          else
            var minorGreater :- PyGreater(a.minor, b.minor);
            if minorGreater then Ok(true)
            else if a.patch.None? then Ok(false)
            else
              var patchLess :- PyLess(a.patch, b.patch);
              if patchLess then Ok(false)
              else if b.patch.None? then Ok(true)
              else
                var patchGreater :- PyGreater(a.patch, b.patch);
                Ok(patchGreater)
  }

  datatype Decision = Decided(greater: bool) | Tie

  /** One component of the comparison as the code evidently intends it:
      an absent component on the left loses, one on the right wins, and
      two present ones compare as strings. */
  function Step(x: Option<string>, y: Option<string>): Decision {
    if x.None? then Decided(false)
    else if y.None? then Decided(true)
    else if LexLess(x.value, y.value) then Decided(false)
    else if LexLess(y.value, x.value) then Decided(true)
    else Tie
  }

  /** `a > b` with the `other ... is None` tests placed before the string
      comparisons that need them. */
  predicate Gt(a: Version, b: Version) {
    if Unknown(a) || Unknown(b) then false
    else match Step(a.major, b.major)
      case Decided(g) => g
      case Tie =>
        match Step(a.minor, b.minor)
        case Decided(g) => g
        case Tie =>
          match Step(a.patch, b.patch)
          case Decided(g) => g
          case Tie => false
  }

  // ---------------------------------------------------------------------
  // Parsing and printing

  /** A version is unknown iff it was built from `None`; the empty string
      gives a known version whose major is `""`. */
  lemma ParseUnknown(s: Option<string>)
    ensures Unknown(Parse(s)) <==> s.None?
    ensures ToString(Parse(None)) == "n/a"
    ensures Parse(Some("")).major == Some("")
  {
    if s.Some? {
      assert Parse(s).major.Some?;
    }
  }

  /** Printing a parsed version gives back the string it came from. */
  lemma ParseRoundTrip(s: string)
    ensures ToString(Parse(Some(s))) == s
  {
    var parts := SplitN(s, '.', 2);
    var v := Parse(Some(s));
    assert Present(v) == parts;
  }

  /** Minor is present iff the text has a dot, patch iff it has two; only
      the patch can contain further dots. */
  lemma ParseComponents(s: string)
    ensures var v := Parse(Some(s));
            && v.major.Some? && '.' !in v.major.value
            && (v.minor.Some? <==> Occurrences(s, '.') >= 1)
            && (v.minor.Some? ==> '.' !in v.minor.value)
            && (v.patch.Some? <==> Occurrences(s, '.') >= 2)
            && (v.patch.Some? ==> s == v.major.value + "." + v.minor.value + "." + v.patch.value)
  {
    var parts := SplitN(s, '.', 2);
    SplitNLength(s, '.', 2);
    var v := Parse(Some(s));
    assert v.major == Some(parts[0]);
    assert v.minor.Some? <==> |parts| >= 2;
    assert v.patch.Some? <==> |parts| == 3;
    if |parts| == 3 {
      assert v.minor == Some(parts[1]) && v.patch == Some(parts[2]);
      JoinThree(".", parts);
    } else if |parts| == 2 {
      assert v.minor == Some(parts[1]);
    }
  }

  lemma JoinThree(sep: string, parts: seq<string>)
    requires |parts| == 3
    ensures Join(sep, parts) == parts[0] + sep + parts[1] + sep + parts[2]
  {
    assert parts[1..][1..] == [parts[2]];
    assert Join(sep, parts[1..]) == parts[1] + sep + parts[2];
  }

  /** `long` of a version with one attached version. */
  lemma LongOfPair(a: string, b: string)
    ensures Long(WithAddVersion(Parse(Some(a)), Some(Parse(Some(b))))) == a + " [" + b + "]"
  {
    ParseRoundTrip(a);
    ParseRoundTrip(b);
  }

  // ---------------------------------------------------------------------
  // Equality

  /** `==` on parsed versions is equality of the strings they came from,
      so "1.2" differs from "1.2.0": absent is not "0". */
  lemma {:induction false} EqOfParsed(s: string, t: string)
    ensures Eq(Parse(Some(s)), Parse(Some(t))) <==> s == t
    ensures Eq(Parse(None), Parse(None)) && !Eq(Parse(None), Parse(Some(s)))
  {
    ParseUnknown(Some(s));
    ParseUnknown(Some(t));
    ParseUnknown(None);
    if Eq(Parse(Some(s)), Parse(Some(t))) {
      assert Present(Parse(Some(s))) == Present(Parse(Some(t)));
      ParseRoundTrip(s);
      ParseRoundTrip(t);
    }
  }

  /** A missing patch is not a zero patch. */
  lemma AbsentIsNotZero()
    ensures !Eq(Parse(Some("1.2")), Parse(Some("1.2.0")))
  {
    EqOfParsed("1.2", "1.2.0");
    assert |"1.2"| != |"1.2.0"|;
  }

  /** `==` is an equivalence relation. */
  lemma EqEquivalence(a: Version, b: Version, c: Version)
    ensures Eq(a, a)
    ensures Eq(a, b) ==> Eq(b, a)
    ensures Eq(a, b) && Eq(b, c) ==> Eq(a, c)
  {
  }

  // ---------------------------------------------------------------------
  // Ordering

  /** Wherever the written `>` answers at all, it gives the intended
      answer. */
  lemma GtAsWrittenAgrees(a: Version, b: Version)
    ensures GtAsWritten(a, b).Ok? ==> GtAsWritten(a, b).value == Gt(a, b)
  {
  }

  /** On well-formed known versions the written `>` raises exactly when
      the higher components tie and `a` has a minor, or patch, that `b`
      lacks; the intended answer there is `true`. */
  lemma GtAsWrittenRaises(a: Version, b: Version)
    requires WellFormed(a) && WellFormed(b) && !Unknown(a) && !Unknown(b)
    ensures GtAsWritten(a, b).Err? <==>
              a.major == b.major
              && ((a.minor.Some? && b.minor.None?)
                  || (a.minor.Some? && a.minor == b.minor && a.patch.Some? && b.patch.None?))
    ensures GtAsWritten(a, b).Err? ==> Gt(a, b)
  {
    LexLessCompare(a.major.value, b.major.value);
    if a.minor.Some? && b.minor.Some? {
      LexLessCompare(a.minor.value, b.minor.value);
    }
    if a.patch.Some? && b.patch.Some? {
      LexLessCompare(a.patch.value, b.patch.value);
    }
  }

  /** "1.2" > "1" raises in the written code; the intended answer is true. */
  lemma GtAsWrittenRaisesOnShorterOther()
    ensures GtAsWritten(Parse(Some("1.2")), Parse(Some("1"))).Err?
    ensures Gt(Parse(Some("1.2")), Parse(Some("1")))
  {
    assert SplitN("1", '.', 2) == ["1"];
    assert SplitN("1.2", '.', 2) == ["1", "2"] by {
      assert IndexOf("1.2", '.') == 1;
      assert "1.2"[..1] == "1" && "1.2"[2..] == "2";
      assert SplitN("2", '.', 1) == ["2"];
    }
    LexLessIrreflexive("1");
  }

  lemma SplitThreeDigits(x: char, y: char, z: char)
    requires x != '.' && y != '.' && z != '.'
    ensures SplitN([x, '.', y, '.', z], '.', 2) == [[x], [y], [z]]
  {
    var s := [x, '.', y, '.', z];
    assert IndexOf(s, '.') == 1;
    assert s[..1] == [x] && s[2..] == [y, '.', z];
    assert IndexOf([y, '.', z], '.') == 1;
    assert [y, '.', z][..1] == [y] && [y, '.', z][2..] == [z];
    assert SplitN([z], '.', 0) == [[z]];
  }

  /** Components compare as strings, not numbers: "9" > "10". */
  lemma GtIsStringOrder()
    ensures GtAsWritten(Parse(Some("9")), Parse(Some("10"))) == Ok(true)
    ensures Gt(Parse(Some("9")), Parse(Some("10")))
  {
    assert SplitN("9", '.', 2) == ["9"];
    assert SplitN("10", '.', 2) == ["10"];
    assert LexLess("10", "9");
  }

  /** The patch decides when major and minor tie: the written `>` then
      compares the two patches as strings, and so does the corrected one. */
  lemma GtDecidedByPatch(a: Version, b: Version)
    requires a.major.Some? && a.minor.Some? && a.patch.Some? && b.patch.Some?
    requires a.major == b.major && a.minor == b.minor
    ensures GtAsWritten(a, b) == Ok(LexLess(b.patch.value, a.patch.value))
    ensures Gt(a, b) <==> LexLess(b.patch.value, a.patch.value)
  {
    LexLessIrreflexive(a.major.value);
    LexLessIrreflexive(a.minor.value);
    LexLessCompare(a.patch.value, b.patch.value);
  }

  /** For instance 1.2.3 > 1.2.2. */
  lemma GtOfPatchExample()
    ensures GtAsWritten(Parse(Some("1.2.3")), Parse(Some("1.2.2"))) == Ok(true)
  {
    ParseThreeDigits('1', '2', '3');
    ParseThreeDigits('1', '2', '2');
    assert "1.2.3" == ['1', '.', '2', '.', '3'];
    assert "1.2.2" == ['1', '.', '2', '.', '2'];
    assert LexLess("2", "3");
    GtDecidedByPatch(Parse(Some("1.2.3")), Parse(Some("1.2.2")));
  }

  lemma ParseThreeDigits(x: char, y: char, z: char)
    requires x != '.' && y != '.' && z != '.'
    ensures Parse(Some([x, '.', y, '.', z])) == Version(Some([x]), Some([y]), Some([z]), None)
  {
    SplitThreeDigits(x, y, z);
  }

  /** An unknown version is never greater, nor is anything greater than
      it, and no version is greater than itself: the written `>` answers
      `false` for a well-formed version compared with itself. */
  lemma GtIrreflexive(a: Version, b: Version)
    ensures !Gt(a, a)
    ensures WellFormed(a) ==> GtAsWritten(a, a) == Ok(false)
    ensures (Unknown(a) || Unknown(b)) ==> !Gt(a, b) && GtAsWritten(a, b) == Ok(false)
  {
    if a.major.Some? { LexLessIrreflexive(a.major.value); }
    if a.minor.Some? { LexLessIrreflexive(a.minor.value); }
    if a.patch.Some? { LexLessIrreflexive(a.patch.value); }
  }

  /** The order on one component: absent below every string, strings by
      code points. */
  predicate ComponentLess(x: Option<string>, y: Option<string>) {
    (x.None? && y.Some?) || (x.Some? && y.Some? && LexLess(x.value, y.value))
  }

  /** On well-formed versions, the intended `>` is the lexicographic order
      of the component triples. */
  lemma GtLexicographic(a: Version, b: Version)
    requires WellFormed(a) && WellFormed(b) && !Unknown(a) && !Unknown(b)
    ensures Gt(a, b) <==>
              || ComponentLess(b.major, a.major)
              || (a.major == b.major && ComponentLess(b.minor, a.minor))
              || (a.major == b.major && a.minor == b.minor && ComponentLess(b.patch, a.patch))
  {
    LexLessCompare(a.major.value, b.major.value);
    if a.minor.Some? && b.minor.Some? {
      LexLessCompare(a.minor.value, b.minor.value);
    }
    if a.patch.Some? && b.patch.Some? {
      LexLessCompare(a.patch.value, b.patch.value);
    }
  }

  lemma ComponentLessTransitive(x: Option<string>, y: Option<string>, z: Option<string>)
    requires ComponentLess(x, y) && ComponentLess(y, z)
    ensures ComponentLess(x, z)
  {
    if x.Some? {
      LexLessTransitive(x.value, y.value, z.value);
    }
  }

  lemma ComponentLessIrreflexive(x: Option<string>)
    ensures !ComponentLess(x, x)
  {
    if x.Some? { LexLessIrreflexive(x.value); }
  }

  lemma ComponentLessTotal(x: Option<string>, y: Option<string>)
    ensures x == y || ComponentLess(x, y) || ComponentLess(y, x)
  {
    if x.Some? && y.Some? { LexLessTotal(x.value, y.value); }
  }

  /** The intended `>` is transitive on well-formed versions. */
  lemma {:induction false} GtTransitive(a: Version, b: Version, c: Version)
    requires WellFormed(a) && WellFormed(b) && WellFormed(c)
    requires Gt(a, b) && Gt(b, c)
    ensures Gt(a, c)
  {
    GtLexicographic(a, b);
    GtLexicographic(b, c);
    GtLexicographic(a, c);
    if ComponentLess(b.major, a.major) && ComponentLess(c.major, b.major) {
      ComponentLessTransitive(c.major, b.major, a.major);
    } else if ComponentLess(b.minor, a.minor) && ComponentLess(c.minor, b.minor) {
      ComponentLessTransitive(c.minor, b.minor, a.minor);
    } else if ComponentLess(b.patch, a.patch) && ComponentLess(c.patch, b.patch) {
      ComponentLessTransitive(c.patch, b.patch, a.patch);
    }
  }

  /** On well-formed known versions exactly one of `a > b`, `b > a` and
      `a == b` holds. */
  lemma {:induction false} GtTrichotomy(a: Version, b: Version)
    requires WellFormed(a) && WellFormed(b) && !Unknown(a) && !Unknown(b)
    ensures Gt(a, b) || Gt(b, a) || Eq(a, b)
    ensures !(Gt(a, b) && Gt(b, a))
    ensures Eq(a, b) ==> !Gt(a, b)
  {
    GtLexicographic(a, b);
    GtLexicographic(b, a);
    ComponentLessTotal(a.major, b.major);
    ComponentLessTotal(a.minor, b.minor);
    ComponentLessTotal(a.patch, b.patch);
    ComponentLessIrreflexive(a.major);
    ComponentLessIrreflexive(a.minor);
    ComponentLessIrreflexive(a.patch);
    if ComponentLess(a.major, b.major) && ComponentLess(b.major, a.major) {
      ComponentLessTransitive(a.major, b.major, a.major);
    }
    if ComponentLess(a.minor, b.minor) && ComponentLess(b.minor, a.minor) {
      ComponentLessTransitive(a.minor, b.minor, a.minor);
    }
    if ComponentLess(a.patch, b.patch) && ComponentLess(b.patch, a.patch) {
      ComponentLessTransitive(a.patch, b.patch, a.patch);
    }
  }
}
