/**
 * The part of golang.org/x/mod/semver that the configuration upgrade uses:
 * `Compare` on "v"-prefixed versions, with precedence as in section 11 of
 * Semantic Versioning 2.0.0: MAJOR.MINOR.PATCH, then the prerelease
 * identifiers; build metadata is parsed and then ignored.
 */
module Semver {
  import opened Wrappers
  import opened Decimal
  import GoStrings

  /**
   * A parsed version; every string that does not parse is `Invalid`. The
   * prerelease is the list of its dot-separated identifiers, empty for a
   * release.
   */
  datatype Version = Invalid | Valid(major: nat, minor: nat, patch: nat, prerelease: seq<string>)

  /** Number of leading decimal digits of `s`. */
  function DigitRun(s: string): (k: nat)
    ensures k <= |s| && AllDigits(s[..k])
    ensures k < |s| ==> !IsDigit(s[k])
    decreases |s|
  {
    if s != [] && IsDigit(s[0]) then
      var k := 1 + DigitRun(s[1..]);
      assert s[..k] == [s[0]] + s[1..][..k - 1];
      k
    else 0
  }

  /**
   * The digit scanner of the version parser: a non-empty run of digits with no
   * leading zero (unless the run is "0"), and what follows it.
   */
  function ParseNumber(s: string): Option<(nat, string)>
  {
    var k := DigitRun(s);
    if k == 0 || (s[0] == '0' && k != 1) then None
    else Some((DigitsValue(s[..k]), s[k..]))
  }

  /**
   * `vMAJOR`, `vMAJOR.MINOR` (the shorthand forms, standing for `.0`) and
   * `vMAJOR.MINOR.PATCH`, the last optionally followed by a prerelease and
   * build metadata, parse; everything else is invalid.
   */
  function Parse(v: string): Version
  {
    if v == [] || v[0] != 'v' then Invalid else ParseMajor(v[1..])
  }

  /** The major number, then the end of the version or a dot and the minor number. */
  function ParseMajor(s: string): Version
  {
    match ParseNumber(s)
    case None => Invalid
    case Some((major, rest)) =>
      if rest == [] then Valid(major, 0, 0, [])
      else if rest[0] != '.' then Invalid
      else ParseMinor(major, rest[1..])
  }

  /** The minor number, then the end of the version or a dot and the patch number. */
  function ParseMinor(major: nat, s: string): Version
  {
    match ParseNumber(s)
    case None => Invalid
    case Some((minor, rest)) =>
      if rest == [] then Valid(major, minor, 0, [])
      else if rest[0] != '.' then Invalid
      else ParsePatch(major, minor, rest[1..])
  }

  /** The patch number, then the optional prerelease and build metadata. */
  function ParsePatch(major: nat, minor: nat, s: string): Version
  {
    match ParseNumber(s)
    case None => Invalid
    case Some((patch, rest)) => ParsePrerelease(major, minor, patch, rest)
  }

  /** The characters an identifier is made of: ASCII letters, digits and the hyphen. */
  predicate IsIdentChar(c: char)
  {
    'A' <= c <= 'Z' || 'a' <= c <= 'z' || '0' <= c <= '9' || c == '-'
  }

  /** A build identifier: non-empty, of identifier characters only. */
  predicate IsBuildIdent(s: string)
  {
    s != [] && forall i :: 0 <= i < |s| ==> IsIdentChar(s[i])
  }

  /** A numeric identifier with a superfluous leading zero. */
  predicate IsBadNum(s: string)
  {
    AllDigits(s) && |s| > 1 && s[0] == '0'
  }

  /** A prerelease identifier: a build identifier, and no leading zero when numeric. */
  predicate IsPrereleaseIdent(s: string)
  {
    IsBuildIdent(s) && !IsBadNum(s)
  }

  predicate PrereleaseIdents(ids: seq<string>)
  {
    forall k :: 0 <= k < |ids| ==> IsPrereleaseIdent(ids[k])
  }

  predicate BuildIdents(ids: seq<string>)
  {
    forall k :: 0 <= k < |ids| ==> IsBuildIdent(ids[k])
  }

  /** After the patch number: a hyphen and dot-separated prerelease identifiers up to a plus sign or the end, if any. */
  function ParsePrerelease(major: nat, minor: nat, patch: nat, s: string): Version
  {
    if s != [] && s[0] == '-' then
      var i := GoStrings.IndexOf(s, '+');
      var ids := GoStrings.Split(s[1..i], '.');
      if PrereleaseIdents(ids) then ParseBuild(major, minor, patch, ids, s[i..]) else Invalid
    else ParseBuild(major, minor, patch, [], s)
  }

  /** The end of the version, or a plus sign and dot-separated build identifiers up to the end. */
  function ParseBuild(major: nat, minor: nat, patch: nat, prerelease: seq<string>, s: string): Version
  {
    if s == [] then Valid(major, minor, patch, prerelease)
    else if s[0] == '+' && BuildIdents(GoStrings.Split(s[1..], '.')) then Valid(major, minor, patch, prerelease)
    else Invalid
  }

  /** The spelling of a prerelease after the patch number: nothing for a release. */
  function PrereleaseSuffix(prerelease: seq<string>): string
  {
    if prerelease == [] then "" else "-" + GoStrings.Join(prerelease, '.')
  }

  /** The canonical spelling of a version. */
  function Format(major: nat, minor: nat, patch: nat, prerelease: seq<string>): string
  {
    "v" + NatToString(major) + "." + NatToString(minor) + "." + NatToString(patch) + PrereleaseSuffix(prerelease)
  }

  // ---------------------------------------------------------------------
  // Precedence

  function CompareNat(a: nat, b: nat): int
  {
    if a < b then -1 else if a > b then 1 else 0
  }

  /** Go's order on strings: byte by byte, a proper prefix first. */
  predicate LessString(a: string, b: string)
    decreases |a|
  {
    if a == [] then b != []
    else if b == [] then false
    else if a[0] != b[0] then a[0] < b[0]
    else LessString(a[1..], b[1..])
  }

  /**
   * Precedence of two prerelease identifiers: numeric ones (digits only)
   * below alphanumeric ones, numeric ones by length and then character by
   * character, alphanumeric ones character by character.
   */
  function CompareIdent(dx: string, dy: string): (c: int)
    ensures -1 <= c <= 1
    ensures c == 0 <==> dx == dy
  {
    if dx == dy then 0
    else if AllDigits(dx) != AllDigits(dy) then (if AllDigits(dx) then -1 else 1)
    else if AllDigits(dx) && |dx| != |dy| then (if |dx| < |dy| then -1 else 1)
    else if LessString(dx, dy) then -1
    else 1
  }

  /** Identifier lists compared from the left until they differ; a proper prefix is lower. */
  function CompareIdentLists(x: seq<string>, y: seq<string>): (c: int)
    ensures -1 <= c <= 1
    ensures c == 0 <==> x == y
    decreases |x|
  {
    if x == [] && y == [] then 0
    else if x == [] then -1
    else if y == [] then 1
    else if x[0] != y[0] then CompareIdent(x[0], y[0])
    else
      var c := CompareIdentLists(x[1..], y[1..]);
      assert x == [x[0]] + x[1..] && y == [y[0]] + y[1..];
      c
  }

  /** Prereleases compared; a release (no identifiers) is above every prerelease of it. */
  function ComparePrerelease(x: seq<string>, y: seq<string>): (c: int)
    ensures -1 <= c <= 1
    ensures c == 0 <==> x == y
  {
    if x == y then 0
    else if x == [] then 1
    else if y == [] then -1
    else CompareIdentLists(x, y)
  }

  /** Precedence of two parsed versions; invalid versions sort below all valid ones. */
  function CompareVersions(v: Version, w: Version): (c: int)
    ensures -1 <= c <= 1
  {
    match (v, w)
    case (Invalid, Invalid) => 0
    case (Invalid, _) => -1
    case (_, Invalid) => 1
    case (Valid(a1, b1, c1, p1), Valid(a2, b2, c2, p2)) =>
      if a1 != a2 then CompareNat(a1, a2)
      else if b1 != b2 then CompareNat(b1, b2)
      else if c1 != c2 then CompareNat(c1, c2)
      else ComparePrerelease(p1, p2)
  }

  /** `semver.Compare(v, w)`: -1, 0 or +1. */
  function Compare(v: string, w: string): int
  {
    CompareVersions(Parse(v), Parse(w))
  }

  // ---------------------------------------------------------------------
  // Parsing the canonical spelling

  lemma {:induction false} DigitRunOfDigits(a: string, rest: string)
    requires AllDigits(a)
    requires rest == [] || !IsDigit(rest[0])
    ensures DigitRun(a + rest) == |a|
    decreases |a|
  {
    if a != [] {
      assert (a + rest)[1..] == a[1..] + rest;
      DigitRunOfDigits(a[1..], rest);
    } else {
      assert a + rest == rest;
    }
  }

  /** The scanner reads back exactly the rendering of a number. */
  lemma ParseNumberOfNatToString(n: nat, rest: string)
    requires rest == [] || !IsDigit(rest[0])
    ensures ParseNumber(NatToString(n) + rest) == Some((n, rest))
  {
    var s := NatToString(n);
    DigitRunOfDigits(s, rest);
    assert (s + rest)[..|s|] == s;
    assert (s + rest)[|s|..] == rest;
    DigitsOfNatToString(n);
  }

  /** Identifier characters exclude the dot and the plus sign. */
  lemma IdentsWithout(ids: seq<string>)
    requires BuildIdents(ids)
    ensures forall k :: 0 <= k < |ids| ==> '.' !in ids[k] && '+' !in ids[k]
  {
    forall k | 0 <= k < |ids| ensures '.' !in ids[k] && '+' !in ids[k] {
      forall i | 0 <= i < |ids[k]| ensures ids[k][i] != '.' && ids[k][i] != '+' {
        assert IsIdentChar(ids[k][i]);
      }
    }
  }

  /** The spelling of a prerelease reads back as that prerelease. */
  lemma ParsePrereleaseOfSuffix(major: nat, minor: nat, patch: nat, prerelease: seq<string>)
    requires PrereleaseIdents(prerelease)
    ensures ParsePrerelease(major, minor, patch, PrereleaseSuffix(prerelease)) == Valid(major, minor, patch, prerelease)
  {
    if prerelease != [] {
      var joined := GoStrings.Join(prerelease, '.');
      var s := "-" + joined;
      IdentsWithout(prerelease);
      GoStrings.JoinWithout(prerelease, '.', '+');
      assert '+' !in s;
      GoStrings.IndexOfIs(s, '+', |s|);
      assert s[1..|s|] == joined;
      GoStrings.SplitJoin(prerelease, '.');
      assert s[|s|..] == [];
    }
  }

  lemma ParsePatchOf(major: nat, minor: nat, patch: nat, suffix: string)
    requires suffix == [] || !IsDigit(suffix[0])
    ensures ParsePatch(major, minor, NatToString(patch) + suffix) == ParsePrerelease(major, minor, patch, suffix)
  {
    ParseNumberOfNatToString(patch, suffix);
  }

  lemma DottedAssoc(a: string, b: string, suffix: string)
    ensures a + "." + b + suffix == a + ("." + (b + suffix))
  {
  }

  lemma ParseMinorOf(major: nat, minor: nat, patch: nat, suffix: string)
    requires suffix == [] || !IsDigit(suffix[0])
    ensures ParseMinor(major, NatToString(minor) + "." + NatToString(patch) + suffix) == ParsePrerelease(major, minor, patch, suffix)
  {
    var t := NatToString(patch) + suffix;
    var rest := "." + t;
    DottedAssoc(NatToString(minor), NatToString(patch), suffix);
    ParseNumberOfNatToString(minor, rest);
    assert rest[1..] == t;
    ParsePatchOf(major, minor, patch, suffix);
  }

  lemma DottedAssoc3(a: string, b: string, c: string, suffix: string)
    ensures a + "." + b + "." + c + suffix == a + ("." + (b + "." + c + suffix))
  {
  }

  lemma ParseMajorOf(major: nat, minor: nat, patch: nat, suffix: string)
    requires suffix == [] || !IsDigit(suffix[0])
    ensures ParseMajor(NatToString(major) + "." + NatToString(minor) + "." + NatToString(patch) + suffix) ==
      ParsePrerelease(major, minor, patch, suffix)
  {
    var t := NatToString(minor) + "." + NatToString(patch) + suffix;
    var rest := "." + t;
    DottedAssoc3(NatToString(major), NatToString(minor), NatToString(patch), suffix);
    ParseNumberOfNatToString(major, rest);
    assert rest[1..] == t;
    ParseMinorOf(major, minor, patch, suffix);
  }

  /** Rendering a version and parsing it back gives the same version. */
  lemma ParseOfFormat(major: nat, minor: nat, patch: nat, prerelease: seq<string>)
    requires PrereleaseIdents(prerelease)
    ensures Parse(Format(major, minor, patch, prerelease)) == Valid(major, minor, patch, prerelease)
  {
    var suffix := PrereleaseSuffix(prerelease);
    var v := Format(major, minor, patch, prerelease);
    var tail := NatToString(major) + "." + NatToString(minor) + "." + NatToString(patch) + suffix;
    assert v == "v" + tail;
    assert v[1..] == tail;
    ParseMajorOf(major, minor, patch, suffix);
    ParsePrereleaseOfSuffix(major, minor, patch, prerelease);
  }

  lemma DropV(t: string)
    ensures ("v" + t)[1..] == t
  {
  }

  lemma ShorthandMinorAssoc(a: string, t: string)
    ensures "v" + a + "." + t == "v" + (a + ("." + t))
  {
  }

  /** Build metadata after the prerelease is accepted and then ignored. */
  lemma ParsePrereleaseThenBuild(major: nat, minor: nat, patch: nat, prerelease: seq<string>, build: seq<string>)
    requires PrereleaseIdents(prerelease)
    requires build != [] && BuildIdents(build)
    ensures ParsePrerelease(major, minor, patch, PrereleaseSuffix(prerelease) + ("+" + GoStrings.Join(build, '.'))) ==
      Valid(major, minor, patch, prerelease)
  {
    var b := "+" + GoStrings.Join(build, '.');
    var jb := GoStrings.Join(build, '.');
    IdentsWithout(build);
    GoStrings.SplitJoin(build, '.');
    assert b[1..] == jb;
    if prerelease != [] {
      var jp := GoStrings.Join(prerelease, '.');
      var s := "-" + jp + b;
      assert PrereleaseSuffix(prerelease) + b == s;
      IdentsWithout(prerelease);
      GoStrings.JoinWithout(prerelease, '.', '+');
      GoStrings.IndexOfIs(s, '+', |jp| + 1);
      assert s[1..|jp| + 1] == jp;
      assert s[|jp| + 1..] == b;
      GoStrings.SplitJoin(prerelease, '.');
    } else {
      assert PrereleaseSuffix(prerelease) + b == b;
    }
  }

  lemma BuildAssoc(a: string, b: string, c: string, p: string, j: string)
    ensures "v" + a + "." + b + "." + c + p + "+" + j == "v" + (a + "." + b + "." + c + (p + ("+" + j)))
  {
  }

  /** A version with build metadata parses as the version without it. */
  lemma ParseOfFormatWithBuild(major: nat, minor: nat, patch: nat, prerelease: seq<string>, build: seq<string>)
    requires PrereleaseIdents(prerelease)
    requires build != [] && BuildIdents(build)
    ensures Parse(Format(major, minor, patch, prerelease) + "+" + GoStrings.Join(build, '.')) ==
      Valid(major, minor, patch, prerelease)
  {
    var a, b, c := NatToString(major), NatToString(minor), NatToString(patch);
    var p, j := PrereleaseSuffix(prerelease), GoStrings.Join(build, '.');
    var suffix := p + ("+" + j);
    var tail := a + "." + b + "." + c + suffix;
    BuildAssoc(a, b, c, p, j);
    DropV(tail);
    ParseMajorOf(major, minor, patch, suffix);
    ParsePrereleaseThenBuild(major, minor, patch, prerelease, build);
  }

  /** The shorthand vMAJOR stands for vMAJOR.0.0. */
  lemma ParseShorthandMajor(major: nat)
    ensures Parse("v" + NatToString(major)) == Valid(major, 0, 0, [])
  {
    var s := NatToString(major);
    assert ("v" + s)[1..] == s + "";
    ParseNumberOfNatToString(major, "");
  }

  /** The shorthand vMAJOR.MINOR stands for vMAJOR.MINOR.0. */
  lemma ParseShorthandMinor(major: nat, minor: nat)
    ensures Parse("v" + NatToString(major) + "." + NatToString(minor)) == Valid(major, minor, 0, [])
  {
    var t := NatToString(minor);
    var rest := "." + t;
    ShorthandMinorAssoc(NatToString(major), t);
    DropV(NatToString(major) + rest);
    ParseNumberOfNatToString(major, rest);
    assert rest[1..] == t + "";
    ParseNumberOfNatToString(minor, "");
  }

  // ---------------------------------------------------------------------
  // Precedence is a total order

  lemma {:induction false} LessStringIrreflexive(a: string)
    ensures !LessString(a, a)
    decreases |a|
  {
    if a != [] {
      LessStringIrreflexive(a[1..]);
    }
  }

  /** Of two distinct strings exactly one is below the other. */
  lemma {:induction false} LessStringTrichotomy(a: string, b: string)
    ensures LessString(a, b) ==> !LessString(b, a)
    ensures a != b ==> LessString(a, b) || LessString(b, a)
    decreases |a|
  {
    if a != [] && b != [] && a[0] == b[0] {
      LessStringTrichotomy(a[1..], b[1..]);
      assert a == [a[0]] + a[1..] && b == [b[0]] + b[1..];
    }
  }

  lemma {:induction false} LessStringTransitive(a: string, b: string, c: string)
    requires LessString(a, b) && LessString(b, c)
    ensures LessString(a, c)
    decreases |a|
  {
    if a != [] && a[0] == b[0] && b[0] == c[0] {
      LessStringTransitive(a[1..], b[1..], c[1..]);
    }
  }

  lemma CompareIdentAntisymmetric(dx: string, dy: string)
    ensures CompareIdent(dx, dy) == -CompareIdent(dy, dx)
  {
    LessStringTrichotomy(dx, dy);
  }

  lemma CompareIdentTransitive(a: string, b: string, c: string)
    requires CompareIdent(a, b) < 0 && CompareIdent(b, c) < 0
    ensures CompareIdent(a, c) < 0
  {
    CompareIdentAntisymmetric(a, b);
    CompareIdentAntisymmetric(b, c);
    if LessString(a, b) && LessString(b, c) {
      LessStringTransitive(a, b, c);
    }
    LessStringTrichotomy(a, c);
  }

  /** Digit strings of one length are in Go's string order exactly when their numbers are ordered. */
  lemma {:induction false} SameLengthLess(x: string, y: string)
    requires AllDigits(x) && AllDigits(y) && |x| == |y|
    ensures LessString(x, y) <==> DigitsValue(x) < DigitsValue(y)
    decreases |x|
  {
    if x != [] {
      if x[0] < y[0] {
        SameLengthOrder(x, y);
      } else if y[0] < x[0] {
        SameLengthOrder(y, x);
      } else {
        SameLengthLess(x[1..], y[1..]);
        DigitsValueFirst(x);
        DigitsValueFirst(y);
      }
    }
  }

  /** Numeric identifiers (no superfluous leading zero) are compared numerically. */
  lemma NumericIdentsByValue(dx: string, dy: string)
    requires Canonical(dx) && Canonical(dy)
    ensures CompareIdent(dx, dy) < 0 <==> DigitsValue(dx) < DigitsValue(dy)
  {
    if |dx| < |dy| {
      ShorterIsSmaller(dx, dy);
    } else if |dy| < |dx| {
      ShorterIsSmaller(dy, dx);
    } else {
      SameLengthLess(dx, dy);
    }
  }

  lemma {:induction false} CompareIdentListsAntisymmetric(x: seq<string>, y: seq<string>)
    ensures CompareIdentLists(x, y) == -CompareIdentLists(y, x)
    decreases |x|
  {
    if x != [] && y != [] {
      if x[0] != y[0] {
        CompareIdentAntisymmetric(x[0], y[0]);
      } else {
        CompareIdentListsAntisymmetric(x[1..], y[1..]);
      }
    }
  }

  lemma {:induction false} CompareIdentListsTransitive(x: seq<string>, y: seq<string>, z: seq<string>)
    requires CompareIdentLists(x, y) < 0 && CompareIdentLists(y, z) < 0
    ensures CompareIdentLists(x, z) < 0
    decreases |x|
  {
    if x != [] {
      if x[0] != y[0] && y[0] != z[0] {
        CompareIdentTransitive(x[0], y[0], z[0]);
      } else if x[0] == y[0] && y[0] == z[0] {
        CompareIdentListsTransitive(x[1..], y[1..], z[1..]);
      }
    }
  }

  lemma ComparePrereleaseAntisymmetric(x: seq<string>, y: seq<string>)
    ensures ComparePrerelease(x, y) == -ComparePrerelease(y, x)
  {
    CompareIdentListsAntisymmetric(x, y);
  }

  lemma ComparePrereleaseTransitive(x: seq<string>, y: seq<string>, z: seq<string>)
    requires ComparePrerelease(x, y) < 0 && ComparePrerelease(y, z) < 0
    ensures ComparePrerelease(x, z) < 0
  {
    if x != [] && y != [] && z != [] {
      CompareIdentListsTransitive(x, y, z);
    }
  }

  /** Comparison of parsed versions is antisymmetric, and 0 exactly for equal versions. */
  lemma CompareVersionsAntisymmetric(x: Version, y: Version)
    ensures CompareVersions(x, y) == -CompareVersions(y, x)
    ensures CompareVersions(x, y) == 0 <==> x == y
  {
    if x.Valid? && y.Valid? {
      ComparePrereleaseAntisymmetric(x.prerelease, y.prerelease);
    }
  }

  lemma CompareVersionsTransitive(x: Version, y: Version, z: Version)
    ensures CompareVersions(x, y) < 0 && CompareVersions(y, z) < 0 ==> CompareVersions(x, z) < 0
    ensures CompareVersions(x, y) <= 0 && CompareVersions(y, z) <= 0 ==> CompareVersions(x, z) <= 0
  {
    CompareVersionsAntisymmetric(x, y);
    CompareVersionsAntisymmetric(y, z);
    if x.Valid? && y.Valid? && z.Valid? && x.major == y.major == z.major && x.minor == y.minor == z.minor
      && x.patch == y.patch == z.patch && ComparePrerelease(x.prerelease, y.prerelease) < 0
      && ComparePrerelease(y.prerelease, z.prerelease) < 0
    {
      ComparePrereleaseTransitive(x.prerelease, y.prerelease, z.prerelease);
    }
  }

  /** Comparison is antisymmetric, and 0 exactly for strings that parse alike. */
  lemma CompareAntisymmetric(v: string, w: string)
    ensures Compare(v, w) == -Compare(w, v)
    ensures Compare(v, w) == 0 <==> Parse(v) == Parse(w)
  {
    CompareVersionsAntisymmetric(Parse(v), Parse(w));
  }

  /** Comparison is transitive. */
  lemma CompareTransitive(u: string, v: string, w: string)
    ensures Compare(u, v) < 0 && Compare(v, w) < 0 ==> Compare(u, w) < 0
    ensures Compare(u, v) <= 0 && Compare(v, w) <= 0 ==> Compare(u, w) <= 0
  {
    CompareVersionsTransitive(Parse(u), Parse(v), Parse(w));
  }

  // ---------------------------------------------------------------------
  // Precedence of spelled-out versions

  lemma CompareParsed(v: string, w: string, x: Version, y: Version)
    requires Parse(v) == x && Parse(w) == y
    ensures Compare(v, w) == CompareVersions(x, y)
  {
  }

  /** Formatted releases compare as their (major, minor, patch) triples do lexicographically. */
  lemma CompareFormatted(a1: nat, b1: nat, c1: nat, a2: nat, b2: nat, c2: nat)
    ensures Compare(Format(a1, b1, c1, []), Format(a2, b2, c2, [])) < 0 <==>
      (a1 < a2 || (a1 == a2 && (b1 < b2 || (b1 == b2 && c1 < c2))))
  {
    ParseOfFormat(a1, b1, c1, []);
    ParseOfFormat(a2, b2, c2, []);
    CompareParsed(Format(a1, b1, c1, []), Format(a2, b2, c2, []), Valid(a1, b1, c1, []), Valid(a2, b2, c2, []));
  }

  /** A prerelease is below the release of the same numbers. */
  lemma PrereleaseBelowRelease(major: nat, minor: nat, patch: nat, prerelease: seq<string>)
    requires prerelease != [] && PrereleaseIdents(prerelease)
    ensures Compare(Format(major, minor, patch, prerelease), Format(major, minor, patch, [])) < 0
  {
    ParseOfFormat(major, minor, patch, prerelease);
    ParseOfFormat(major, minor, patch, []);
    CompareParsed(Format(major, minor, patch, prerelease), Format(major, minor, patch, []),
      Valid(major, minor, patch, prerelease), Valid(major, minor, patch, []));
  }

  /** A prerelease is above every release with a lower patch number. */
  lemma PrereleaseAboveLowerPatch(major: nat, minor: nat, patch: nat, lower: nat, prerelease: seq<string>)
    requires lower < patch && PrereleaseIdents(prerelease)
    ensures Compare(Format(major, minor, lower, []), Format(major, minor, patch, prerelease)) < 0
  {
    ParseOfFormat(major, minor, lower, []);
    ParseOfFormat(major, minor, patch, prerelease);
    CompareParsed(Format(major, minor, lower, []), Format(major, minor, patch, prerelease),
      Valid(major, minor, lower, []), Valid(major, minor, patch, prerelease));
  }

  /** The example chain of section 11 of Semantic Versioning 2.0.0, 1.0.0-alpha up to 1.0.0. */
  lemma PrecedenceExamples()
    ensures CompareVersions(Valid(1, 0, 0, ["alpha"]), Valid(1, 0, 0, ["alpha", "1"])) < 0
    ensures CompareVersions(Valid(1, 0, 0, ["alpha", "1"]), Valid(1, 0, 0, ["alpha", "beta"])) < 0
    ensures CompareVersions(Valid(1, 0, 0, ["alpha", "beta"]), Valid(1, 0, 0, ["beta"])) < 0
    ensures CompareVersions(Valid(1, 0, 0, ["beta"]), Valid(1, 0, 0, ["beta", "2"])) < 0
    ensures CompareVersions(Valid(1, 0, 0, ["beta", "2"]), Valid(1, 0, 0, ["beta", "11"])) < 0
    ensures CompareVersions(Valid(1, 0, 0, ["beta", "11"]), Valid(1, 0, 0, ["rc", "1"])) < 0
    ensures CompareVersions(Valid(1, 0, 0, ["rc", "1"]), Valid(1, 0, 0, [])) < 0
  {
    assert LessString("alpha", "beta") && LessString("beta", "rc");
  }
}
