/** The release-version arithmetic of scripts/version.js: the current
    version is the latest git tag with its first `v` removed (or `0.1.0` when
    there is no tag), and the next version bumps one of its three
    dot-separated components. The components are read with JavaScript's
    `Number`, so a blank one reads as 0 and a missing one as `undefined`,
    and both `NaN` and `undefined` print as words in the result. */
module Version {
  import opened Wrappers
  import opened Strings

  /** A JavaScript value as far as the script uses it. */
  datatype JsValue = Num(n: nat) | NaN | Undefined

  /** `Number(s)` for the texts the model reads: blank is 0, a run of
      decimal digits (white space around it allowed) is its exact value,
      with no rounding to a double, and anything else is `NaN`. */
  function Number(s: string): (r: JsValue)
    ensures Trim(s) == "" ==> r == Num(0)
    ensures Trim(s) != "" && IsDigits(Trim(s)) ==> r == Num(DigitsValue(Trim(s)))
    ensures r.Undefined? == false
  {
    var t := Trim(s);
    if t == "" then Num(0) else if IsDigits(t) then Num(DigitsValue(t)) else NaN
  }

  /** `v + 1`: `NaN` for anything that is not a number. */
  function Plus1(v: JsValue): (r: JsValue)
    ensures v.Num? <==> r.Num?
    ensures v.Num? ==> r.n == v.n + 1
  {
    match v
    case Num(n) => Num(n + 1)
    case _ => NaN
  }

  /** `${v}` in a template literal. */
  function Show(v: JsValue): (r: string)
    ensures v.Num? ==> r == NatToString(v.n)
    ensures v.NaN? ==> r == "NaN"
    ensures v.Undefined? ==> r == "undefined"
  {
    match v
    case Num(n) => NatToString(n)
    case NaN => "NaN"
    case Undefined => "undefined"
  }

  /** Element `i` of an array, or `undefined` past its end. */
  function At(parts: seq<JsValue>, i: nat): JsValue {
    if i < |parts| then parts[i] else Undefined
  }

  /** `version.split('.').map(Number)`. */
  function Components(version: string): (r: seq<JsValue>)
    ensures |r| == |Split(version, '.')| && |r| >= 1
    ensures forall k :: 0 <= k < |r| ==> r[k] == Number(Split(version, '.')[k])
  {
    var parts := Split(version, '.');
    seq(|parts|, k requires 0 <= k < |parts| => Number(parts[k]))
  }

  /** `incrementVersion(version, type)`; an omitted type is `'patch'`, and
      any type other than `'major'` and `'minor'` bumps the patch. Whatever
      the input, the result has three dot-separated parts. */
  function IncrementVersion(version: string, kind: Option<string>): (r: string)
    ensures |Split(r, '.')| == 3
  {
    var c := Components(version);
    Bump(At(c, 0), At(c, 1), At(c, 2), kind.GetOr("patch"))
  }

  /** The template `incrementVersion` fills for each type: `major` bumps the
      first part and zeroes the others, `minor` keeps the first, bumps the
      second and zeroes the third, anything else bumps only the third. The
      three printed parts hold no dot, so the result splits back into them. */
  function Bump(major: JsValue, minor: JsValue, patch: JsValue, kind: string): (r: string)
    ensures |Split(r, '.')| == 3
    ensures kind == "major" ==> Split(r, '.') == [Show(Plus1(major)), "0", "0"]
    ensures kind == "minor" ==> Split(r, '.') == [Show(major), Show(Plus1(minor)), "0"]
    ensures kind != "major" && kind != "minor" ==> Split(r, '.') == [Show(major), Show(minor), Show(Plus1(patch))]
  {
    ShowHasNoDot(major);
    ShowHasNoDot(minor);
    ShowHasNoDot(Plus1(major));
    ShowHasNoDot(Plus1(minor));
    ShowHasNoDot(Plus1(patch));
    if kind == "major" then
      ThreeParts(Show(Plus1(major)), "0", "0");
      Dotted(Show(Plus1(major)), "0", "0")
    else if kind == "minor" then
      ThreeParts(Show(major), Show(Plus1(minor)), "0");
      Dotted(Show(major), Show(Plus1(minor)), "0")
    else
      ThreeParts(Show(major), Show(minor), Show(Plus1(patch)));
      Dotted(Show(major), Show(minor), Show(Plus1(patch)))
  }

  /** The template `${a}.${b}.${c}`. */
  function Dotted(a: string, b: string, c: string): string {
    a + "." + b + "." + c
  }

  /** A printed value holds no dot. */
  lemma ShowHasNoDot(v: JsValue)
    ensures '.' !in Show(v)
  {
    if v.Num? {
      DecimalHasNoDot(v.n);
    }
  }

  /** Three dot-free parts joined by dots split back into those parts. */
  lemma ThreeParts(a: string, b: string, c: string)
    requires '.' !in a && '.' !in b && '.' !in c
    ensures Split(Dotted(a, b, c), '.') == [a, b, c]
  {
    SplitJoin([a, b, c], '.');
    assert Join([b, c], ".") == b + "." + c;
    assert Join([a, b, c], ".") == a + "." + b + "." + c;
  }

  lemma SeqOfThree<T>(r: seq<T>, x: T, y: T, z: T)
    requires |r| == 3 && r[0] == x && r[1] == y && r[2] == z
    ensures r == [x, y, z]
  {
  }

  /** The text of a numeric version. */
  function VersionText(major: nat, minor: nat, patch: nat): string {
    Dotted(NatToString(major), NatToString(minor), NatToString(patch))
  }

  /** Reading the decimal text of `n` gives `n`. */
  lemma NumberOfDecimal(n: nat)
    ensures Number(NatToString(n)) == Num(n)
  {
    var s := NatToString(n);
    TrimOfTrimmed(s);
    NatToStringRoundTrip(n);
  }

  /** A decimal text holds no dot, so it is one component. */
  lemma DecimalHasNoDot(n: nat)
    ensures '.' !in NatToString(n)
  {
    var s := NatToString(n);
    forall j | 0 <= j < |s| ensures s[j] != '.' {
      assert IsDigit(s[j]);
    }
  }

  /** A numeric version text splits at its dots into its three decimal texts. */
  lemma SplitVersionText(major: nat, minor: nat, patch: nat)
    ensures Split(VersionText(major, minor, patch), '.')
         == [NatToString(major), NatToString(minor), NatToString(patch)]
  {
    DecimalHasNoDot(major);
    DecimalHasNoDot(minor);
    DecimalHasNoDot(patch);
    ThreeParts(NatToString(major), NatToString(minor), NatToString(patch));
  }

  /** A numeric version text reads back as its three components. */
  lemma ComponentsOfText(major: nat, minor: nat, patch: nat)
    ensures Components(VersionText(major, minor, patch)) == [Num(major), Num(minor), Num(patch)]
  {
    SplitVersionText(major, minor, patch);
    NumberOfDecimal(major);
    NumberOfDecimal(minor);
    NumberOfDecimal(patch);
    ComponentsOfThree(VersionText(major, minor, patch), NatToString(major), NatToString(minor), NatToString(patch));
  }

  /** A text of three dot-separated pieces reads as the three pieces' values. */
  lemma ComponentsOfThree(v: string, a: string, b: string, c: string)
    requires Split(v, '.') == [a, b, c]
    ensures Components(v) == [Number(a), Number(b), Number(c)]
  {
    var p := Split(v, '.');
    var r := Components(v);
    assert r[0] == Number(p[0]);
    assert r[1] == Number(p[1]);
    assert r[2] == Number(p[2]);
    SeqOfThree(r, Number(a), Number(b), Number(c));
  }

  /** A numeric version is bumped component-wise. */
  lemma IncrementNumeric(major: nat, minor: nat, patch: nat, kind: Option<string>)
    ensures IncrementVersion(VersionText(major, minor, patch), kind)
         == Bump(Num(major), Num(minor), Num(patch), kind.GetOr("patch"))
  {
    ComponentsOfText(major, minor, patch);
  }

  /** `'major'` bumps the major component and resets the others. */
  lemma BumpMajor(major: nat, minor: nat, patch: nat, kind: Option<string>)
    requires kind.GetOr("patch") == "major"
    ensures IncrementVersion(VersionText(major, minor, patch), kind) == VersionText(major + 1, 0, 0)
  {
    IncrementNumeric(major, minor, patch, kind);
    assert Show(Plus1(Num(major))) == NatToString(major + 1);
    assert NatToString(0) == "0";
  }

  /** `'minor'` keeps the major component, bumps the minor and resets the patch. */
  lemma BumpMinor(major: nat, minor: nat, patch: nat, kind: Option<string>)
    requires kind.GetOr("patch") == "minor"
    ensures IncrementVersion(VersionText(major, minor, patch), kind) == VersionText(major, minor + 1, 0)
  {
    IncrementNumeric(major, minor, patch, kind);
    assert Show(Num(major)) == NatToString(major);
    assert Show(Plus1(Num(minor))) == NatToString(minor + 1);
    assert NatToString(0) == "0";
  }

  /** Any other type, `'patch'` and an omitted one included, bumps the patch
      only. */
  lemma BumpPatch(major: nat, minor: nat, patch: nat, kind: Option<string>)
    requires kind.GetOr("patch") != "major" && kind.GetOr("patch") != "minor"
    ensures IncrementVersion(VersionText(major, minor, patch), kind) == VersionText(major, minor, patch + 1)
  {
    IncrementNumeric(major, minor, patch, kind);
    assert Show(Num(major)) == NatToString(major);
    assert Show(Num(minor)) == NatToString(minor);
    assert Show(Plus1(Num(patch))) == NatToString(patch + 1);
  }

  /** Lexicographic order of (major, minor, patch). */
  predicate Before(a: (nat, nat, nat), b: (nat, nat, nat)) {
    a.0 < b.0 || (a.0 == b.0 && (a.1 < b.1 || (a.1 == b.1 && a.2 < b.2)))
  }

  /** Whatever the type, the next version of a numeric version is a
      numeric version that comes strictly after it. */
  lemma BumpIncreases(major: nat, minor: nat, patch: nat, kind: Option<string>)
    ensures exists a: nat, b: nat, c: nat ::
      IncrementVersion(VersionText(major, minor, patch), kind) == VersionText(a, b, c)
      && Before((major, minor, patch), (a, b, c))
  {
    var k := kind.GetOr("patch");
    if k == "major" {
      BumpMajor(major, minor, patch, kind);
      assert Before((major, minor, patch), (major + 1, 0, 0));
    } else if k == "minor" {
      BumpMinor(major, minor, patch, kind);
      assert Before((major, minor, patch), (major, minor + 1, 0));
    } else {
      BumpPatch(major, minor, patch, kind);
      assert Before((major, minor, patch), (major, minor, patch + 1));
    }
  }

  /** A version with no minor or patch part still gives text: the missing
      parts print as `undefined` and `NaN`. */
  lemma MissingComponents(major: nat)
    ensures IncrementVersion(NatToString(major), None) == NatToString(major) + "." + "undefined" + "." + "NaN"
  {
    var s := NatToString(major);
    DecimalHasNoDot(major);
    SplitNoSeparator(s, '.');
    NumberOfDecimal(major);
    var c := Components(s);
    assert c == [Num(major)];
    assert IncrementVersion(s, None) == Dotted(Show(At(c, 0)), Show(At(c, 1)), Show(Plus1(At(c, 2))));
    assert Show(At(c, 1)) == "undefined" && Show(Plus1(At(c, 2))) == "NaN";
  }

  /** `getLatestGitTag`: the output of `git describe` trimmed, with its
      first `v` removed; `0.1.0` when the command fails (`None`). */
  function LatestVersion(describe: Option<string>): (r: string)
    ensures describe.None? ==> r == "0.1.0"
    ensures describe.Some? ==> var s := Trim(describe.value);
      && (Absent(s, "v") ==> r == s)
      && (forall i: nat {:trigger FirstAt(s, "v", i)} :: FirstAt(s, "v", i) ==> r == s[..i] + s[i + 1..])
  {
    match describe
    case None => "0.1.0"
    case Some(out) =>
      var s := Trim(out);
      FirstVRemoved(s);
      ReplaceFirst(s, "v", "")
  }

  /** Removing the first `v` of a text keeps what is before and after it. */
  lemma FirstVRemoved(s: string)
    ensures forall i: nat {:trigger FirstAt(s, "v", i)} :: FirstAt(s, "v", i) ==> ReplaceFirst(s, "v", "") == s[..i] + s[i + 1..]
  {
    forall i: nat | FirstAt(s, "v", i)
      ensures ReplaceFirst(s, "v", "") == s[..i] + s[i + 1..]
    {
      ReplaceAt(s, "v", "", i);
      assert s[..i] + "" == s[..i];
    }
  }

  /** A tag `v` + version gives the version. */
  lemma TagPrefixRemoved(version: string)
    requires IsTrimmed("v" + version)
    ensures LatestVersion(Some("v" + version)) == version
  {
    TrimOfTrimmed("v" + version);
    ReplaceLeading("v", version, "");
  }

  /** Only the first `v` goes: a tag with no leading `v` loses the first one
      it has elsewhere. */
  lemma FirstVOnly()
    ensures LatestVersion(Some("1.0.0-dev")) == "1.0.0-de"
  {
    var s := "1.0.0-dev";
    TrimOfTrimmed(s);
    assert OccursAt(s, "v", 8);
    forall j: nat | j < 8 ensures !OccursAt(s, "v", j) {
      assert s[j] != 'v';
    }
    ReplaceAt(s, "v", "", 8);
  }
}
