/** Semantic versions as the grunt task sees them: the parsed value the `semver` library hands back,
    its rendering (`format`, tasks/semver.js:36-49) and the removal of one identifier sequence
    (`strip`, tasks/semver.js:57-63). The identifier grammar is the one of SemVer 2.0.0
    (section 9 for pre-release, section 10 for build metadata). */
module Versions {
  import opened Wrappers
  import opened Strings

  /** A parsed version: three numbers and two possibly empty identifier sequences. */
  datatype Version = Version(
    major: nat,
    minor: nat,
    patch: nat,
    prerelease: seq<string>,
    build: seq<string>)

  /** The identifier sequences `strip` may clear. */
  datatype StripPart = Prerelease | Build

  /** The increments `bump` accepts. */
  datatype BumpPart = Major | Minor | Patch | Pre

  /** Characters allowed in an identifier: ASCII alphanumerics and hyphen. */
  predicate IdentifierChar(c: char) {
    '0' <= c <= '9' || 'a' <= c <= 'z' || 'A' <= c <= 'Z' || c == '-'
  }

  /** A non-empty identifier made of allowed characters. */
  predicate IsIdentifier(s: string) {
    |s| > 0 && forall i :: 0 <= i < |s| ==> IdentifierChar(s[i])
  }

  predicate AllIdentifiers(ids: seq<string>) {
    forall i :: 0 <= i < |ids| ==> IsIdentifier(ids[i])
  }

  /** A pre-release identifier that is numeric has no leading zero. */
  predicate IsPrereleaseIdentifier(s: string) {
    IsIdentifier(s) && (AllDigits(s) ==> s == "0" || s[0] != '0')
  }

  /** What the library's parser guarantees of every version it returns. */
  predicate WellFormed(v: Version) {
    && (forall i :: 0 <= i < |v.prerelease| ==> IsPrereleaseIdentifier(v.prerelease[i]))
    && AllIdentifiers(v.build)
  }

  /** The library's own `version.format()`: `major.minor.patch`, then `-` and the dot-joined
      pre-release identifiers when there are any. Build metadata is not part of it. */
  function Render(v: Version): string {
    NatToString(v.major) + "." + NatToString(v.minor) + "." + NatToString(v.patch)
    + (if |v.prerelease| > 0 then "-" + Join(v.prerelease, '.') else "")
  }

  /** The grunt task's `format`: the library rendering followed by `+` and the dot-joined build
      identifiers, the latter only when there is build metadata. */
  function Format(v: Version): (r: string)
    ensures Render(v) <= r
    ensures r == Render(v) <==> |v.build| == 0
    ensures |v.build| > 0 ==> r[|Render(v)|] == '+' && r[|Render(v)| + 1..] == Join(v.build, '.')
  {
    if |v.build| > 0 then Render(v) + "+" + Join(v.build, '.') else Render(v)
  }

  /** `strip(version, part)`: clears the named identifier sequence of a present version for a
      present part; anything absent is handed back as it came. */
  function Strip(version: Option<Version>, part: Option<StripPart>): (r: Option<Version>)
    ensures r.Some? <==> version.Some?
    ensures version.None? || part.None? ==> r == version
    ensures version.Some? && part.Some? ==>
      && r.value.major == version.value.major
      && r.value.minor == version.value.minor
      && r.value.patch == version.value.patch
      && r.value.prerelease == (if part.value == Prerelease then [] else version.value.prerelease)
      && r.value.build == (if part.value == Build then [] else version.value.build)
  {
    if version.Some? && part.Some? then
      match part.value
      case Prerelease => Some(version.value.(prerelease := []))
      case Build => Some(version.value.(build := []))
    else
      version
  }

  function StripPartName(p: StripPart): string {
    match p
    case Prerelease => "prerelease"
    case Build => "build"
  }

  /** The `strip` whitelist: exactly the names "prerelease" and "build" are accepted. */
  function ParseStripPart(part: Option<string>): (r: Option<StripPart>)
    ensures r.Some? <==> part == Some("prerelease") || part == Some("build")
    ensures r.Some? ==> part == Some(StripPartName(r.value))
  {
    if part == Some("prerelease") then Some(Prerelease)
    else if part == Some("build") then Some(Build)
    else None
  }

  function BumpPartName(p: BumpPart): string {
    match p
    case Major => "major"
    case Minor => "minor"
    case Patch => "patch"
    case Pre => "prerelease"
  }

  /** The `bump` whitelist: exactly "major", "minor", "patch" and "prerelease" are accepted. */
  function ParseBumpPart(part: Option<string>): (r: Option<BumpPart>)
    ensures r.Some? <==>
      part == Some("major") || part == Some("minor") || part == Some("patch") || part == Some("prerelease")
    ensures r.Some? ==> part == Some(BumpPartName(r.value))
  {
    match part
    case Some("major") => Some(Major)
    case Some("minor") => Some(Minor)
    case Some("patch") => Some(Patch)
    case Some("prerelease") => Some(Pre)
    case _ => None
  }

  /** Every bump part's name is accepted back as that part. */
  lemma BumpPartNamesRoundTrip(b: BumpPart)
    ensures ParseBumpPart(Some(BumpPartName(b))) == Some(b)
  {
  }

  /** Every strip part's name is accepted back as that part. */
  lemma StripPartNamesRoundTrip(s: StripPart)
    ensures ParseStripPart(Some(StripPartName(s))) == Some(s)
  {
  }

  /** Stripping twice is stripping once. */
  lemma StripIdempotent(version: Option<Version>, part: Option<StripPart>)
    ensures Strip(Strip(version, part), part) == Strip(version, part)
  {
  }

  /** The two strips commute and together clear both identifier sequences. */
  lemma StripCommutes(v: Version)
    ensures Strip(Strip(Some(v), Some(Prerelease)), Some(Build))
         == Strip(Strip(Some(v), Some(Build)), Some(Prerelease))
         == Some(v.(prerelease := [], build := []))
  {
  }

  /** Stripping keeps a version well formed. */
  lemma StripWellFormed(v: Version, part: StripPart)
    requires WellFormed(v)
    ensures WellFormed(Strip(Some(v), Some(part)).value)
  {
  }

  /** A version without build metadata formats exactly as the library renders it; in
      particular a build-stripped version loses its `+…` suffix and nothing else. */
  lemma FormatOfBuildStripped(v: Version)
    ensures Format(Strip(Some(v), Some(Build)).value) == Render(v)
  {
  }

  /** The text before the first `+` (all of it when there is none). */
  function BaseOf(s: string): (b: string)
    ensures b <= s
  {
    if '+' !in s then s else s[..IndexOf(s, '+')]
  }

  /** The dot-separated identifiers after the first `+` (none when there is no `+`). */
  function BuildOf(s: string): seq<string> {
    if '+' !in s then [] else Split(s[IndexOf(s, '+') + 1..], '.')
  }

  /** Text with no `+` of its own, followed by `+` and a suffix, splits back at that `+`. */
  lemma SuffixAfterPlus(c: string, b: string)
    ensures var t := c + "+" + b;
      && '+' in t && |t| > |b| && t[|t| - |b|..] == b
      && ('+' !in c ==> BaseOf(t) == c && BuildOf(t) == Split(b, '.'))
  {
    var t := c + "+" + b;
    assert t[|c|] == '+';
    assert t[|t| - |b|..] == b;
    if '+' !in c {
      assert t[..|c|] == c;
      IndexOfUnique(t, '+', |c|);
      assert t[|c| + 1..] == b;
    }
  }

  lemma NoSymbolInNumber(n: nat, c: char)
    requires !IsDigit(c)
    ensures c !in NatToString(n)
  {
  }

  lemma {:induction false} NoSymbolInJoin(ids: seq<string>, sep: char, c: char)
    requires c != sep
    requires forall i :: 0 <= i < |ids| ==> c !in ids[i]
    ensures c !in Join(ids, sep)
    decreases |ids|
  {
    if |ids| > 1 {
      NoSymbolInJoin(ids[1..], sep, c);
    }
  }

  lemma NoSymbolInIdentifiers(ids: seq<string>, c: char)
    requires AllIdentifiers(ids)
    requires !IdentifierChar(c)
    ensures forall i :: 0 <= i < |ids| ==> c !in ids[i]
  {
  }

  /** The library rendering of a well-formed version never contains `+`. */
  lemma NoPlusInRender(v: Version)
    requires WellFormed(v)
    ensures '+' !in Render(v)
  {
    NoSymbolInNumber(v.major, '+');
    NoSymbolInNumber(v.minor, '+');
    NoSymbolInNumber(v.patch, '+');
    assert AllIdentifiers(v.prerelease);
    NoSymbolInIdentifiers(v.prerelease, '+');
    NoSymbolInJoin(v.prerelease, '.', '+');
  }

  /** Formatting loses nothing: the first `+` of a formatted well-formed version separates the
      library rendering from the build identifiers, which read back exactly. */
  lemma FormatSeparatesBuild(v: Version)
    requires WellFormed(v)
    ensures BaseOf(Format(v)) == Render(v)
    ensures BuildOf(Format(v)) == v.build
  {
    NoPlusInRender(v);
    if |v.build| > 0 {
      var s := Format(v);
      var base := Render(v);
      assert s[..|base|] == base;
      IndexOfUnique(s, '+', |base|);
      NoSymbolInIdentifiers(v.build, '.');
      SplitJoin(v.build, '.');
    }
  }

  /** A number followed by a non-digit separator reads back as that number. */
  lemma NumberCut(n1: nat, r1: string, n2: nat, r2: string, c: char)
    requires !IsDigit(c)
    requires NatToString(n1) + [c] + r1 == NatToString(n2) + [c] + r2
    ensures n1 == n2 && r1 == r2
  {
    NoSymbolInNumber(n1, c);
    NoSymbolInNumber(n2, c);
    CutAtFirst(NatToString(n1), r1, NatToString(n2), r2, c);
    DigitsValueOfNatToString(n1);
    DigitsValueOfNatToString(n2);
  }

  /** The pre-release identifiers of a well-formed version read back from their joined text. */
  lemma PrereleaseReadsBack(v: Version)
    requires WellFormed(v)
    requires |v.prerelease| > 0
    ensures Split(Join(v.prerelease, '.'), '.') == v.prerelease
  {
    assert AllIdentifiers(v.prerelease);
    NoSymbolInIdentifiers(v.prerelease, '.');
    SplitJoin(v.prerelease, '.');
  }

  /** The part of the library rendering that follows the patch number. */
  function PrereleaseTail(pre: seq<string>): string {
    if |pre| > 0 then "-" + Join(pre, '.') else ""
  }

  lemma Regroup(a: string, b: string, c: string, d: string, sep: char)
    ensures a + [sep] + b + [sep] + c + d == a + [sep] + (b + [sep] + (c + d))
  {
  }

  /** The rendering cut at its two dots. */
  lemma RenderShape(v: Version)
    ensures Render(v) == NatToString(v.major) + "." + (NatToString(v.minor) + "." + (NatToString(v.patch) + PrereleaseTail(v.prerelease)))
  {
    Regroup(NatToString(v.major), NatToString(v.minor), NatToString(v.patch), PrereleaseTail(v.prerelease), '.');
  }

  /** A `-` after the patch number appears exactly when there are pre-release identifiers. */
  lemma DashMarksPrerelease(n: nat, pre: seq<string>)
    ensures '-' in NatToString(n) + PrereleaseTail(pre) <==> |pre| > 0
  {
    NoSymbolInNumber(n, '-');
    if |pre| > 0 {
      assert (NatToString(n) + PrereleaseTail(pre))[|NatToString(n)|] == '-';
    } else {
      assert NatToString(n) + PrereleaseTail(pre) == NatToString(n);
    }
  }

  /** The patch number and the pre-release identifiers read back from their rendering. */
  lemma PatchCut(v: Version, w: Version)
    requires WellFormed(v) && WellFormed(w)
    requires NatToString(v.patch) + PrereleaseTail(v.prerelease) == NatToString(w.patch) + PrereleaseTail(w.prerelease)
    ensures v.patch == w.patch && v.prerelease == w.prerelease
  {
    var nv, nw := NatToString(v.patch), NatToString(w.patch);
    DashMarksPrerelease(v.patch, v.prerelease);
    DashMarksPrerelease(w.patch, w.prerelease);
    if |v.prerelease| > 0 && |w.prerelease| > 0 {
      assert nv + PrereleaseTail(v.prerelease) == nv + ['-'] + Join(v.prerelease, '.');
      assert nw + PrereleaseTail(w.prerelease) == nw + ['-'] + Join(w.prerelease, '.');
      NumberCut(v.patch, Join(v.prerelease, '.'), w.patch, Join(w.prerelease, '.'), '-');
      PrereleaseReadsBack(v);
      PrereleaseReadsBack(w);
    } else if |v.prerelease| == 0 && |w.prerelease| == 0 {
      assert nv == nv + PrereleaseTail(v.prerelease);
      assert nw == nw + PrereleaseTail(w.prerelease);
      DigitsValueOfNatToString(v.patch);
      DigitsValueOfNatToString(w.patch);
    }
  }

  /** The library rendering loses only the build metadata: two well-formed versions rendered
      alike agree on everything else. */
  lemma RenderInjective(v: Version, w: Version)
    requires WellFormed(v) && WellFormed(w)
    requires Render(v) == Render(w)
    ensures v.(build := []) == w.(build := [])
  {
    var pv := NatToString(v.patch) + PrereleaseTail(v.prerelease);
    var pw := NatToString(w.patch) + PrereleaseTail(w.prerelease);
    RenderShape(v);
    RenderShape(w);
    NumberCut(v.major, NatToString(v.minor) + "." + pv, w.major, NatToString(w.minor) + "." + pw, '.');
    NumberCut(v.minor, pv, w.minor, pw, '.');
    PatchCut(v, w);
  }

  /** Formatting loses nothing at all: two well-formed versions formatted alike are equal. */
  lemma FormatInjective(v: Version, w: Version)
    requires WellFormed(v) && WellFormed(w)
    requires Format(v) == Format(w)
    ensures v == w
  {
    FormatSeparatesBuild(v);
    FormatSeparatesBuild(w);
    RenderInjective(v, w);
  }

  /** What a stripped well-formed version looks like once formatted: no build metadata when
      the build was stripped, and no pre-release before the build when the pre-release was. */
  lemma StrippedShape(v: Version, p: StripPart)
    requires WellFormed(v)
    ensures var t := Format(Strip(Some(v), Some(p)).value);
      && (p == Build ==> '+' !in t)
      && (p == Prerelease ==> '-' !in BaseOf(t))
  {
    var w := Strip(Some(v), Some(p)).value;
    StripWellFormed(v, p);
    FormatSeparatesBuild(w);
    NoPlusInRender(w);
    if p == Prerelease {
      NoSymbolInNumber(w.major, '-');
      NoSymbolInNumber(w.minor, '-');
      NoSymbolInNumber(w.patch, '-');
    }
  }
}
