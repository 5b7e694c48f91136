/** The `semver` npm library, seen only through the three calls the grunt task makes. Its grammar and
    increment rules are not part of this model: a `Library` value stands for any implementation,
    and `Lawful` names the two facts about parsing that some properties rely on. */
module Semver {
  import opened Wrappers
  import opened Versions

  datatype Library = Library(
    /** `semver(text)`: `None` where the constructor throws. */
    parse: string -> Option<Version>,
    /** `semver.clean(text)`: `None` where it returns null. */
    clean: string -> Option<string>,
    /** `version.inc(part)` for a whitelisted part. */
    inc: (Version, BumpPart) -> Version)

  /** What the properties below assume of the library, each a fact about npm `semver`:
      - parsing yields only well-formed versions (SemVer 2.0.0 sections 2, 9 and 10);
      - it reads back every formatted well-formed version as itself;
      - text that parses and whose part after the first `+` is made of identifiers keeps those
        identifiers as its build metadata;
      - `clean` hands back a version's own rendering, which never holds build metadata, and the
        rendering of a formatted well-formed version is that version's rendering. */
  ghost predicate Lawful(lib: Library) {
    && (forall s :: lib.parse(s).Some? ==> WellFormed(lib.parse(s).value))
    && (forall v :: WellFormed(v) ==> lib.parse(Format(v)) == Some(v))
    && (forall t :: lib.parse(t).Some? && '+' in t && AllIdentifiers(BuildOf(t)) ==> lib.parse(t).value.build == BuildOf(t))
    && (forall s :: lib.clean(s).Some? ==> '+' !in lib.clean(s).value)
    && (forall v :: WellFormed(v) ==> lib.clean(Format(v)) == Some(Render(v)))
  }

  /** The parser of a library that accepts exactly the formatted well-formed versions. */
  ghost function ReferenceParse(t: string): Option<Version> {
    if exists v :: WellFormed(v) && Format(v) == t then
      Some(var v :| WellFormed(v) && Format(v) == t; v)
    else None
  }

  /** A library that exists: it parses exactly the formatted well-formed versions, cleans to the
      rendering of what it parses, and leaves a version alone on increment (the laws say
      nothing of `inc`). */
  ghost function Reference(): Library {
    Library(
      ReferenceParse,
      s => if ReferenceParse(s).Some? then Some(Render(ReferenceParse(s).value)) else None,
      (v, p) => v)
  }

  /** Parsing a formatted well-formed version with the reference parser gives it back. */
  lemma ReferenceParsesFormat(v: Version)
    requires WellFormed(v)
    ensures ReferenceParse(Format(v)) == Some(v)
  {
    var w := ReferenceParse(Format(v)).value;
    FormatInjective(v, w);
  }

  /** The laws can all be met at once. */
  lemma ReferenceIsLawful()
    ensures Lawful(Reference())
  {
    var lib := Reference();
    forall v | WellFormed(v)
      ensures lib.parse(Format(v)) == Some(v)
      ensures lib.clean(Format(v)) == Some(Render(v))
    {
      ReferenceParsesFormat(v);
    }
    forall t | lib.parse(t).Some? && '+' in t && AllIdentifiers(BuildOf(t))
      ensures lib.parse(t).value.build == BuildOf(t)
    {
      FormatSeparatesBuild(lib.parse(t).value);
    }
    forall s | lib.clean(s).Some?
      ensures '+' !in lib.clean(s).value
    {
      NoPlusInRender(ReferenceParse(s).value);
    }
  }
}
