/** JSON manifests and the file system they live in. Reading a manifest is
    `grunt.file.readJSON(src)`; the only field the grunt task touches is `version`. JSON text and its
    indentation are not modelled: a file holds either a parsed JSON document or text that is not
    JSON. */
module Manifests {
  import opened Wrappers

  type Path = string

  /** A JSON value. A number is held as the text it was read with. Writing it back does not
      respell it in the shortest form (`1.0` as `1`) as `JSON.stringify` would; nothing here
      computes with numbers. */
  datatype Json =
    | JNull
    | JBool(flag: bool)
    | JNumber(literal: string)
    | JString(text: string)
    | JArray(items: seq<Json>)
    | JObject(fields: map<string, Json>)

  /** The members of a manifest object, by key. */
  type Manifest = map<string, Json>

  datatype File = Parsed(doc: Json) | NotJson

  type FileSystem = map<Path, File>

  const VersionKey: string := "version"

  /** Why the processing of one source was abandoned: what its `try` block caught. */
  datatype Cause =
    | Unreadable      // no file at the source path
    | Unparsable      // the file is not JSON
    | NoVersion       // `json.version` is undefined or null, so reading `.cyan` of it throws
    | NotText         // the version value handed to the library is not a string
    | Invalid(input: string)  // the library refused to parse this text

  /** `grunt.file.readJSON(src)`. */
  function ReadJson(fs: FileSystem, src: Path): (r: Result<Json, Cause>)
    ensures r.Success? <==> src in fs && fs[src].Parsed?
    ensures r.Success? ==> fs[src] == Parsed(r.value)
    ensures r == Failure(Unreadable) <==> src !in fs
  {
    if src !in fs then Failure(Unreadable)
    else match fs[src]
      case NotJson => Failure(Unparsable)
      case Parsed(doc) => Success(doc)
  }

  /** The value of `json.version` once it has survived `json.version.cyan`: the document must be
      an object whose `version` member is present and not null. */
  function CurrentVersion(doc: Json): (r: Result<Json, Cause>)
    ensures r.Success? <==> doc.JObject? && VersionKey in doc.fields && doc.fields[VersionKey] != JNull
    ensures r.Success? ==> r.value == doc.fields[VersionKey] && r.value != JNull
    ensures r.Failure? ==> r.error == NoVersion
  {
    if doc.JObject? && VersionKey in doc.fields && doc.fields[VersionKey] != JNull then
      Success(doc.fields[VersionKey])
    else
      Failure(NoVersion)
  }

  /** `json.version = version`: the member is replaced (or added) and every other member is
      kept with its value. */
  function WithVersion(m: Manifest, version: string): (r: Manifest)
    ensures r.Keys == m.Keys + {VersionKey}
    ensures r[VersionKey] == JString(version)
    ensures forall k :: k in m && k != VersionKey ==> k in r && r[k] == m[k]
  {
    m[VersionKey := JString(version)]
  }

  /** `grunt.file.write(dest, JSON.stringify(json))`: the destination now holds the manifest and
      no other path changes. */
  function WriteManifest(fs: FileSystem, dest: Path, m: Manifest): (r: FileSystem)
    ensures r.Keys == fs.Keys + {dest}
    ensures ReadJson(r, dest) == Success(JObject(m))
    ensures forall p :: p in fs && p != dest ==> r[p] == fs[p]
  {
    fs[dest := Parsed(JObject(m))]
  }
}
