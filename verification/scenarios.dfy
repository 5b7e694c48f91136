/** Whole runs of the grunt task on small concrete inputs. The library is left open; each scenario
    fixes only the few answers of `parse`, `clean` and `inc` it depends on. */
module Scenarios {
  import opened Wrappers
  import opened Strings
  import opened Versions
  import opened Manifests
  import opened Semver
  import opened Effects
  import opened Task
  import opened TaskProperties

  /** The plain renderings the scenarios below rely on. */
  lemma PlainRenderings()
    ensures Format(Version(1, 2, 3, [], [])) == "1.2.3"
    ensures Format(Version(1, 2, 4, [], [])) == "1.2.4"
    ensures Format(Version(1, 0, 0, [], [])) == "1.0.0"
    ensures Format(Version(2, 0, 0, [], [])) == "2.0.0"
  {
    assert NatToString(0) == "0";
    assert NatToString(1) == "1";
    assert NatToString(2) == "2";
    assert NatToString(3) == "3";
    assert NatToString(4) == "4";
  }

  /** The renderings with build metadata the scenarios below rely on. */
  lemma BuildRenderings()
    ensures Format(Version(1, 2, 3, [], ["7"])) == "1.2.3+7"
    ensures Format(Version(1, 2, 3, [], ["build", "5"])) == "1.2.3+build.5"
  {
    PlainRenderings();
    assert Join(["7"], '.') == "7";
    assert Join(["build", "5"], '.') == "build.5" by {
      assert Join(["build", "5"][1..], '.') == "5";
    }
  }

  /** Validating the literal "1.2.3" with build "7" announces "1.2.3+7" and nothing else. */
  lemma LiteralWithBuild(lib: Library, files: seq<FileSpec>, fs: FileSystem, force: bool)
    requires lib.clean("1.2.3") == Some("1.2.3")
    requires lib.parse("1.2.3+7") == Some(Version(1, 2, 3, [], ["7"]))
    ensures Run(lib, Some("validate"), Some("1.2.3"), Some("7"), files, fs, force)
         == Outcome(fs, [Emitted(Event(ValidatePhase, "1.2.3+7", None, None))])
  {
    BuildRenderings();
    assert Decorated(lib, "1.2.3", Some("7")) == "1.2.3+7";
    assert NewVersion(lib, ValidateOp, Some("1.2.3"), Some("7"), JString("1.2.3")) == Success("1.2.3+7");
  }

  /** Stripping the pre-release of "1.2.3-beta.1+build.5" stores "1.2.3+build.5"; stripping the
      build of "1.2.3+abc.1" stores "1.2.3". */
  lemma StripExamples(lib: Library, part: Option<string>, build: Option<string>)
    requires lib.parse("1.2.3-beta.1+build.5") == Some(Version(1, 2, 3, ["beta", "1"], ["build", "5"]))
    requires lib.parse("1.2.3+abc.1") == Some(Version(1, 2, 3, [], ["abc", "1"]))
    ensures NewVersion(lib, StripOp(Prerelease), part, build, JString("1.2.3-beta.1+build.5")) == Success("1.2.3+build.5")
    ensures NewVersion(lib, StripOp(Build), part, build, JString("1.2.3+abc.1")) == Success("1.2.3")
  {
    PlainRenderings();
    BuildRenderings();
  }

  /** The version a patch bump of "1.2.3" computes. */
  lemma BumpPatchVersion(lib: Library)
    requires lib.clean("1.2.3") == Some("1.2.3")
    requires lib.parse("1.2.3") == Some(Version(1, 2, 3, [], []))
    requires lib.inc(Version(1, 2, 3, [], []), Patch) == Version(1, 2, 4, [], [])
    ensures NewVersion(lib, BumpOp(Patch), Some("patch"), None, JString("1.2.3")) == Success("1.2.4")
  {
    PlainRenderings();
    assert BumpInput(lib, "1.2.3", None) == Success("1.2.3");
  }

  /** Bumping the patch of a manifest at version "1.2.3" writes "1.2.4" to the destination,
      keeps the manifest's other members, and announces the write. */
  lemma BumpPatch(lib: Library, name: Json, force: bool)
    requires lib.clean("1.2.3") == Some("1.2.3")
    requires lib.parse("1.2.3") == Some(Version(1, 2, 3, [], []))
    requires lib.inc(Version(1, 2, 3, [], []), Patch) == Version(1, 2, 4, [], [])
    ensures var m := map["name" := name, "version" := JString("1.2.3")];
            var fs := map["package.json" := Parsed(JObject(m))];
            var written := map["name" := name, "version" := JString("1.2.4")];
            (Run(lib, Some("bump"), Some("patch"), None, [FileSpec(["package.json"], "out.json")], fs, force)
             == Outcome(fs["out.json" := Parsed(JObject(written))],
                        [Wrote("out.json", written),
                         Emitted(Event(BumpPhase, "1.2.4", Some("package.json"), Some("out.json")))]))
  {
    var m := map["name" := name, "version" := JString("1.2.3")];
    var fs := map["package.json" := Parsed(JObject(m))];
    var written := map["name" := name, "version" := JString("1.2.4")];
    var job := Job("package.json", "out.json");
    var op := BumpOp(Patch);
    BumpPatchVersion(lib);
    assert Transform(lib, op, Some("patch"), None, fs, job.src) == Success((m, "1.2.4"));
    assert WithVersion(m, "1.2.4") == written;
    var block := ProcessSource(lib, op, Some("patch"), None, fs, job);
    assert block == [Wrote("out.json", written), Emitted(Event(BumpPhase, "1.2.4", Some("package.json"), Some("out.json")))];
    SingleSource(lib, op, Some("patch"), None, force, job, fs);
    BlockFacts(op, [job], job, block, fs);
    assert Replay(fs, block) == fs["out.json" := Parsed(JObject(written))];
    assert Jobs([FileSpec(["package.json"], "out.json")]) == [job];
    assert ParsePhase(Some("bump")) == Some(BumpPhase);
    assert ParseBumpPart(Some("patch")) == Some(Patch);
    assert Run(lib, Some("bump"), Some("patch"), None, [FileSpec(["package.json"], "out.json")], fs, force)
        == Loop(lib, op, Some("patch"), None, force, [job], fs);
  }

  /** A bump with an unknown part touches nothing, even when the sources are fine. */
  lemma BumpUnknownPart(lib: Library, files: seq<FileSpec>, fs: FileSystem, force: bool)
    ensures Run(lib, Some("bump"), Some("weekday"), None, files, fs, force)
         == Outcome(fs, [Warned(UnknownPart(Some("weekday")))])
    ensures Message(UnknownPart(Some("weekday"))) == "Unknown part 'weekday'"
  {
  }

  /** Setting a source whose version is already canonical writes its manifest unchanged to the
      destination and announces that version. */
  lemma SetCanonicalBlock(lib: Library, fs: FileSystem, job: Job, m: Manifest, t: string)
    requires job.src in fs && fs[job.src] == Parsed(JObject(m))
    requires VersionKey in m && m[VersionKey] == JString(t)
    requires lib.parse(t).Some? && Format(lib.parse(t).value) == t
    ensures ProcessSource(lib, SetOp, None, None, fs, job)
         == [Wrote(job.dest, m), Emitted(Event(SetPhase, t, Some(job.src), Some(job.dest)))]
    ensures Replay(fs, ProcessSource(lib, SetOp, None, None, fs, job)) == fs[job.dest := Parsed(JObject(m))]
  {
    assert NewVersion(lib, SetOp, None, None, JString(t)) == Success(t);
    assert Transform(lib, SetOp, None, None, fs, job.src) == Success((m, t));
    assert WithVersion(m, t) == m;
    var block := ProcessSource(lib, SetOp, None, None, fs, job);
    BlockFacts(SetOp, [job], job, block, fs);
  }

  /** A source that does not exist yields one warning and leaves the file system alone. */
  lemma MissingSourceBlock(lib: Library, op: Op, part: Option<string>, build: Option<string>, fs: FileSystem, job: Job)
    requires job.src !in fs
    ensures ProcessSource(lib, op, part, build, fs, job) == [Warned(SourceFailed(Some(job.src), Unreadable))]
    ensures Replay(fs, ProcessSource(lib, op, part, build, fs, job)) == fs
  {
    var block := ProcessSource(lib, op, part, build, fs, job);
    BlockFacts(op, [job], job, block, fs);
  }

  /** One descriptor with three sources is three turns of the loop, in source order. */
  lemma ThreePairs(pa: Path, pb: Path, pc: Path, dest: Path)
    ensures Jobs([FileSpec([pa, pb, pc], dest)]) == [Job(pa, dest), Job(pb, dest), Job(pc, dest)]
  {
    var f := FileSpec([pa, pb, pc], dest);
    assert [f][1..] == [];
    assert Pairs(f.src, f.dest) + [] == Pairs(f.src, f.dest);
    assert Pairs(f.src, f.dest) == [Job(pa, dest), Job(pb, dest), Job(pc, dest)];
  }

  /** Three sources under `force`, one block after the other. */
  lemma ThreeSources(lib: Library, op: Op, part: Option<string>, build: Option<string>,
                     ja: Job, jb: Job, jc: Job, fs: FileSystem)
    ensures var blockA := ProcessSource(lib, op, part, build, fs, ja);
            var fs1 := Replay(fs, blockA);
            var blockB := ProcessSource(lib, op, part, build, fs1, jb);
            var fs2 := Replay(fs1, blockB);
            var blockC := ProcessSource(lib, op, part, build, fs2, jc);
            Loop(lib, op, part, build, true, [ja, jb, jc], fs) == Outcome(Replay(fs2, blockC), blockA + (blockB + blockC))
  {
    var blockA := ProcessSource(lib, op, part, build, fs, ja);
    var fs1 := Replay(fs, blockA);
    var blockB := ProcessSource(lib, op, part, build, fs1, jb);
    var fs2 := Replay(fs1, blockB);
    SingleSource(lib, op, part, build, true, ja, fs);
    SingleSource(lib, op, part, build, true, jb, fs1);
    SingleSource(lib, op, part, build, true, jc, fs2);
    ForcedLoopComposes(lib, op, part, build, [jb], [jc], fs1);
    assert [jb] + [jc] == [jb, jc];
    ForcedLoopComposes(lib, op, part, build, [ja], [jb, jc], fs);
    assert [ja] + [jb, jc] == [ja, jb, jc];
  }

  /** The loop over the three sources of `SharedDestination`. */
  lemma SharedDestinationLoop(lib: Library, a: Manifest, b: Manifest, pa: Path, pb: Path, pc: Path, dest: Path)
    requires VersionKey in a && VersionKey in b
    requires a[VersionKey] == JString("1.0.0") && b[VersionKey] == JString("2.0.0")
    requires lib.parse("1.0.0") == Some(Version(1, 0, 0, [], []))
    requires lib.parse("2.0.0") == Some(Version(2, 0, 0, [], []))
    requires pa != pb && pc != pa && pc != pb && pc != dest && pb != dest
    ensures var fs := map[pa := Parsed(JObject(a)), pb := Parsed(JObject(b))];
            var o := Loop(lib, SetOp, None, None, true, [Job(pa, dest), Job(pb, dest), Job(pc, dest)], fs);
            && Written(o.trace) == [dest, dest]
            && dest in o.fs && o.fs[dest] == Parsed(JObject(b))
            && Warnings(o.trace) == [SourceFailed(Some(pc), Unreadable)]
  {
    var fs := map[pa := Parsed(JObject(a)), pb := Parsed(JObject(b))];
    var ja, jb, jc := Job(pa, dest), Job(pb, dest), Job(pc, dest);
    PlainRenderings();

    var blockA := ProcessSource(lib, SetOp, None, None, fs, ja);
    SetCanonicalBlock(lib, fs, ja, a, "1.0.0");
    var fs1 := Replay(fs, blockA);
    var blockB := ProcessSource(lib, SetOp, None, None, fs1, jb);
    SetCanonicalBlock(lib, fs1, jb, b, "2.0.0");
    var fs2 := Replay(fs1, blockB);
    var blockC := ProcessSource(lib, SetOp, None, None, fs2, jc);
    MissingSourceBlock(lib, SetOp, None, None, fs2, jc);
    ThreeSources(lib, SetOp, None, None, ja, jb, jc, fs);
    var o := Loop(lib, SetOp, None, None, true, [ja, jb, jc], fs);
    assert o == Outcome(fs2, blockA + (blockB + blockC));
    EventsAppend(blockB, blockC);
    EventsAppend(blockA, blockB + blockC);
    assert Written(blockA) == [dest] && Warnings(blockA) == [];
    assert Written(blockB) == [dest] && Warnings(blockB) == [];
    assert Written(blockC) == [] && Warnings(blockC) == [SourceFailed(Some(pc), Unreadable)];
  }

  /** Two sources sharing one destination: the destination is written twice, in source order,
      and ends up holding the second source's manifest; a third source that does not exist only
      adds a warning. */
  lemma SharedDestination(lib: Library, a: Manifest, b: Manifest, pa: Path, pb: Path, pc: Path, dest: Path)
    requires VersionKey in a && VersionKey in b
    requires a[VersionKey] == JString("1.0.0") && b[VersionKey] == JString("2.0.0")
    requires lib.parse("1.0.0") == Some(Version(1, 0, 0, [], []))
    requires lib.parse("2.0.0") == Some(Version(2, 0, 0, [], []))
    requires pa != pb && pc != pa && pc != pb && pc != dest && pb != dest
    ensures var fs := map[pa := Parsed(JObject(a)), pb := Parsed(JObject(b))];
            var o := Run(lib, Some("set"), None, None, [FileSpec([pa, pb, pc], dest)], fs, true);
            && Written(o.trace) == [dest, dest]
            && dest in o.fs && o.fs[dest] == Parsed(JObject(b))
            && Warnings(o.trace) == [SourceFailed(Some(pc), Unreadable)]
  {
    var fs := map[pa := Parsed(JObject(a)), pb := Parsed(JObject(b))];
    ThreePairs(pa, pb, pc, dest);
    SharedDestinationLoop(lib, a, b, pa, pb, pc, dest);
    assert Run(lib, Some("set"), None, None, [FileSpec([pa, pb, pc], dest)], fs, true)
        == Loop(lib, SetOp, None, None, true, [Job(pa, dest), Job(pb, dest), Job(pc, dest)], fs);
  }
}
