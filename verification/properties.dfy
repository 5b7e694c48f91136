/** What the grunt task promises across sources, phases and runs. */
module TaskProperties {
  import opened Wrappers
  import opened Strings
  import opened Versions
  import opened Manifests
  import opened Semver
  import opened Effects
  import opened Task

  /** The event names one successful source of `jobs` under `op`: its phase, its source, and for
      every phase but validate its destination. */
  ghost predicate Announces(op: Op, jobs: seq<Job>, e: Event) {
    && e.phase == OpPhase(op)
    && e.src.Some?
    && exists j :: j in jobs && j.src == e.src.value && e.dest == (if op == ValidateOp then None else Some(j.dest))
  }

  /** The effects of one source, seen as a trace. */
  lemma BlockFacts(op: Op, jobs: seq<Job>, job: Job, block: seq<Effect>, fs: FileSystem)
    requires Block(op, job, block)
    requires job in jobs
    ensures WritesAnnounced(block) && EventsFollowWrites(block)
    ensures forall i :: 0 <= i < |block| && block[i].Warned? ==>
      block[i].warning.SourceFailed? && block[i].warning.src.Some?
    ensures forall i :: 0 <= i < |block| && block[i].Emitted? ==> Announces(op, jobs, block[i].event)
    ensures Replay(fs, block) == if |block| == 2 then WriteManifest(fs, block[0].path, block[0].manifest) else fs
    ensures Written(block) == if |block| == 2 then [block[0].path] else []
  {
    if |block| == 2 {
      var next := WriteManifest(fs, block[0].path, block[0].manifest);
      assert Replay(fs, block) == Replay(next, block[1..]);
      assert block[1..][1..] == [];
      assert Replay(next, block[1..]) == Replay(next, block[1..][1..]);
    } else {
      assert block[1..] == [];
    }
  }

  /** One source alone: the loop yields that source's block and the file system it leaves. */
  lemma SingleSource(lib: Library, op: Op, part: Option<string>, build: Option<string>,
                     force: bool, job: Job, fs: FileSystem)
    ensures var block := ProcessSource(lib, op, part, build, fs, job);
            Loop(lib, op, part, build, force, [job], fs) == Outcome(Replay(fs, block), block)
  {
    var block := ProcessSource(lib, op, part, build, fs, job);
    assert [job][1..] == [];
    assert block + [] == block;
    BlockFacts(op, [job], job, block, fs);
  }

  /** The file system the loop leaves is the replay of its trace's writes. */
  lemma {:induction false} LoopReplays(lib: Library, op: Op, part: Option<string>, build: Option<string>,
                                       force: bool, jobs: seq<Job>, fs: FileSystem)
    ensures var o := Loop(lib, op, part, build, force, jobs, fs);
            o.fs == Replay(fs, o.trace)
    decreases |jobs|
  {
    if |jobs| > 0 {
      var block := ProcessSource(lib, op, part, build, fs, jobs[0]);
      BlockFacts(op, jobs, jobs[0], block, fs);
      if force || !block[0].Warned? {
        var rest := Loop(lib, op, part, build, force, jobs[1..], Replay(fs, block));
        LoopReplays(lib, op, part, build, force, jobs[1..], Replay(fs, block));
        ReplayAppend(fs, block, rest.trace);
      }
    }
  }

  /** In every loop trace each write is announced right after it, and each event of a phase
      that writes comes right after its write. */
  lemma {:induction false} LoopOrdering(lib: Library, op: Op, part: Option<string>, build: Option<string>,
                                        force: bool, jobs: seq<Job>, fs: FileSystem)
    ensures var o := Loop(lib, op, part, build, force, jobs, fs);
            WritesAnnounced(o.trace) && EventsFollowWrites(o.trace)
    decreases |jobs|
  {
    if |jobs| > 0 {
      var block := ProcessSource(lib, op, part, build, fs, jobs[0]);
      BlockFacts(op, jobs, jobs[0], block, fs);
      if force || !block[0].Warned? {
        var rest := Loop(lib, op, part, build, force, jobs[1..], Replay(fs, block));
        LoopOrdering(lib, op, part, build, force, jobs[1..], Replay(fs, block));
        OrderingAppend(block, rest.trace);
      }
    }
  }

  /** Every warning of the trace is a source failure naming its source. */
  ghost predicate OnlySourceWarnings(trace: seq<Effect>) {
    forall i :: 0 <= i < |trace| && trace[i].Warned? ==>
      trace[i].warning.SourceFailed? && trace[i].warning.src.Some?
  }

  /** Every event of the trace announces a source of `jobs`. */
  ghost predicate AnnouncesSources(op: Op, jobs: seq<Job>, trace: seq<Effect>) {
    forall i :: 0 <= i < |trace| && trace[i].Emitted? ==> Announces(op, jobs, trace[i].event)
  }

  lemma ReportsAppend(op: Op, jobs: seq<Job>, a: seq<Effect>, b: seq<Effect>)
    requires |jobs| > 0
    requires OnlySourceWarnings(a) && OnlySourceWarnings(b)
    requires AnnouncesSources(op, jobs, a) && AnnouncesSources(op, jobs[1..], b)
    ensures OnlySourceWarnings(a + b) && AnnouncesSources(op, jobs, a + b)
  {
    var t := a + b;
    forall i | 0 <= i < |t| && t[i].Emitted?
      ensures Announces(op, jobs, t[i].event)
    {
      if i >= |a| {
        var k := i - |a|;
        assert t[i] == b[k];
        var e := b[k].event;
        assert Announces(op, jobs[1..], e);
        var j :| j in jobs[1..] && j.src == e.src.value && e.dest == (if op == ValidateOp then None else Some(j.dest));
        assert j in jobs;
      }
    }
    forall i | 0 <= i < |t| && t[i].Warned?
      ensures t[i].warning.SourceFailed? && t[i].warning.src.Some?
    {
      if i >= |a| {
        assert t[i] == b[i - |a|];
      }
    }
  }

  /** In every loop trace each warning is a source failure naming its source, and each event
      announces a source of the run. */
  lemma {:induction false} LoopReports(lib: Library, op: Op, part: Option<string>, build: Option<string>,
                                       force: bool, jobs: seq<Job>, fs: FileSystem)
    ensures var o := Loop(lib, op, part, build, force, jobs, fs);
            OnlySourceWarnings(o.trace) && AnnouncesSources(op, jobs, o.trace)
    decreases |jobs|
  {
    if |jobs| > 0 {
      var block := ProcessSource(lib, op, part, build, fs, jobs[0]);
      assert jobs[0] in jobs;
      BlockFacts(op, jobs, jobs[0], block, fs);
      if force || !block[0].Warned? {
        var rest := Loop(lib, op, part, build, force, jobs[1..], Replay(fs, block));
        LoopReports(lib, op, part, build, force, jobs[1..], Replay(fs, block));
        ReportsAppend(op, jobs, block, rest.trace);
      }
    }
  }

  /** Per-source isolation: with `force`, running the loop over two lists of sources is running
      it over the first and then, on the file system that left, over the second. Whatever
      happened to one source, the next is attempted. */
  lemma {:induction false} ForcedLoopComposes(lib: Library, op: Op, part: Option<string>, build: Option<string>,
                                              jobs1: seq<Job>, jobs2: seq<Job>, fs: FileSystem)
    ensures var o1 := Loop(lib, op, part, build, true, jobs1, fs);
            var o2 := Loop(lib, op, part, build, true, jobs2, o1.fs);
            Loop(lib, op, part, build, true, jobs1 + jobs2, fs) == Outcome(o2.fs, o1.trace + o2.trace)
    decreases |jobs1|
  {
    if |jobs1| == 0 {
      assert jobs1 + jobs2 == jobs2;
    } else {
      var block := ProcessSource(lib, op, part, build, fs, jobs1[0]);
      assert (jobs1 + jobs2)[0] == jobs1[0];
      assert (jobs1 + jobs2)[1..] == jobs1[1..] + jobs2;
      ForcedLoopComposes(lib, op, part, build, jobs1[1..], jobs2, Replay(fs, block));
      var o1 := Loop(lib, op, part, build, true, jobs1[1..], Replay(fs, block));
      var o2 := Loop(lib, op, part, build, true, jobs2, o1.fs);
      assert block + (o1.trace + o2.trace) == (block + o1.trace) + o2.trace;
    }
  }

  /** With `force`, the first source's block is followed by the loop over the rest. */
  lemma ForcedStep(lib: Library, op: Op, part: Option<string>, build: Option<string>,
                   job: Job, rest: seq<Job>, fs: FileSystem)
    ensures var block := ProcessSource(lib, op, part, build, fs, job);
            var after := Loop(lib, op, part, build, true, rest, Replay(fs, block));
            Loop(lib, op, part, build, true, [job] + rest, fs) == Outcome(after.fs, block + after.trace)
  {
    assert ([job] + rest)[0] == job;
    assert ([job] + rest)[1..] == rest;
  }

  /** With `force`, the k-th source is processed exactly as it would be on its own, on the file
      system the sources before it left, and its block sits between theirs and the rest. */
  lemma EachSourceProcessed(lib: Library, op: Op, part: Option<string>, build: Option<string>,
                            jobs: seq<Job>, fs: FileSystem, k: nat)
    requires k < |jobs|
    ensures var before := Loop(lib, op, part, build, true, jobs[..k], fs);
            var block := ProcessSource(lib, op, part, build, before.fs, jobs[k]);
            var after := Loop(lib, op, part, build, true, jobs[k + 1..], Replay(before.fs, block));
            Loop(lib, op, part, build, true, jobs, fs) == Outcome(after.fs, before.trace + (block + after.trace))
  {
    var before := Loop(lib, op, part, build, true, jobs[..k], fs);
    var block := ProcessSource(lib, op, part, build, before.fs, jobs[k]);
    var after := Loop(lib, op, part, build, true, jobs[k + 1..], Replay(before.fs, block));
    var tail := jobs[k..];
    assert jobs[..k] + tail == jobs;
    assert [jobs[k]] + jobs[k + 1..] == tail;
    ForcedStep(lib, op, part, build, jobs[k], jobs[k + 1..], before.fs);
    ForcedLoopComposes(lib, op, part, build, jobs[..k], tail, fs);
    var o2 := Loop(lib, op, part, build, true, tail, before.fs);
    assert o2 == Outcome(after.fs, block + after.trace);
    assert Loop(lib, op, part, build, true, jobs, fs) == Outcome(o2.fs, before.trace + o2.trace);
  }

  /** One turn of the loop: the first source's block, then (unless it warned without `force`)
      the loop over the rest on the file system the block left. */
  lemma LoopHead(lib: Library, op: Op, part: Option<string>, build: Option<string>,
                 force: bool, jobs: seq<Job>, fs: FileSystem)
    requires |jobs| > 0
    ensures var block := ProcessSource(lib, op, part, build, fs, jobs[0]);
            var rest := Loop(lib, op, part, build, force, jobs[1..], Replay(fs, block));
            Loop(lib, op, part, build, force, jobs, fs)
              == if !force && block[0].Warned? then Outcome(fs, block) else Outcome(rest.fs, block + rest.trace)
  {
  }

  /** Without `force` the run stops at the first source warning: its trace is a prefix of the
      forced run's trace, and the two runs agree whenever the forced one warns about nothing. */
  lemma {:induction false} UnforcedIsPrefix(lib: Library, op: Op, part: Option<string>, build: Option<string>,
                                            jobs: seq<Job>, fs: FileSystem)
    ensures var u := Loop(lib, op, part, build, false, jobs, fs);
            var f := Loop(lib, op, part, build, true, jobs, fs);
            && u.trace <= f.trace
            && (Warnings(f.trace) == [] ==> u == f)
    decreases |jobs|
  {
    if |jobs| > 0 {
      var block := ProcessSource(lib, op, part, build, fs, jobs[0]);
      var next := Replay(fs, block);
      var rest := Loop(lib, op, part, build, true, jobs[1..], next);
      var urest := Loop(lib, op, part, build, false, jobs[1..], next);
      LoopHead(lib, op, part, build, true, jobs, fs);
      LoopHead(lib, op, part, build, false, jobs, fs);
      BlockCounts(op, jobs[0], block, fs);
      EventsAppend(block, rest.trace);
      if !block[0].Warned? {
        UnforcedIsPrefix(lib, op, part, build, jobs[1..], next);
      }
    }
  }

  /** Without `force` a warning is the last thing the loop does. */
  lemma {:induction false} UnforcedStopsAtWarning(lib: Library, op: Op, part: Option<string>, build: Option<string>,
                                                  jobs: seq<Job>, fs: FileSystem)
    ensures WarnsLast(Loop(lib, op, part, build, false, jobs, fs).trace)
    decreases |jobs|
  {
    if |jobs| > 0 {
      var block := ProcessSource(lib, op, part, build, fs, jobs[0]);
      var next := Replay(fs, block);
      LoopHead(lib, op, part, build, false, jobs, fs);
      if !block[0].Warned? {
        UnforcedStopsAtWarning(lib, op, part, build, jobs[1..], next);
        assert forall i :: 0 <= i < |block| ==> !block[i].Warned?;
        WarnsLastAppend(block, Loop(lib, op, part, build, false, jobs[1..], next).trace);
      }
    }
  }

  /** The final file system is the initial one with the run's writes applied: a path holds the
      manifest of the last write naming it, and a path no write names is left as it was. */
  lemma FinalFileSystem(lib: Library, op: Op, part: Option<string>, build: Option<string>,
                        force: bool, jobs: seq<Job>, fs: FileSystem, p: Path)
    ensures var o := Loop(lib, op, part, build, force, jobs, fs);
      && (p !in Written(o.trace) ==> (p in o.fs <==> p in fs) && (p in fs ==> o.fs[p] == fs[p]))
      && (forall i :: 0 <= i < |o.trace| && o.trace[i].Wrote? && o.trace[i].path == p && p !in Written(o.trace[i + 1..]) ==>
            p in o.fs && o.fs[p] == Parsed(JObject(o.trace[i].manifest)))
  {
    var o := Loop(lib, op, part, build, force, jobs, fs);
    LoopReplays(lib, op, part, build, force, jobs, fs);
    ReplayFinal(fs, o.trace, p);
  }

  /** The phase/part combinations the grunt task refuses before looking at any file. */
  predicate Rejected(phase: Option<string>, part: Option<string>) {
    || ParsePhase(phase).None?
    || (ParsePhase(phase) == Some(BumpPhase) && ParseBumpPart(part).None?)
    || (ParsePhase(phase) == Some(StripPhase) && ParseStripPart(part).None?)
  }

  /** An unknown phase, or a part outside the whitelist of bump or strip, yields one warning
      and nothing else, whatever the files and the file system; and only those combinations
      yield such a warning. */
  lemma RejectionIsImmediate(lib: Library, phase: Option<string>, part: Option<string>, build: Option<string>,
                             files: seq<FileSpec>, fs: FileSystem, force: bool,
                             otherFiles: seq<FileSpec>, otherFs: FileSystem)
    ensures var o := Run(lib, phase, part, build, files, fs, force);
      Rejected(phase, part) <==>
        exists i :: 0 <= i < |o.trace| && o.trace[i].Warned? && !o.trace[i].warning.SourceFailed?
    ensures Rejected(phase, part) ==>
      && Run(lib, phase, part, build, files, fs, force).fs == fs
      && Run(lib, phase, part, build, files, fs, force).trace
         == Run(lib, phase, part, build, otherFiles, otherFs, !force).trace
         == [Warned(if ParsePhase(phase).None? then UnknownPhase(phase) else UnknownPart(part))]
  {
    var o := Run(lib, phase, part, build, files, fs, force);
    if !Rejected(phase, part) {
      var jobs := Jobs(files);
      match ParsePhase(phase).value
      case ValidatePhase =>
        if !Truthy(part) {
          LoopReports(lib, ValidateOp, part, build, force, jobs, fs);
        }
      case SetPhase =>
        LoopReports(lib, SetOp, part, build, force, jobs, fs);
        assert o == Loop(lib, SetOp, part, build, force, jobs, fs);
      case BumpPhase =>
        LoopReports(lib, BumpOp(ParseBumpPart(part).value), part, build, force, jobs, fs);
      case StripPhase =>
        LoopReports(lib, StripOp(ParseStripPart(part).value), part, build, force, jobs, fs);
    } else {
      assert o.trace[0].Warned? && !o.trace[0].warning.SourceFailed?;
    }
  }

  /** Which procedure an accepted phase runs: validate without a part, set, and bump or strip
      with a whitelisted part each run the per-source loop with their own operation, and the
      part names the increment or the identifiers to clear. */
  lemma RunRoutes(lib: Library, phase: Option<string>, part: Option<string>, build: Option<string>,
                  files: seq<FileSpec>, fs: FileSystem, force: bool)
    ensures var o := Run(lib, phase, part, build, files, fs, force);
      && (phase == Some("validate") && !Truthy(part) ==> o == Loop(lib, ValidateOp, part, build, force, Jobs(files), fs))
      && (phase == Some("set") ==> o == Loop(lib, SetOp, part, build, force, Jobs(files), fs))
      && (forall b: BumpPart :: phase == Some("bump") && part == Some(BumpPartName(b)) ==>
            o == Loop(lib, BumpOp(b), part, build, force, Jobs(files), fs))
      && (forall s: StripPart :: phase == Some("strip") && part == Some(StripPartName(s)) ==>
            o == Loop(lib, StripOp(s), part, build, force, Jobs(files), fs))
  {
    if phase == Some("validate") && !Truthy(part) {
      RunsValidate(lib, part, build, files, fs, force);
    } else if phase == Some("set") {
      RunsSet(lib, part, build, files, fs, force);
    }
    forall b: BumpPart | phase == Some("bump") && part == Some(BumpPartName(b))
      ensures Run(lib, phase, part, build, files, fs, force) == Loop(lib, BumpOp(b), part, build, force, Jobs(files), fs)
    {
      RunsBump(lib, b, build, files, fs, force);
    }
    forall s: StripPart | phase == Some("strip") && part == Some(StripPartName(s))
      ensures Run(lib, phase, part, build, files, fs, force) == Loop(lib, StripOp(s), part, build, force, Jobs(files), fs)
    {
      RunsStrip(lib, s, build, files, fs, force);
    }
  }

  lemma RunsValidate(lib: Library, part: Option<string>, build: Option<string>, files: seq<FileSpec>, fs: FileSystem, force: bool)
    requires !Truthy(part)
    ensures Run(lib, Some("validate"), part, build, files, fs, force) == Loop(lib, ValidateOp, part, build, force, Jobs(files), fs)
  {
    assert ParsePhase(Some("validate")) == Some(ValidatePhase);
  }

  lemma RunsSet(lib: Library, part: Option<string>, build: Option<string>, files: seq<FileSpec>, fs: FileSystem, force: bool)
    ensures Run(lib, Some("set"), part, build, files, fs, force) == Loop(lib, SetOp, part, build, force, Jobs(files), fs)
  {
    assert ParsePhase(Some("set")) == Some(SetPhase);
  }

  lemma RunsBump(lib: Library, b: BumpPart, build: Option<string>, files: seq<FileSpec>, fs: FileSystem, force: bool)
    ensures var part := Some(BumpPartName(b));
      Run(lib, Some("bump"), part, build, files, fs, force) == Loop(lib, BumpOp(b), part, build, force, Jobs(files), fs)
  {
    BumpPartNamesRoundTrip(b);
    assert ParsePhase(Some("bump")) == Some(BumpPhase);
  }

  lemma RunsStrip(lib: Library, s: StripPart, build: Option<string>, files: seq<FileSpec>, fs: FileSystem, force: bool)
    ensures var part := Some(StripPartName(s));
      Run(lib, Some("strip"), part, build, files, fs, force) == Loop(lib, StripOp(s), part, build, force, Jobs(files), fs)
  {
    StripPartNamesRoundTrip(s);
    assert ParsePhase(Some("strip")) == Some(StripPhase);
  }

  /** Literal validation: with a part given, validate reads no file, writes nothing and either
      announces the formatted parse of `build ? clean(part) + "+" + build : part` with no source,
      or warns without a source. */
  lemma LiteralValidation(lib: Library, part: Option<string>, build: Option<string>,
                          files: seq<FileSpec>, fs: FileSystem, force: bool)
    requires Truthy(part)
    ensures var o := Run(lib, Some("validate"), part, build, files, fs, force);
      && o.fs == fs
      && |o.trace| == 1
      && (lib.parse(Decorated(lib, part.value, build)).Some? ==>
            o.trace[0] == Emitted(Event(ValidatePhase, Format(lib.parse(Decorated(lib, part.value, build)).value), None, None)))
      && (lib.parse(Decorated(lib, part.value, build)).None? ==>
            o.trace[0] == Warned(SourceFailed(None, Invalid(Decorated(lib, part.value, build)))))
  {
  }

  /** File-mode validation writes nothing; with `force` every source ends in exactly one event or
      one warning, and each event carries its source and no destination. */
  lemma FileValidation(lib: Library, part: Option<string>, build: Option<string>,
                       files: seq<FileSpec>, fs: FileSystem)
    requires !Truthy(part)
    ensures var o := Run(lib, Some("validate"), part, build, files, fs, true);
      && o.fs == fs
      && Written(o.trace) == []
      && |Events(o.trace)| + |Warnings(o.trace)| == |Jobs(files)|
      && (forall i :: 0 <= i < |o.trace| && o.trace[i].Emitted? ==>
            o.trace[i].event.phase == ValidatePhase && o.trace[i].event.src.Some? && o.trace[i].event.dest.None?)
  {
    LoopReports(lib, ValidateOp, part, build, true, Jobs(files), fs);
    assert Run(lib, Some("validate"), part, build, files, fs, true) == Loop(lib, ValidateOp, part, build, true, Jobs(files), fs);
  }

  /** Every version a phase computes is the grunt task's `format` of a version the library parsed,
      after the phase's own change to it. */
  lemma NewVersionIsFormatted(lib: Library, op: Op, part: Option<string>, build: Option<string>, current: Json)
    requires NewVersion(lib, op, part, build, current).Success?
    ensures exists t: string, v: Version ::
      lib.parse(t) == Some(v) && NewVersion(lib, op, part, build, current).value == Format(Apply(lib, op, v))
  {
    var t := match op
      case ValidateOp => Decorated(lib, current.text, build)
      case SetOp => Decorated(lib, if Truthy(part) then part.value else current.text, build)
      case BumpOp(_) => BumpInput(lib, current.text, build).value
      case StripOp(_) => current.text;
    assert lib.parse(t).Some?;
    assert NewVersion(lib, op, part, build, current).value == Format(Apply(lib, op, lib.parse(t).value));
  }

  /** Parse a text, apply the phase's change and format the result; a text the library refuses
      fails the turn, naming that text. */
  function ParseThenApply(lib: Library, op: Op, t: string): Result<string, Cause> {
    match lib.parse(t)
    case Some(v) => Success(Format(Apply(lib, op, v)))
    case None => Failure(Invalid(t))
  }

  /** The text each phase hands to the parser, and what becomes of it: validate and set parse
      `build ? clean(x) + "+" + build : x`, where set's `x` is the part when one is given; bump
      parses its cleaned input; strip parses the stored text as it is. A text the library
      refuses fails the turn. A `version` member that is not a string fails with `NotText`,
      unless set has a part to use instead. */
  lemma NewVersionParses(lib: Library, op: Op, part: Option<string>, build: Option<string>, current: Json)
    ensures op == SetOp && Truthy(part) ==>
      NewVersion(lib, op, part, build, current) == ParseThenApply(lib, op, Decorated(lib, part.value, build))
    ensures current.JString? && op == SetOp && !Truthy(part) ==>
      NewVersion(lib, op, part, build, current) == ParseThenApply(lib, op, Decorated(lib, current.text, build))
    ensures current.JString? && op == ValidateOp ==>
      NewVersion(lib, op, part, build, current) == ParseThenApply(lib, op, Decorated(lib, current.text, build))
    ensures current.JString? && op.StripOp? ==>
      NewVersion(lib, op, part, build, current) == ParseThenApply(lib, op, current.text)
    ensures current.JString? && op.BumpOp? && BumpInput(lib, current.text, build).Success? ==>
      NewVersion(lib, op, part, build, current) == ParseThenApply(lib, op, BumpInput(lib, current.text, build).value)
    ensures current.JString? && op.BumpOp? && BumpInput(lib, current.text, build).Failure? ==>
      NewVersion(lib, op, part, build, current) == Failure(NotText)
    ensures !current.JString? && !(op == SetOp && Truthy(part)) ==>
      NewVersion(lib, op, part, build, current) == Failure(NotText)
  {
  }

  /** With a part, set stores the literal validation of that part, whatever the manifest held. */
  lemma SetPartOverrides(lib: Library, part: Option<string>, build: Option<string>, current: Json, other: Json)
    requires Truthy(part)
    ensures NewVersion(lib, SetOp, part, build, current) == NewVersion(lib, SetOp, part, build, other)
    ensures NewVersion(lib, SetOp, part, build, current) == NewVersion(lib, ValidateOp, part, build, JString(part.value))
  {
  }

  /** Without a part, set stores exactly the version validate reports for the same manifest. */
  lemma SetWithoutPartStoresValidation(lib: Library, part: Option<string>, build: Option<string>, current: Json)
    requires !Truthy(part)
    ensures NewVersion(lib, SetOp, part, build, current) == NewVersion(lib, ValidateOp, part, build, current)
  {
  }

  /** Without a build, validate and set never consult `clean`: two libraries that parse alike
      give the same result. */
  lemma NoBuildNoClean(lib1: Library, lib2: Library, op: Op, part: Option<string>, build: Option<string>, current: Json)
    requires op == ValidateOp || op == SetOp
    requires !Truthy(build)
    requires lib1.parse == lib2.parse
    ensures NewVersion(lib1, op, part, build, current) == NewVersion(lib2, op, part, build, current)
  {
  }

  /** Bump always cleans: versions that clean alike bump alike, with or without a build. */
  lemma BumpAlwaysCleans(lib: Library, p: BumpPart, part: Option<string>, build: Option<string>, s1: string, s2: string)
    requires lib.clean(s1) == lib.clean(s2)
    ensures NewVersion(lib, BumpOp(p), part, build, JString(s1)) == NewVersion(lib, BumpOp(p), part, build, JString(s2))
  {
  }

  /** What bump parses. With a build it is the very text validate parses, so the two succeed
      together and bump stores the increment of the version validate reports; without one it is
      the cleaned text, and a null clean result fails the turn. */
  lemma BumpParses(lib: Library, p: BumpPart, part: Option<string>, build: Option<string>, s: string)
    ensures Truthy(build) ==>
      var t := Decorated(lib, s, build);
      && (lib.parse(t).Some? ==>
            && NewVersion(lib, BumpOp(p), part, build, JString(s)) == Success(Format(lib.inc(lib.parse(t).value, p)))
            && NewVersion(lib, ValidateOp, part, build, JString(s)) == Success(Format(lib.parse(t).value)))
      && (lib.parse(t).None? ==>
            NewVersion(lib, BumpOp(p), part, build, JString(s)) == Failure(Invalid(t))
              == NewVersion(lib, ValidateOp, part, build, JString(s)))
    ensures !Truthy(build) && lib.clean(s).Some? ==>
      var c := lib.clean(s).value;
      NewVersion(lib, BumpOp(p), part, build, JString(s))
        == if lib.parse(c).Some? then Success(Format(lib.inc(lib.parse(c).value, p))) else Failure(Invalid(c))
    ensures !Truthy(build) && lib.clean(s).None? ==>
      NewVersion(lib, BumpOp(p), part, build, JString(s)) == Failure(NotText)
  {
  }

  /** Strip parses the stored text as it is: neither `clean`, nor the build option, nor the part
      option text plays any role. */
  lemma StripParsesAsIs(lib1: Library, lib2: Library, p: StripPart, part1: Option<string>, part2: Option<string>,
                        build1: Option<string>, build2: Option<string>, current: Json)
    requires lib1.parse == lib2.parse
    ensures NewVersion(lib1, StripOp(p), part1, build1, current) == NewVersion(lib2, StripOp(p), part2, build2, current)
  {
  }

  /** Under a lawful library, what strip stores has no build metadata when the build was
      stripped, and no pre-release before its build metadata when the pre-release was. */
  lemma StrippedVersionShape(lib: Library, p: StripPart, part: Option<string>, build: Option<string>, current: Json)
    requires Lawful(lib)
    requires NewVersion(lib, StripOp(p), part, build, current).Success?
    ensures var t := NewVersion(lib, StripOp(p), part, build, current).value;
      && (p == Build ==> '+' !in t)
      && (p == Prerelease ==> '-' !in BaseOf(t))
  {
    var v := lib.parse(current.text).value;
    assert NewVersion(lib, StripOp(p), part, build, current) == Success(Format(Versions.Strip(Some(v), Some(p)).value));
    StrippedShape(v, p);
  }

  /** A phase whose result, stored back, computes itself again. */
  ghost predicate Stable(lib: Library, op: Op, part: Option<string>, build: Option<string>) {
    forall c :: NewVersion(lib, op, part, build, c).Success? ==>
      NewVersion(lib, op, part, build, JString(NewVersion(lib, op, part, build, c).value))
        == NewVersion(lib, op, part, build, c)
  }

  /** A build option that reads as build metadata: its dot-separated pieces are identifiers. */
  predicate BuildReadsBack(build: Option<string>) {
    !Truthy(build) || AllIdentifiers(Split(build.value, '.'))
  }

  /** Under a lawful library, set is stable: a second set stores the same string as the first,
      with or without a build, as long as the build reads as build metadata. */
  lemma SetIsStable(lib: Library, part: Option<string>, build: Option<string>)
    requires Lawful(lib)
    requires BuildReadsBack(build)
    ensures Stable(lib, SetOp, part, build)
  {
    forall c | NewVersion(lib, SetOp, part, build, c).Success?
      ensures NewVersion(lib, SetOp, part, build, JString(NewVersion(lib, SetOp, part, build, c).value))
              == NewVersion(lib, SetOp, part, build, c)
    {
      if Truthy(part) {
        SetPartOverrides(lib, part, build, c, JString(NewVersion(lib, SetOp, part, build, c).value));
      } else if Truthy(build) {
        SetWithBuildIsStable(lib, part, build, c.text);
      } else {
        var v := lib.parse(c.text).value;
        assert WellFormed(v);
        assert lib.parse(Format(v)) == Some(v);
      }
    }
  }

  /** The case with a build: the build option becomes the build metadata of what set stores,
      so cleaning the stored version and appending the build gives the stored version back, and
      setting it again yields it unchanged. */
  lemma SetWithBuildIsStable(lib: Library, part: Option<string>, build: Option<string>, s: string)
    requires Lawful(lib)
    requires !Truthy(part) && Truthy(build) && AllIdentifiers(Split(build.value, '.'))
    requires lib.parse(Decorated(lib, s, build)).Some?
    ensures lib.parse(Decorated(lib, s, build)).value.build == Split(build.value, '.')
    ensures NewVersion(lib, SetOp, part, build, JString(s)).Success?
    ensures var r := NewVersion(lib, SetOp, part, build, JString(s)).value;
            && r == Render(lib.parse(Decorated(lib, s, build)).value) + "+" + build.value
            && Decorated(lib, r, build) == r
            && NewVersion(lib, SetOp, part, build, JString(r)) == Success(r)
  {
    var b := build.value;
    var t := Decorated(lib, s, build);
    var v := lib.parse(t).value;
    assert NewVersion(lib, SetOp, part, build, JString(s)) == Success(Format(v));
    assert '+' !in CleanedText(lib, s);
    assert BuildOf(t) == Split(b, '.');
    assert v.build == Split(b, '.');
    assert WellFormed(v);
    JoinSplit(b, '.');
    assert Format(v) == Render(v) + "+" + b;
    assert lib.clean(Format(v)) == Some(Render(v));
    assert Decorated(lib, Format(v), build) == Format(v);
    assert lib.parse(Format(v)) == Some(v);
  }

  /** Under a lawful library, strip is stable: stripping a stripped version changes nothing. */
  lemma StripIsStable(lib: Library, p: StripPart, part: Option<string>, build: Option<string>)
    requires Lawful(lib)
    ensures Stable(lib, StripOp(p), part, build)
  {
    forall c | NewVersion(lib, StripOp(p), part, build, c).Success?
      ensures NewVersion(lib, StripOp(p), part, build, JString(NewVersion(lib, StripOp(p), part, build, c).value))
              == NewVersion(lib, StripOp(p), part, build, c)
    {
      var v := lib.parse(c.text).value;
      var w := Versions.Strip(Some(v), Some(p)).value;
      StripWellFormed(v, p);
      assert lib.parse(Format(w)) == Some(w);
      StripIdempotent(Some(v), Some(p));
    }
  }

  /** A manifest rewritten in place by a stable phase transforms to itself. */
  lemma RewriteStable(lib: Library, op: Op, part: Option<string>, build: Option<string>,
                      fs: FileSystem, path: Path, m: Manifest, t: string)
    requires Stable(lib, op, part, build)
    requires Transform(lib, op, part, build, fs, path) == Success((m, t))
    ensures var m' := WithVersion(m, t);
            Transform(lib, op, part, build, fs[path := Parsed(JObject(m'))], path) == Success((m', t))
            && WithVersion(m', t) == m'
  {
    var m' := WithVersion(m, t);
    var current := CurrentVersion(fs[path].doc).value;
    assert NewVersion(lib, op, part, build, current) == Success(t);
    assert NewVersion(lib, op, part, build, JString(t)) == Success(t);
    assert CurrentVersion(JObject(m')) == Success(JString(t));
  }

  /** A stable phase run twice on one manifest rewritten in place leaves the file system as the
      first run left it. */
  lemma InPlaceTwice(lib: Library, op: Op, part: Option<string>, build: Option<string>,
                     force: bool, path: Path, fs: FileSystem)
    requires op != ValidateOp
    requires Stable(lib, op, part, build)
    ensures var once := Loop(lib, op, part, build, force, [Job(path, path)], fs);
            Loop(lib, op, part, build, force, [Job(path, path)], once.fs).fs == once.fs
  {
    var job := Job(path, path);
    var block := ProcessSource(lib, op, part, build, fs, job);
    SingleSource(lib, op, part, build, force, job, fs);
    BlockFacts(op, [job], job, block, fs);
    var once := Loop(lib, op, part, build, force, [job], fs);
    SingleSource(lib, op, part, build, force, job, once.fs);
    if !block[0].Warned? {
      var m := fs[path].doc.fields;
      var t := block[1].event.version;
      var m' := WithVersion(m, t);
      assert once.fs == fs[path := Parsed(JObject(m'))];
      RewriteStable(lib, op, part, build, fs, path, m, t);
      var again := ProcessSource(lib, op, part, build, once.fs, job);
      BlockFacts(op, [job], job, again, once.fs);
    }
  }

  /** The whole task: set run twice on a manifest rewritten in place leaves it as the first run
      did. */
  lemma SetTwiceInPlace(lib: Library, part: Option<string>, build: Option<string>, force: bool, path: Path, fs: FileSystem)
    requires Lawful(lib)
    requires BuildReadsBack(build)
    ensures var files := [FileSpec([path], path)];
            var once := Run(lib, Some("set"), part, build, files, fs, force);
            Run(lib, Some("set"), part, build, files, once.fs, force).fs == once.fs
  {
    assert Jobs([FileSpec([path], path)]) == [Job(path, path)];
    SetIsStable(lib, part, build);
    InPlaceTwice(lib, SetOp, part, build, force, path, fs);
  }

  /** The whole task: strip run twice on a manifest rewritten in place leaves it as the first
      run did. */
  lemma StripTwiceInPlace(lib: Library, p: StripPart, build: Option<string>, force: bool, path: Path, fs: FileSystem)
    requires Lawful(lib)
    ensures var files := [FileSpec([path], path)];
            var part := Some(StripPartName(p));
            var once := Run(lib, Some("strip"), part, build, files, fs, force);
            Run(lib, Some("strip"), part, build, files, once.fs, force).fs == once.fs
  {
    assert Jobs([FileSpec([path], path)]) == [Job(path, path)];
    StripPartNamesRoundTrip(p);
    StripIsStable(lib, p, Some(StripPartName(p)), build);
    InPlaceTwice(lib, StripOp(p), Some(StripPartName(p)), build, force, path, fs);
  }
}
