/** The body of the `semver` multi-task (tasks/semver.js:69-221) as a pure function: the phase
    switch, the part whitelists of `bump` and `strip`, the literal validation and the per-source
    loop the phases share. Options arrive already resolved: `part` and `build` are the values
    the grunt task reads back from its options, `files` is the expanded file list. */
module Task {
  import opened Wrappers
  import opened Strings
  import opened Versions
  import opened Manifests
  import opened Semver
  import opened Effects

  /** One entry of the grunt task's file list: sources and the destination they are written to. */
  datatype FileSpec = FileSpec(src: seq<Path>, dest: Path)

  /** One turn of the inner `file.src.forEach`: a source and its descriptor's destination. */
  datatype Job = Job(src: Path, dest: Path)

  /** What a recognised phase does to each source, with its whitelisted part. */
  datatype Op = ValidateOp | SetOp | BumpOp(bump: BumpPart) | StripOp(strip: StripPart)

  function OpPhase(op: Op): Phase {
    match op
    case ValidateOp => ValidatePhase
    case SetOp => SetPhase
    case BumpOp(_) => BumpPhase
    case StripOp(_) => StripPhase
  }

  /** JavaScript truthiness of an option value: defined and not the empty string. */
  predicate Truthy(o: Option<string>) {
    o.Some? && o.value != ""
  }

  /** The sources of one descriptor, each paired with its destination, in order. */
  function Pairs(srcs: seq<Path>, dest: Path): (r: seq<Job>)
    ensures |r| == |srcs|
    ensures forall k :: 0 <= k < |r| ==> r[k] == Job(srcs[k], dest)
  {
    if |srcs| == 0 then [] else [Job(srcs[0], dest)] + Pairs(srcs[1..], dest)
  }

  /** The iterations of `files.forEach(file => file.src.forEach(...))`, in order. */
  function Jobs(files: seq<FileSpec>): (r: seq<Job>)
    ensures forall j :: j in r <==> exists i :: 0 <= i < |files| && j.src in files[i].src && j.dest == files[i].dest
    ensures |files| == 1 ==> r == Pairs(files[0].src, files[0].dest)
  {
    if |files| == 0 then [] else Pairs(files[0].src, files[0].dest) + Jobs(files[1..])
  }

  /** The descriptors run one after the other, in order: the turns of a list of descriptors are
      the turns of its first part followed by those of the rest. */
  lemma {:induction false} JobsAppend(f1: seq<FileSpec>, f2: seq<FileSpec>)
    ensures Jobs(f1 + f2) == Jobs(f1) + Jobs(f2)
    decreases |f1|
  {
    if |f1| > 0 {
      assert (f1 + f2)[0] == f1[0];
      assert (f1 + f2)[1..] == f1[1..] + f2;
      JobsAppend(f1[1..], f2);
    } else {
      assert f1 + f2 == f2;
    }
  }

  /** `semver.clean(s)` as a string operand: a null result is concatenated as "null". */
  function CleanedText(lib: Library, s: string): string {
    match lib.clean(s)
    case Some(c) => c
    case None => "null"
  }

  /** What validate and set hand to the parser: `build ? semver.clean(s) + "+" + build : s`.
      Without a build the text goes to the parser untouched; with one, the build option follows
      the first `+`, so it becomes the build metadata of what is parsed whenever the cleaned
      text has no `+` of its own. */
  function Decorated(lib: Library, s: string, build: Option<string>): (t: string)
    ensures !Truthy(build) ==> t == s
    ensures Truthy(build) ==> '+' in t && |t| > |build.value| && t[|t| - |build.value|..] == build.value
    ensures Truthy(build) && '+' !in CleanedText(lib, s) ==>
      BaseOf(t) == CleanedText(lib, s) && BuildOf(t) == Split(build.value, '.')
  {
    if Truthy(build) then
      var c := CleanedText(lib, s);
      SuffixAfterPlus(c, build.value);
      c + "+" + build.value
    else s
  }

  /** What bump hands to the parser. With a build it is exactly the text validate and set would
      parse; without one it is the cleaned text, and a null clean result reaches the parser as
      null, which it refuses. */
  function BumpInput(lib: Library, s: string, build: Option<string>): (r: Result<string, Cause>)
    ensures r.Success? <==> Truthy(build) || lib.clean(s).Some?
    ensures Truthy(build) ==> r == Success(Decorated(lib, s, build))
    ensures !Truthy(build) && r.Success? ==> lib.clean(s) == Some(r.value)
    ensures r.Failure? ==> r.error == NotText
  {
    if Truthy(build) then Success(CleanedText(lib, s) + "+" + build.value)
    else match lib.clean(s)
      case Some(c) => Success(c)
      case None => Failure(NotText)
  }

  /** `semver(s)`. */
  function ParseText(lib: Library, s: string): Result<Version, Cause> {
    match lib.parse(s)
    case Some(v) => Success(v)
    case None => Failure(Invalid(s))
  }

  /** A version value handed to the library must be a string. */
  function Text(j: Json): Result<string, Cause> {
    if j.JString? then Success(j.text) else Failure(NotText)
  }

  /** What a phase does to a parsed version before it is formatted. */
  function Apply(lib: Library, op: Op, v: Version): Version {
    match op
    case BumpOp(p) => lib.inc(v, p)
    case StripOp(p) => Versions.Strip(Some(v), Some(p)).value
    case _ => v
  }

  /** The new version string of one source whose `version` value is `current`. */
  function NewVersion(lib: Library, op: Op, part: Option<string>, build: Option<string>, current: Json)
    : (r: Result<string, Cause>)
    ensures r.Success? ==> current.JString? || (op == SetOp && Truthy(part))
    ensures r.Failure? && r.error.Invalid? ==> lib.parse(r.error.input).None?
  {
    match op
    case ValidateOp =>
      var s :- Text(current);
      var v :- ParseText(lib, Decorated(lib, s, build));
      Success(Format(v))
    case SetOp =>
      var s :- Text(if Truthy(part) then JString(part.value) else current);
      var v :- ParseText(lib, Decorated(lib, s, build));
      Success(Format(v))
    case BumpOp(p) =>
      var s :- Text(current);
      var input :- BumpInput(lib, s, build);
      var v :- ParseText(lib, input);
      Success(Format(Apply(lib, op, v)))
    case StripOp(p) =>
      var s :- Text(current);
      var v :- ParseText(lib, s);
      Success(Format(Apply(lib, op, v)))
  }

  /** The body of one source's `try` block up to the write: read the manifest, look at its
      version, compute the new one. */
  function Transform(lib: Library, op: Op, part: Option<string>, build: Option<string>, fs: FileSystem, src: Path)
    : (r: Result<(Manifest, string), Cause>)
    ensures r.Success? ==>
      && src in fs && fs[src].Parsed? && fs[src].doc.JObject? && CurrentVersion(fs[src].doc).Success?
      && r.value.0 == fs[src].doc.fields
      && NewVersion(lib, op, part, build, CurrentVersion(fs[src].doc).value) == Success(r.value.1)
    ensures
      && src in fs && fs[src].Parsed? && CurrentVersion(fs[src].doc).Success?
      && NewVersion(lib, op, part, build, CurrentVersion(fs[src].doc).value).Success?
      ==> r.Success?
  {
    var doc :- ReadJson(fs, src);
    var current :- CurrentVersion(doc);
    var version :- NewVersion(lib, op, part, build, current);
    Success((doc.fields, version))
  }

  /** The effects of one source form one block: a warning naming the source; or, for validate,
      one event naming the source and no destination; or a write of the destination followed by
      the event announcing the version that write stored. */
  predicate Block(op: Op, job: Job, r: seq<Effect>) {
    || (|r| == 1 && r[0].Warned? && r[0].warning.SourceFailed? && r[0].warning.src == Some(job.src))
    || (&& |r| == 1 && op == ValidateOp && r[0].Emitted?
        && r[0].event.phase == ValidatePhase && r[0].event.src == Some(job.src) && r[0].event.dest == None)
    || (&& |r| == 2 && op != ValidateOp && r[0].Wrote? && r[1].Emitted?
        && r[0].path == job.dest
        && r[1].event == Event(OpPhase(op), r[1].event.version, Some(job.src), Some(job.dest))
        && VersionKey in r[0].manifest && r[0].manifest[VersionKey] == JString(r[1].event.version))
  }

  /** One turn of the inner loop, `try` and `catch` included. */
  function ProcessSource(lib: Library, op: Op, part: Option<string>, build: Option<string>, fs: FileSystem, job: Job)
    : (r: seq<Effect>)
    ensures Block(op, job, r)
    ensures r[|r| - 1].Warned? <==> Transform(lib, op, part, build, fs, job.src).Failure?
    ensures r[|r| - 1].Warned? ==> r[|r| - 1].warning.cause == Transform(lib, op, part, build, fs, job.src).error
    ensures r[|r| - 1].Emitted? ==> Transform(lib, op, part, build, fs, job.src).value.1 == r[|r| - 1].event.version
    ensures |r| == 2 ==>
      && job.src in fs && fs[job.src].Parsed? && fs[job.src].doc.JObject?
      && r[0].manifest == WithVersion(fs[job.src].doc.fields, r[1].event.version)
  {
    match Transform(lib, op, part, build, fs, job.src)
    case Failure(c) => [Warned(SourceFailed(Some(job.src), c))]
    case Success((m, version)) =>
      if op == ValidateOp then [Emitted(Event(ValidatePhase, version, Some(job.src), None))]
      else [Wrote(job.dest, WithVersion(m, version)), Emitted(Event(OpPhase(op), version, Some(job.src), Some(job.dest)))]
  }

  /** A block holds one event or one warning; only a warning block warns, and a validate block
      writes nothing. */
  lemma BlockCounts(op: Op, job: Job, block: seq<Effect>, fs: FileSystem)
    requires Block(op, job, block)
    ensures |Events(block)| + |Warnings(block)| == 1
    ensures Warnings(block) == (if block[0].Warned? then [block[0].warning] else [])
    ensures op == ValidateOp ==> Replay(fs, block) == fs && Written(block) == []
  {
    if |block| == 2 {
      assert block[1..][1..] == [];
    } else {
      assert block[1..] == [];
    }
  }

  /** The per-source loop. Every source gets its own block of effects, and the next source sees
      the file system those effects left. A warning ends the run unless `force` is set, as
      `grunt.warn` does. */
  function Loop(lib: Library, op: Op, part: Option<string>, build: Option<string>, force: bool, jobs: seq<Job>, fs: FileSystem)
    : (o: Outcome)
    ensures op == ValidateOp ==> o.fs == fs && Written(o.trace) == []
    ensures force ==> |Events(o.trace)| + |Warnings(o.trace)| == |jobs|
    ensures !force ==> |Warnings(o.trace)| <= 1
    decreases |jobs|
  {
    if |jobs| == 0 then Outcome(fs, [])
    else
      var block := ProcessSource(lib, op, part, build, fs, jobs[0]);
      BlockCounts(op, jobs[0], block, fs);
      if !force && block[0].Warned? then
        Outcome(fs, block)
      else
        var rest := Loop(lib, op, part, build, force, jobs[1..], Replay(fs, block));
        EventsAppend(block, rest.trace);
        Outcome(rest.fs, block + rest.trace)
  }

  /** The phase switch: exactly the four phase names are recognised. */
  function ParsePhase(phase: Option<string>): (r: Option<Phase>)
    ensures r.Some? ==> phase == Some(PhaseName(r.value))
    ensures r.None? ==> forall p :: phase != Some(PhaseName(p))
  {
    match phase
    case Some("validate") => Some(ValidatePhase)
    case Some("set") => Some(SetPhase)
    case Some("bump") => Some(BumpPhase)
    case Some("strip") => Some(StripPhase)
    case _ => None
  }

  /** A value as JavaScript string concatenation shows it. */
  function Show(o: Option<string>): string {
    if o.Some? then o.value else "undefined"
  }

  /** The option value a rejection warning quotes, as JavaScript shows it. */
  function Quoted(w: Warning): string
    requires !w.SourceFailed?
  {
    if w.UnknownPhase? then Show(w.phase) else Show(w.part)
  }

  /** The text of a warning the grunt task composes itself: which option was rejected, then the
      rejected value between single quotes. */
  function Message(w: Warning): (s: string)
    requires !w.SourceFailed?
    ensures w.UnknownPhase? ==> "Unknown phase '" <= s
    ensures w.UnknownPart? ==> "Unknown part '" <= s
    ensures var k := if w.UnknownPhase? then |"Unknown phase '"| else |"Unknown part '"|;
      k < |s| && s[k..|s| - 1] == Quoted(w) && s[|s| - 1] == '\''
  {
    match w
    case UnknownPhase(phase) => "Unknown phase '" + Show(phase) + "'"
    case UnknownPart(part) => "Unknown part '" + Show(part) + "'"
  }

  /** A rejection message tells which option was rejected and the value it had, as shown; an
      absent value and the text "undefined" read alike, as in JavaScript. */
  lemma MessageDetermines(w1: Warning, w2: Warning)
    requires !w1.SourceFailed? && !w2.SourceFailed?
    ensures Message(w1) == Message(w2) <==> w1.UnknownPhase? == w2.UnknownPhase? && Quoted(w1) == Quoted(w2)
  {
    var s1, s2 := Message(w1), Message(w2);
    if s1 == s2 && w1.UnknownPhase? == w2.UnknownPhase? {
      var k := if w1.UnknownPhase? then |"Unknown phase '"| else |"Unknown part '"|;
      assert Quoted(w1) == s1[k..|s1| - 1] == Quoted(w2);
    } else if w1.UnknownPhase? != w2.UnknownPhase? {
      assert s1[9] == (if w1.UnknownPhase? then 'h' else 'a');
      assert s2[9] == (if w2.UnknownPhase? then 'h' else 'a');
    }
  }

  /** The grunt task body: dispatch on the phase, check the part where the phase has a whitelist, and
      run the literal validation or the per-source loop. */
  function Run(lib: Library, phase: Option<string>, part: Option<string>, build: Option<string>,
               files: seq<FileSpec>, fs: FileSystem, force: bool): (o: Outcome)
    ensures ParsePhase(phase).None? ==> o == Outcome(fs, [Warned(UnknownPhase(phase))])
    ensures ParsePhase(phase) == Some(BumpPhase) && ParseBumpPart(part).None? ==> o == Outcome(fs, [Warned(UnknownPart(part))])
    ensures ParsePhase(phase) == Some(StripPhase) && ParseStripPart(part).None? ==> o == Outcome(fs, [Warned(UnknownPart(part))])
    ensures ParsePhase(phase) == Some(ValidatePhase) ==> o.fs == fs && Written(o.trace) == []
  {
    match ParsePhase(phase)
    case None => Outcome(fs, [Warned(UnknownPhase(phase))])
    case Some(ValidatePhase) =>
      if Truthy(part) then
        (match NewVersion(lib, ValidateOp, part, build, JString(part.value))
         case Success(version) => Outcome(fs, [Emitted(Event(ValidatePhase, version, None, None))])
         case Failure(c) => Outcome(fs, [Warned(SourceFailed(None, c))]))
      else
        Loop(lib, ValidateOp, part, build, force, Jobs(files), fs)
    case Some(SetPhase) =>
      Loop(lib, SetOp, part, build, force, Jobs(files), fs)
    case Some(BumpPhase) =>
      (match ParseBumpPart(part)
       case None => Outcome(fs, [Warned(UnknownPart(part))])
       case Some(p) => Loop(lib, BumpOp(p), part, build, force, Jobs(files), fs))
    case Some(StripPhase) =>
      (match ParseStripPart(part)
       case None => Outcome(fs, [Warned(UnknownPart(part))])
       case Some(p) => Loop(lib, StripOp(p), part, build, force, Jobs(files), fs))
  }
}
