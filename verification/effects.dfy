/** What one run of the grunt task does to the outside world, in order: manifest writes, `semver.*`
    events and `grunt.warn` calls. The run's trace of effects replaces the grunt event bus and the
    warning channel; the file system after a run is the one before it with the trace's writes
    applied in order. */
module Effects {
  import opened Wrappers
  import opened Manifests

  datatype Phase = ValidatePhase | SetPhase | BumpPhase | StripPhase

  function PhaseName(p: Phase): string {
    match p
    case ValidatePhase => "validate"
    case SetPhase => "set"
    case BumpPhase => "bump"
    case StripPhase => "strip"
  }

  /** The name under which an event of the phase is emitted. */
  function EventName(p: Phase): (n: string)
    ensures "semver." <= n && n[|"semver."|..] == PhaseName(p)
  {
    "semver." + PhaseName(p)
  }

  /** Each phase is announced under a name of its own. */
  lemma EventNamesDistinct(p: Phase, q: Phase)
    ensures EventName(p) == EventName(q) <==> p == q
  {
    if EventName(p) == EventName(q) {
      assert PhaseName(p) == EventName(p)[|"semver."|..] == PhaseName(q);
      assert PhaseName(p)[0] == PhaseName(q)[0];
      assert PhaseName(p)[1] == PhaseName(q)[1];
    }
  }

  /** `grunt.event.emit(EventName(phase), version, src, dest)`; `src` is absent only for a
      literal validation and `dest` is absent for every validation. */
  datatype Event = Event(phase: Phase, version: string, src: Option<Path>, dest: Option<Path>)

  datatype Warning =
    | UnknownPhase(phase: Option<string>)
    | UnknownPart(part: Option<string>)
    | SourceFailed(src: Option<Path>, cause: Cause)

  datatype Effect =
    | Wrote(path: Path, manifest: Manifest)
    | Emitted(event: Event)
    | Warned(warning: Warning)

  /** The file system after a run and everything the run did, in order. */
  datatype Outcome = Outcome(fs: FileSystem, trace: seq<Effect>)

  /** The events of a trace, in order. */
  function Events(trace: seq<Effect>): (r: seq<Event>)
    ensures |r| <= |trace|
  {
    if |trace| == 0 then []
    else (if trace[0].Emitted? then [trace[0].event] else []) + Events(trace[1..])
  }

  /** The warnings of a trace, in order. */
  function Warnings(trace: seq<Effect>): (r: seq<Warning>)
    ensures |r| <= |trace|
  {
    if |trace| == 0 then []
    else (if trace[0].Warned? then [trace[0].warning] else []) + Warnings(trace[1..])
  }

  /** The paths written by a trace, in order. */
  function Written(trace: seq<Effect>): (r: seq<Path>)
    ensures |r| <= |trace|
  {
    if |trace| == 0 then []
    else (if trace[0].Wrote? then [trace[0].path] else []) + Written(trace[1..])
  }

  /** Applies the writes of a trace to a file system, first to last. */
  function Replay(fs: FileSystem, trace: seq<Effect>): FileSystem
    decreases |trace|
  {
    if |trace| == 0 then fs
    else
      var next := if trace[0].Wrote? then WriteManifest(fs, trace[0].path, trace[0].manifest) else fs;
      Replay(next, trace[1..])
  }

  lemma {:induction false} EventsOfAppend(a: seq<Effect>, b: seq<Effect>)
    ensures Events(a + b) == Events(a) + Events(b)
    decreases |a|
  {
    if |a| > 0 {
      assert (a + b)[1..] == a[1..] + b;
      EventsOfAppend(a[1..], b);
    } else {
      assert a + b == b;
    }
  }

  lemma {:induction false} WarningsOfAppend(a: seq<Effect>, b: seq<Effect>)
    ensures Warnings(a + b) == Warnings(a) + Warnings(b)
    decreases |a|
  {
    if |a| > 0 {
      assert (a + b)[1..] == a[1..] + b;
      WarningsOfAppend(a[1..], b);
    } else {
      assert a + b == b;
    }
  }

  lemma {:induction false} WrittenOfAppend(a: seq<Effect>, b: seq<Effect>)
    ensures Written(a + b) == Written(a) + Written(b)
    decreases |a|
  {
    if |a| > 0 {
      assert (a + b)[1..] == a[1..] + b;
      WrittenOfAppend(a[1..], b);
    } else {
      assert a + b == b;
    }
  }

  /** The events, the warnings and the writes of two traces one after the other. */
  lemma EventsAppend(a: seq<Effect>, b: seq<Effect>)
    ensures Events(a + b) == Events(a) + Events(b)
    ensures Warnings(a + b) == Warnings(a) + Warnings(b)
    ensures Written(a + b) == Written(a) + Written(b)
  {
    EventsOfAppend(a, b);
    WarningsOfAppend(a, b);
    WrittenOfAppend(a, b);
  }

  /** Replaying two traces one after the other is replaying their concatenation. */
  lemma {:induction false} ReplayAppend(fs: FileSystem, a: seq<Effect>, b: seq<Effect>)
    ensures Replay(fs, a + b) == Replay(Replay(fs, a), b)
    decreases |a|
  {
    if |a| > 0 {
      assert (a + b)[1..] == a[1..] + b;
      var next := if a[0].Wrote? then WriteManifest(fs, a[0].path, a[0].manifest) else fs;
      ReplayAppend(next, a[1..], b);
    } else {
      assert a + b == b;
    }
  }

  /** A path no write of the trace names keeps its entry, present or absent. */
  lemma {:induction false} ReplayUntouched(fs: FileSystem, trace: seq<Effect>, p: Path)
    requires p !in Written(trace)
    ensures p in Replay(fs, trace) <==> p in fs
    ensures p in fs ==> Replay(fs, trace)[p] == fs[p]
    decreases |trace|
  {
    if |trace| > 0 {
      var next := if trace[0].Wrote? then WriteManifest(fs, trace[0].path, trace[0].manifest) else fs;
      assert p !in Written(trace[1..]);
      ReplayUntouched(next, trace[1..], p);
    }
  }

  /** Last write wins: a path holds the manifest of the last write that names it. */
  lemma LastWriteWins(fs: FileSystem, before: seq<Effect>, m: Manifest, after: seq<Effect>, p: Path)
    requires p !in Written(after)
    ensures p in Replay(fs, before + [Wrote(p, m)] + after)
    ensures Replay(fs, before + [Wrote(p, m)] + after)[p] == Parsed(JObject(m))
  {
    ReplayAppend(fs, before + [Wrote(p, m)], after);
    ReplayAppend(fs, before, [Wrote(p, m)]);
    var mid := Replay(fs, before + [Wrote(p, m)]);
    assert mid == WriteManifest(Replay(fs, before), p, m);
    ReplayUntouched(mid, after, p);
  }

  /** After replaying a trace, a path holds the manifest of the last write naming it, and a
      path no write names is left as it was. */
  lemma ReplayFinal(fs: FileSystem, trace: seq<Effect>, p: Path)
    ensures p !in Written(trace) ==> (p in Replay(fs, trace) <==> p in fs) && (p in fs ==> Replay(fs, trace)[p] == fs[p])
    ensures forall i :: 0 <= i < |trace| && trace[i].Wrote? && trace[i].path == p && p !in Written(trace[i + 1..]) ==>
      p in Replay(fs, trace) && Replay(fs, trace)[p] == Parsed(JObject(trace[i].manifest))
  {
    if p !in Written(trace) {
      ReplayUntouched(fs, trace, p);
    }
    forall i | 0 <= i < |trace| && trace[i].Wrote? && trace[i].path == p && p !in Written(trace[i + 1..])
      ensures p in Replay(fs, trace) && Replay(fs, trace)[p] == Parsed(JObject(trace[i].manifest))
    {
      assert trace == trace[..i] + [Wrote(p, trace[i].manifest)] + trace[i + 1..];
      LastWriteWins(fs, trace[..i], trace[i].manifest, trace[i + 1..], p);
    }
  }

  /** A warning, if the trace has one, is its last effect. */
  ghost predicate WarnsLast(trace: seq<Effect>) {
    forall i :: 0 <= i < |trace| && trace[i].Warned? ==> i == |trace| - 1
  }

  /** Effects without a warning in front of a trace keep its warning last. */
  lemma WarnsLastAppend(a: seq<Effect>, b: seq<Effect>)
    requires forall i :: 0 <= i < |a| ==> !a[i].Warned?
    requires WarnsLast(b)
    ensures WarnsLast(a + b)
  {
    var t := a + b;
    forall i | 0 <= i < |t| && t[i].Warned?
      ensures i == |t| - 1
    {
      if i >= |a| {
        assert b[i - |a|].Warned?;
      }
    }
  }

  /** Every write is immediately followed by the event announcing the version it stored, for
      the path it wrote. */
  ghost predicate WritesAnnounced(trace: seq<Effect>) {
    forall i :: 0 <= i < |trace| && trace[i].Wrote? ==>
      && i + 1 < |trace|
      && trace[i + 1].Emitted?
      && trace[i + 1].event.dest == Some(trace[i].path)
      && VersionKey in trace[i].manifest
      && trace[i].manifest[VersionKey] == JString(trace[i + 1].event.version)
  }

  /** Every event that names a destination comes right after the write of that destination. */
  ghost predicate EventsFollowWrites(trace: seq<Effect>) {
    forall i :: 0 <= i < |trace| && trace[i].Emitted? && trace[i].event.dest.Some? ==>
      i > 0 && trace[i - 1].Wrote? && trace[i - 1].path == trace[i].event.dest.value
  }

  /** Both orderings survive concatenation. */
  lemma OrderingAppend(a: seq<Effect>, b: seq<Effect>)
    requires WritesAnnounced(a) && WritesAnnounced(b)
    requires EventsFollowWrites(a) && EventsFollowWrites(b)
    ensures WritesAnnounced(a + b) && EventsFollowWrites(a + b)
  {
    var t := a + b;
    forall i | 0 <= i < |t| && t[i].Wrote?
      ensures i + 1 < |t| && t[i + 1].Emitted? && t[i + 1].event.dest == Some(t[i].path)
      ensures VersionKey in t[i].manifest && t[i].manifest[VersionKey] == JString(t[i + 1].event.version)
    {
      if i < |a| {
        assert a[i].Wrote?;
      } else {
        assert b[i - |a|].Wrote?;
      }
    }
    forall i | 0 <= i < |t| && t[i].Emitted? && t[i].event.dest.Some?
      ensures i > 0 && t[i - 1].Wrote? && t[i - 1].path == t[i].event.dest.value
    {
      if i < |a| {
        assert a[i].Emitted?;
      } else {
        assert b[i - |a|].Emitted?;
      }
    }
  }
}
