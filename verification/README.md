# grunt-semver, modelled in Dafny

`grunt-semver` registers one grunt multi-task, `semver`, that validates, sets, bumps or strips
the `version` field of JSON manifests (`package.json`, `bower.json`, …). The whole of its logic
lives in `tasks/semver.js`:

- two small helpers:
  - `format` renders a parsed version with its build metadata;
  - `strip` clears the pre-release or the build identifiers;
- the grunt task body:
  - a switch on the phase;
  - a whitelist of parts for `bump` and `strip`;
  - the literal validation of a version given on the command line;
  - one loop per phase over the sources of every file descriptor.

  In each turn of that loop the grunt task:
  1. reads a manifest;
  2. computes the new version;
  3. (phases other than `validate`) replaces the `version` member and writes the manifest to
     the descriptor's destination;
  4. emits a `semver.<phase>` event.

  A `try`/`catch` turns any failure of the turn into a `grunt.warn`.

This project models that body as one pure function, `Task.Run`:

- **Inputs:**
  - the phase, with the resolved `part` and `build` options;
  - the expanded file list;
  - a file system mapping paths to parsed manifests;
  - the host's `--force` flag;
  - a `Semver.Library`, the three calls the grunt task makes into the `semver` npm package.
- **Output:** an `Effects.Outcome` holding the file system afterwards and the ordered trace of
  what the run did: writes, events and warnings.

Modules, in dependency order:

- `Wrappers` — `Option` and `Result`.
- `Strings` — joining and splitting on a separator, and decimal rendering of naturals.
- `Versions`:
  - the parsed `Version` and the SemVer 2.0.0 identifier grammar (sections 9 and 10);
  - `Render` (the library's own `version.format()`), `Format`, `Strip`;
  - the two part whitelists.
- `Manifests` — JSON values, manifests, the file system, and reading, updating and writing a
  manifest. `Cause` lists the reasons a source's turn fails.
- `Semver` — the library as a value, with the `Lawful` hypothesis:
  - parsing yields well-formed versions and reads a formatted well-formed version back as itself;
  - build identifiers after the first `+` are kept as written;
  - `clean` returns the library rendering, which holds no build metadata.

  `Semver.Reference` is a library that meets all of these laws.
- `Effects`:
  - phases, events and warnings;
  - the trace and its filters;
  - `Replay`, which applies a trace's writes to a file system.
- `Task` — the new version of one source (`NewVersion`), one turn of the loop (`ProcessSource`),
  the loop (`Loop`), the phase switch and its rejection messages, and the grunt task body (`Run`).
- `TaskProperties` — what holds across sources, phases and runs.
- `Scenarios` — complete runs on small concrete inputs.

JavaScript details the model keeps:

- **Truthiness.** `part` and `build` count only when present and non-empty.
- **Null `clean` result.** Where `semver.clean` returns null inside `clean(x) + "+" + build`,
  the text `"null"` is what gets parsed. In `bump` without a build, the null itself reaches the
  parser and the turn fails.
- **`json.version.cyan`.** It is evaluated in every phase before the new version is computed,
  so a missing or null `version` member fails the turn even when `set` is given a part.
- **`grunt.warn`.** It ends the run unless `--force` is set.
  - The phase and part checks warn before any file is read.
  - A failing source ends the loop, unless `force` is set.

The code's `grunt.warn` is stricter than a plain "report it and go on with the next file". Each
per-source failure is reported with `grunt.warn` (lines 96, 114, 144, 174, 207), the same call
that rejects an unknown phase or part. Grunt therefore stops at the first failing source unless
`--force` is given. This model follows the code: `Task.Loop` takes `force` as a parameter, and
`TaskProperties.UnforcedIsPrefix` relates the two behaviours.

## Model

| member | source | states |
|---|---|---|
| Versions.Format | tasks/semver.js:36-49 | The result starts with the library rendering. It equals that rendering exactly when there is no build metadata. Otherwise the rendering is followed by `+` and the build identifiers joined with `.`. |
| Versions.FormatSeparatesBuild | tasks/semver.js:36-49 | For a well-formed version, formatting loses nothing. The text before the first `+` is the library rendering, and the text after it splits on `.` back into exactly the build identifiers. |
| Versions.FormatInjective | tasks/semver.js:36-49 | Two well-formed versions that format alike are equal, so the written string determines the version. |
| Versions.FormatOfBuildStripped | tasks/semver.js:44-46 | A version whose build was stripped formats exactly as the library renders it, with no `+` suffix. |
| Versions.Strip | tasks/semver.js:57-63 | For a present version and part, only the named identifier sequence becomes empty; the numbers and the other sequence are kept. An absent version or part returns the input unchanged. The result is present exactly when the version is. |
| Versions.StripIdempotent | tasks/semver.js:57-63 | Stripping twice with the same part is stripping once. |
| Versions.StripCommutes | tasks/semver.js:57-63 | The two strips commute, and together they clear both identifier sequences. |
| Versions.StripWellFormed | tasks/semver.js:57-63 | Stripping a well-formed version yields a well-formed version. |
| Versions.StrippedShape | tasks/semver.js:199 | A stripped well-formed version, once formatted, has no `+` if its build was stripped, and no `-` before its build metadata if its pre-release was stripped. |
| Versions.ParseBumpPart | tasks/semver.js:151-155 | The bump whitelist accepts exactly "major", "minor", "patch" and "prerelease", and each accepted name maps to its increment. |
| Versions.ParseStripPart | tasks/semver.js:186-188 | The strip whitelist accepts exactly "prerelease" and "build", and each accepted name maps to the sequence it clears. |
| Versions.BumpPartNamesRoundTrip | tasks/semver.js:151-155 | Every bump part's own name is accepted back by the bump whitelist as that part. |
| Versions.StripPartNamesRoundTrip | tasks/semver.js:186-188 | Every strip part's own name is accepted back by the strip whitelist as that part. |
| Effects.EventName | tasks/semver.js:21-25 | An event name is "semver." followed by the phase name. |
| Effects.EventNamesDistinct | tasks/semver.js:21-25 | Two phases share an event name only if they are the same phase. |
| Effects.ReplayFinal | tasks/semver.js:122-147 | After a sequence of writes, a path holds the manifest of the last write naming it. A path no write names keeps its entry, present or absent. |
| Effects.LastWriteWins | tasks/semver.js:139 | A write that no later write overrides decides the path's content. |
| Manifests.ReadJson | tasks/semver.js:103 | Reading succeeds exactly when the path holds a parsed document, and returns that document. It fails as unreadable exactly when the path is absent. |
| Manifests.CurrentVersion | tasks/semver.js:105 | Reading `json.version.cyan` succeeds exactly on an object whose `version` member is present and not null, and yields that member. Otherwise it fails with `NoVersion`. |
| Manifests.WithVersion | tasks/semver.js:136 | The result has the old keys plus `version`, and `version` holds the new string. Every other member keeps its value. |
| Manifests.WriteManifest | tasks/semver.js:139 | Afterwards, reading the destination yields the written manifest. No other path changes, and no path disappears. |
| Task.Pairs | tasks/semver.js:123-125 | The k-th turn is the k-th source paired with the descriptor's destination. |
| Task.Jobs | tasks/semver.js:122-125 | A (source, destination) pair is a turn of the loop exactly when some descriptor lists that source with that destination. A single descriptor's turns are its sources in the order listed, each with its destination. |
| Task.JobsAppend | tasks/semver.js:122-125 | The descriptors run one after the other: the turns of a list of descriptors are those of its first part followed by those of the rest. With `Jobs`, the turns are every descriptor's sources in order, each as often as listed. |
| Task.Decorated | tasks/semver.js:107 | Without a build, validate and set hand the text to the parser untouched. With one, the text ends with `+` and the build. When the cleaned text has no `+`, the part before the first `+` is the cleaned text, and the build option splits into exactly the parsed build identifiers. |
| Task.BumpInput | tasks/semver.js:166 | Bump has text to parse exactly when a build is given or `clean` returns text. With a build, that text is the one validate and set parse. Without one, it is what `clean` returned. The only failure is `NotText`. |
| Task.NewVersion | tasks/semver.js:107-199 | A version is computed only from a string `version` member, or by `set` from a given part. An invalid-version failure names text the library refuses to parse. |
| Task.Transform | tasks/semver.js:127-136 | A source yields a new version exactly when it exists, holds a JSON object with a non-null version, and the phase's computation on that version succeeds. The manifest handed on is that object's members, and the version is what the computation gave. |
| Task.ProcessSource | tasks/semver.js:126-145 | One source yields one of three things: a single warning naming it; for validate, a single event with its source and no destination; or a write of the destination followed by the event for that write. The turn warns exactly when its computation fails, and the warning carries that failure's cause. The event carries the computed version. The written manifest is the source's manifest with only `version` replaced. |
| Task.Loop | tasks/semver.js:122-147 | Validate leaves the file system alone and writes nothing. With `force`, the events plus the warnings number exactly the turns. Without it, there is at most one warning. |
| Task.ParsePhase | tasks/semver.js:85-219 | A recognised phase is one whose name is exactly the phase given. When none is recognised, no phase has the given name. |
| Task.Message | tasks/semver.js:214-219 | A rejection message starts with "Unknown phase '" or "Unknown part '", according to the rejected option. The value follows as JavaScript shows it, then a closing quote. |
| Task.MessageDetermines | tasks/semver.js:214-219 | Two rejection messages are equal exactly when they reject the same option with the same shown value. An absent value reads as "undefined". |
| Task.Run | tasks/semver.js:85-220 | An unknown phase, or an unknown part for bump or strip, yields exactly one warning and the untouched file system. Validate never writes. |
| TaskProperties.RunRoutes | tasks/semver.js:85-220 | Each accepted phase runs its own loop over the descriptors' turns: validate without a part runs the validate loop, set the set loop, bump with a whitelisted part the loop that increments that part, strip with a whitelisted part the loop that clears that part. |
| TaskProperties.UnforcedStopsAtWarning | tasks/semver.js:141-143 | Without `force`, a source warning is the last effect of the loop: nothing is written or emitted after it. |
| TaskProperties.LoopReplays | tasks/semver.js:122-147 | The file system after the loop is the initial one with the trace's writes applied in order. |
| TaskProperties.LoopOrdering | tasks/semver.js:136-141 | Every write is immediately followed by the event announcing the version it stored, for the path it wrote. Every event with a destination immediately follows the write of that destination. |
| TaskProperties.LoopReports | tasks/semver.js:126-145 | Every warning of the loop names a failed source. Every event carries the phase and a source of the run, with that source's destination, or none for validate. |
| TaskProperties.ForcedLoopComposes | tasks/semver.js:125-146 | With `force`, the loop over two lists of sources is the loop over the first followed by the loop over the second, on the file system the first left. |
| TaskProperties.EachSourceProcessed | tasks/semver.js:125-146 | With `force`, the k-th source is processed exactly as it would be alone, on the file system its predecessors left. Its effects sit between theirs and the rest. |
| TaskProperties.UnforcedIsPrefix | tasks/semver.js:143-145 | Without `force`, the trace is a prefix of the forced run's trace. It is the whole forced run whenever that run warns about nothing. |
| TaskProperties.FinalFileSystem | tasks/semver.js:122-147 | After the loop, a destination holds the manifest of the last write naming it, and a path no write names is unchanged. |
| TaskProperties.RejectionIsImmediate | tasks/semver.js:150-219 | A warning other than a source failure occurs exactly for an unknown phase or part. That warning is the whole trace, the file system is untouched, and the result depends on neither the files, the file system nor `force`. |
| TaskProperties.LiteralValidation | tasks/semver.js:87-97 | With a part, validate touches no file. It yields one effect: an event with the formatted parse of `build ? clean(part)+"+"+build : part` and no source, or a warning naming the refused text. |
| TaskProperties.FileValidation | tasks/semver.js:99-118 | File-mode validation writes nothing. With `force`, each source gives exactly one event or one warning. Each event carries its source and no destination. |
| TaskProperties.NewVersionIsFormatted | tasks/semver.js:107-199 | Every version a phase computes is the `format` of a version the library parsed, after the phase's own change: none for validate and set, `inc` for bump, `strip` for strip. |
| TaskProperties.NewVersionParses | tasks/semver.js:107-199 | The exact text each phase hands to the parser: the decorated part for set with a part, the decorated current version for set without one and for validate, the current version as written for strip, and the cleaned or decorated text for bump. A refused text fails with `Invalid` naming that text; a version that is not a string, or a null clean result in bump, fails with `NotText`. |
| TaskProperties.SetPartOverrides | tasks/semver.js:136 | With a part, set computes the same version whatever the manifest held, namely the literal validation of the part. |
| TaskProperties.SetWithoutPartStoresValidation | tasks/semver.js:136 | Without a part, set stores exactly what validate reports for the same manifest. |
| TaskProperties.NoBuildNoClean | tasks/semver.js:136 | Without a build, validate and set never consult `clean`: libraries that parse alike give the same result. |
| TaskProperties.BumpAlwaysCleans | tasks/semver.js:166 | Bump depends on the current version only through its cleaned form. |
| TaskProperties.BumpParses | tasks/semver.js:166 | With a build, bump parses the text validate parses. The two succeed together, and bump stores the increment of the version validate reports. Without a build, bump parses the cleaned text, and a null clean result fails with `NotText`. |
| TaskProperties.StripParsesAsIs | tasks/semver.js:199 | Strip depends only on the parser: it consults neither `clean`, nor the build option, nor the part text beyond the whitelist. |
| TaskProperties.StrippedVersionShape | tasks/semver.js:199 | Under a lawful library, the version strip stores has no `+` when the build was stripped, and no pre-release before its build when the pre-release was. |
| TaskProperties.SetIsStable | tasks/semver.js:136 | Under a lawful library, storing set's result and setting again yields the same string. This holds with no build, or with a build whose `.`-separated pieces are identifiers. |
| TaskProperties.SetWithBuildIsStable | tasks/semver.js:136 | Under a lawful library, for set without a part and with a build made of identifiers, when the library parses the text set hands it: that version keeps the build option as its build identifiers; set succeeds; the stored string is the library rendering followed by `+` and the build; cleaning it and appending the build gives it back; and setting it again yields it unchanged. |
| TaskProperties.StripIsStable | tasks/semver.js:199 | Under a lawful library, stripping an already stripped version yields the same string. |
| TaskProperties.RewriteStable | tasks/semver.js:127-139 | Once a stable phase has rewritten a manifest in place, that manifest transforms to itself. |
| TaskProperties.InPlaceTwice | tasks/semver.js:122-147 | A stable phase run twice on a manifest rewritten in place leaves the file system as the first run left it. |
| TaskProperties.SetTwiceInPlace | tasks/semver.js:121-148 | The whole task: set run twice in place changes nothing the second time, with no build or a build made of identifiers. |
| TaskProperties.StripTwiceInPlace | tasks/semver.js:185-216 | The whole task: strip run twice in place changes nothing the second time. |
| Semver.ReferenceIsLawful | tasks/semver.js:12 | Some library meets every law `Lawful` assumes, so the properties that assume it are not vacuous. |
| Scenarios.LiteralWithBuild | tasks/semver.js:87-93 | Validating "1.2.3" with build "7" announces "1.2.3+7" with no source and touches nothing. |
| Scenarios.StripExamples | tasks/semver.js:199 | Stripping the pre-release of "1.2.3-beta.1+build.5" gives "1.2.3+build.5". Stripping the build of "1.2.3+abc.1" gives "1.2.3". |
| Scenarios.BumpPatch | tasks/semver.js:150-171 | A patch bump of a manifest at "1.2.3" writes "1.2.4" to the destination, keeps the other members, and then announces the write. |
| Scenarios.BumpUnknownPart | tasks/semver.js:180-181 | Bumping the part "weekday" yields only the warning "Unknown part 'weekday'". |
| Scenarios.SharedDestination | tasks/semver.js:122-147 | Two sources sharing a destination write it twice, in order, and the second source's manifest wins. A missing third source adds only a warning. |

## Left out

- Option resolution is not modelled: argument and option merging through `grunt-util-args`, `grunt-util-options` and `grunt-util-process`, and the `{% %}` template delimiters (lines 66, 73-79). Those libraries are not part of this model. `part` and `build` arrive already resolved.
- The `space` option and JSON text are not modelled (lines 28-29, 139). A file holds a parsed document or non-JSON text, and a manifest is a map, so key order and indentation are not represented.
- Logging and colours (`grunt.log.*`, `.green`, `.cyan`) are not modelled. The one observable consequence is kept: reading `.cyan` of a missing or null version throws.
- The `semver` library's internals are parameters: the parse grammar, `clean`, `inc` and the exceptions it raises. Only the base rendering (`version.format()`) is written out, as SemVer 2.0.0 section 9 describes it. Properties that need parsing to agree with formatting take `Semver.Lawful` as a hypothesis.
- The grunt event bus is replaced by the trace. `grunt.warn` is modelled by `force`: with it, every source is attempted; without it, the run ends at the first warning.
- A file descriptor without a `dest` is not modelled. Every descriptor carries a destination path.
- The messages of caught exceptions are replaced by `Manifests.Cause`. `Task.Message` gives the text only of the warnings the grunt task composes itself.
- A `version` member that is neither a string nor null fails the turn with `NotText` when that member is the text handed to the library. That is every phase except `set` with a part, which ignores the member once `.cyan` has read it (line 136). What the library would do with a number or a boolean is part of its internals.
- TaskProperties.SetIsStable: requires that a given build splits on `.` into identifiers. The parser trims surrounding white space, so a build such as "7 " is stable too, but `Semver.Lawful` does not describe trimming.
- TaskProperties.SetWithBuildIsStable: requires, like `SetIsStable`, that the build splits on `.` into identifiers, for the same reason.
- TaskProperties.SetTwiceInPlace: carries the same requirement on the build as `SetIsStable`, for the same reason.
- Writes and events cannot fail. `grunt.file.write` (lines 139, 169, 202) can throw inside the `try`; that would give a warning and no event. A `semver.*` listener that throws (lines 141, 171, 204) would leave a write with no event after it. Here a write is a map update and an event is a trace entry, so `TaskProperties.LoopOrdering` assumes neither fails.
- Number range. `Versions.Render` writes naturals exactly, but JavaScript writes numbers of 10^21 and above in exponent notation. npm `semver` also refuses components above `Number.MAX_SAFE_INTEGER` (2^53 - 1). npm `semver` further refuses any version string longer than 256 characters (`MAX_LENGTH`). The real library meets `Semver.Lawful` only for versions within both bounds.
- Number spelling. `JSON.stringify` writes a number in its shortest form (`1.0` becomes `1`). A `JNumber` keeps the text it was read with, and a rewritten manifest keeps that text, so the model does not show this respelling of other members.
- Task.NewVersion: bump's result is stated only through `inc`, which is a parameter. The increment rules of SemVer 2.0.0 section 7 belong to the library.
