# HapiServer lifecycle, modelled in Dafny

This project models the lifecycle controller `HapiServer` of
runrightfast-hapi-server (`lib/hapi-server.js`). The controller wraps a Hapi
`Composer` behind a small state machine. The constructor merges default
options under the caller's options, validates them, and resolves the manifest
(a function, a module name or an object). It then initialises the instance and
may start it straight away. `start` composes the server the first time and
starts the composer. `stop` stops the composer with the configured drain
timeout and leaves the instance in a terminal state, from which it cannot be
restarted. Each outcome is delivered by scheduling the per-call callback and
the configured `startCallback`/`stopCallback` on the next tick.

The model has six modules:

- `Js` (js.dfy): JavaScript values, `typeof`, and the lodash type tests.
- `ServerOptions` (options.dfy): defaults, merging (`extend`), and validation.
- `Manifest` (manifest.dfy): `getManifest`, with a tagged-variant reading of
  the three manifest sources.
- `Lifecycle` (lifecycle.dfy): the instance record and `start`/`stop`, as pure
  transitions.
  - The composer's outcomes are inputs to the transitions.
  - Emitted events, composer calls and next-tick invocations are lists that
    are only ever appended to.
  - Process-listener registration is a count, because `process.on` adds
    duplicates and `removeListener` removes one copy.
- `Construction` (construction.dfy): the constructor, including the automatic
  start.
- `Reachability` (reachability.dfy): the invariant of every instance
  reachable by any sequence of `start`/`stop` calls.
  - Runs are taken with the source's order of listener registration and
    with the corrected order (see Findings).
  - In both orders the instance starts at most once, which is the source's
    own note (lines 17-19) that a stopped server cannot be restarted.
  - In both orders `start`'s branch for an already composed server
    (lines 240-241) is dead in this revision.

The source writes `STOPPED` at line 282 and `undefined` at line 290 within the
same completion handler. The model has a single terminal status,
`Terminated`, for the value the handler leaves behind.

## Model

| member | source | states |
|---|---|---|
| Js.TypeOf | lib/hapi-server.js:105 | `typeof` names "function" exactly for functions, "string" for strings, "number" for numbers and NaN, "object" for objects and for null |
| ServerOptions.Merge | lib/hapi-server.js:65-75 | every key the caller sets (to anything but undefined) overrides the default; an unset key takes its default (autoStart true, stopTimeout 5000, name 'runrightfast-hapi-server', logLevel 'WARN'), so those four are never undefined afterwards |
| ServerOptions.Validate | lib/hapi-server.js:77-87 | succeeds exactly when name is a string, autoStart a boolean, stopTimeout a number >= 0 (NaN fails), and each callback absent or a function; the first violated assertion in source order is the error thrown; on success the config carries the checked values |
| ServerOptions.Prepare | lib/hapi-server.js:108-112 | undefined options and an undefined manifest are rejected with their own messages before defaults apply; otherwise succeeds exactly when the merged options are valid; user values (name, autoStart, stopTimeout, logLevel) override defaults, the callbacks are carried over, and the stop timeout is non-negative |
| Manifest.Classify | lib/hapi-server.js:89-106 | a function is a generator (never an inline manifest), a string a module reference, any other object an inline manifest, and nothing else has a source; the value is recovered from its source |
| Manifest.GetManifest | lib/hapi-server.js:89-106 | a function yields its call's result, a string the loaded module, another object itself, anything else an error naming its typeof (so null is rejected as "object"); equals resolving the classified source |
| Lifecycle.Deliveries | lib/hapi-server.js:180-196 | the per-call callback then the configured one, each scheduled once when present and nothing else scheduled, each with the same error (or none) |
| Lifecycle.Start | lib/hapi-server.js:177-264 | from STOPPED with a composition that succeeds (or is skipped): status Started, start count +1, one STARTED event, listeners registered, callbacks scheduled with no error; failed or throwing composition changes only the composer calls and schedules both callbacks with that error; compose is called exactly when the start count is 0; STARTED changes only the queue; the terminal state throws the restart error and schedules it to both callbacks |
| Lifecycle.StartAsWritten | lib/hapi-server.js:224 | the source's order: same result as Start except that the listeners are registered before composing, whatever the outcome |
| Lifecycle.Stop | lib/hapi-server.js:266-300 | from STARTED: the composer is stopped with the configured timeout, status becomes terminal, one STOPPED event, one listener copy removed, callbacks scheduled with no argument; never leaves the instance started; in any other state only the callbacks are scheduled |
| Construction.Initialise | lib/hapi-server.js:108-127 | option errors win over manifest errors; succeeds exactly when options and manifest resolution do; the fresh instance is STOPPED with start count 0, no listeners, events, composer calls or pending callbacks |
| Construction.Construct | lib/hapi-server.js:148-151 | without autoStart the fresh instance is returned; with it, exactly one start is issued, so at most one composer start and the configured start callback scheduled at most once |
| Construction.ConstructAsWritten | lib/hapi-server.js:148-151 | the source's constructor issues exactly one start (the source's `start`, with `startCallback` as its per-call callback), so at most one composer start, yet that one start schedules the configured start callback twice |
| Construction.AutoStartDeliversStartCallbackTwice | lib/hapi-server.js:150 | concrete options for which the source schedules `startCallback` twice and the corrected constructor once |
| Reachability.StartPreservesInv | lib/hapi-server.js:198-263 | `start` keeps the lifecycle invariant (STOPPED iff never started, at most one start, composer started once per start, listeners exactly while STARTED, events matching the status) |
| Reachability.StartAsWrittenPreservesCountInv | lib/hapi-server.js:198-263 | the source's `start`, listeners registered before composing, keeps the listener-independent part of the invariant |
| Reachability.StopPreservesInv | lib/hapi-server.js:277-299 | `stop` keeps the lifecycle invariant, including the composer stopped once on termination |
| Reachability.RunPreservesInv | lib/hapi-server.js:177-300 | any sequence of starts and stops of the corrected program keeps the invariant |
| Reachability.RunPreservesCountInv | lib/hapi-server.js:177-300 | any sequence of starts and stops, in the source's order of registration or the corrected one, keeps the listener-independent invariant |
| Reachability.ReachableStartCount | lib/hapi-server.js:226-242 | every instance reachable from construction, in the source's order as in the corrected one, has start count <= 1, start count 0 whenever STOPPED, and at most one composer start, so the reuse branch at 240-241 is never taken |
| Reachability.ReachableInv | lib/hapi-server.js:156-168 | every instance reachable in the corrected program keeps the full invariant: process listeners registered exactly while STARTED, none after stop |
| Reachability.TerminatedIsFinal | lib/hapi-server.js:254-263 | after termination no call, in either order of registration, changes the status, emits an event, or reaches the composer |
| Reachability.RunAppendsOnly | lib/hapi-server.js:180-196 | events, composer calls and scheduled callbacks are only appended to, and the configuration never changes |
| Reachability.RepeatedStopsEmitOnce | lib/hapi-server.js:277-299 | stops each issued after the previous one completed emit STOPPED once if the instance was STARTED and never otherwise |
| Reachability.FailedStartLeaksListeners | lib/hapi-server.js:224 | with the source's registration order, failed compose then retry then stop leaves one listener copy on a terminated instance |
| Reachability.FailedStartRetryReleasesListeners | lib/hapi-server.js:156-168 | with registration on success, the same calls leave no listener registered |

## Left out

- Hapi `Composer` internals (compose, start, stop, plugins, HTTP). Each call is an abstract outcome. `composer.start` and `composer.stop` always complete, because their callbacks in the source ignore any error. `new Hapi.Composer(manifest)` is assumed not to throw.
- `require` and calling a manifest function: supplied as the `Loader` functions, which either yield a value or throw.
- The `domain` fault boundary and its `process.exit(1)` path: process-level plumbing outside the state machine.
- The signal and exit handlers' bodies (`stop` then `process.exit(0)`): only the count of registered listener copies is kept.
- `removeAllListeners` on the instance's own subscribers (line 168): subscribers are not modelled. Events are recorded as emitted, whatever the asynchronous emitter later delivers.
- `process.nextTick` timing and all logging, including `logging.setLogLevel`: scheduling is an ordered list, and `logLevel` is carried but never checked.
- Overlapping `start` calls while a compose or start is in flight: each collaborator completion is atomic with its transition.
- A `stop` issued while another stop is in flight, for example SIGTERM then SIGINT in quick succession (both handlers call `stop`, lines 130-141): the status changes only in `composer.stop`'s completion (lines 282, 290), so the second stop still sees STARTED. It calls `composer.stop` again, emits STOPPED a second time and removes listeners twice. Completions are atomic in the model, so this interleaving does not arise.
- A compose that throws `undefined`, or reports a falsy error: errors are always defined values. A falsy reported error is the `Composed` outcome, as `if (err)` reads it.
- An options argument that is `null`, or a per-call callback that is truthy but not a function: the callback argument is an optional function reference.
- JavaScript infinities: numbers are reals plus NaN.
- Boxed primitives (`new String(…)`, `new Boolean(…)`, `new Number(…)`): lodash's `isString`, `isBoolean` and `isNumber` accept them, so lines 78-80 pass them. `autoStart: new Boolean(false)` is a truthy object, so line 148 starts the server. Only primitives, functions and plain objects are modelled, so `Validate` rejects these values.
- ServerOptions.Validate: a name that is the empty string is accepted, because the code tests only `isString`; a non-empty name is not required.

## Findings

| source | as written | input that shows it | evidently intended | confidence | as-written member | corrected member |
|---|---|---|---|---|---|---|
| lib/hapi-server.js:224 | `registerListeners` runs before composing, so a failed start leaves the process listeners registered. A retry adds a second copy, and `stop` removes only one. | start with a compose error, start with a successful compose, stop: the terminated instance still has one copy of the exit/SIGTERM/SIGINT listeners | listeners registered exactly while the server is started, and none after stop | medium, not executed | Reachability.FailedStartLeaksListeners | Reachability.FailedStartRetryReleasesListeners |
| lib/hapi-server.js:150 | The automatic start passes `options.startCallback` as the per-call callback, and `start` also schedules `self.startCallback`. | default options with `startCallback: f` and an object manifest, composition succeeds: `f` is scheduled twice | the configured start callback is scheduled once per start | medium, not executed | Construction.ConstructAsWritten | Construction.Construct |

The model itself uses the corrected definitions. `Lifecycle.Start` registers
the listeners once the composer has started. `Construction.Construct` issues
the automatic start without a per-call callback. The source's behaviour stays
available as `Lifecycle.StartAsWritten` and `Construction.ConstructAsWritten`.
