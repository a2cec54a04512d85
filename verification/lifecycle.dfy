/** The start/stop state machine of a HapiServer instance
    (lib/hapi-server.js, `start`, `stop`, `registerListeners`,
    `removeListeners`). Each transition is a pure function of the instance
    record and of the outcomes its collaborators report; a completion the
    composer reports later is treated as happening within the transition. */
module Lifecycle {
  import opened Js
  import opened ServerOptions

  /** `STOPPED`, `STARTED`, and the `undefined` status a stop leaves behind,
      from which no start is possible. */
  datatype Status = Stopped | Started | Terminated

  /** Events emitted to the instance's subscribers. */
  datatype Event = StartedEvent | StoppedEvent

  /** Calls made on the composer, in order. */
  datatype Call = Compose | ComposerStart | ComposerStop(timeout: real)

  /** A callback scheduled on the next tick: which function, and the error
      passed to it (None when it is called with no argument). */
  datatype Invocation = Invocation(callback: nat, error: Option<Error>)

  /** How `composer.compose` ends: its callback reports no error, its callback
      reports a (truthy) error, or the call throws. */
  datatype ComposeOutcome = Composed | ComposeFailed(err: Error) | ComposeThrew(err: Error)

  /** The instance. `listeners` counts the copies of the process listener
      trio (exit, SIGTERM, SIGINT) currently registered: registering adds a
      copy, removing takes one away. `events`, `calls` and `pending` are the
      emitted events, the composer calls and the next-tick queue, each
      appended to in order. */
  datatype Server = Server(
    config: Config,
    manifest: Value,
    status: Status,
    startCount: nat,
    listeners: nat,
    events: seq<Event>,
    calls: seq<Call>,
    pending: seq<Invocation>)

  /** What a `start` call leaves behind, and the error it throws, if any. */
  datatype StartResult = StartResult(server: Server, thrown: Option<Error>)

  const RestartMessage: string :=
    "Hapi Server cannot be restarted - create a new instance if you really want to start the server again in the same process"
  const RestartError: Error := Message(RestartMessage)

  /** The instance as the constructor initialises it. */
  function Fresh(config: Config, manifest: Value): Server {
    Server(config, manifest, Stopped, 0, 0, [], [], [])
  }

  /** 1 for a callback that is present, 0 otherwise. */
  function Present(cb: Option<nat>): nat {
    if cb.Some? then 1 else 0
  }

  /** The next-tick invocations `invokeCallbacks` schedules: the per-call
      callback, then the configured one, each when present, each with `err`. */
  function Deliveries(callback: Option<nat>, global: Option<nat>, err: Option<Error>): (r: seq<Invocation>)
    ensures |r| == Present(callback) + Present(global)
    ensures forall i :: 0 <= i < |r| ==> r[i].error == err
    ensures callback.Some? ==> r[0].callback == callback.value
    ensures global.Some? ==> r[|r| - 1].callback == global.value
    ensures forall i :: 0 <= i < |r| ==>
              Some(r[i].callback) == callback || Some(r[i].callback) == global
  {
    (if callback.Some? then [Invocation(callback.value, err)] else [])
      + (if global.Some? then [Invocation(global.value, err)] else [])
  }

  /** `registerListeners`: one more copy of each process listener. */
  function RegisterListeners(n: nat): nat { n + 1 }

  /** `removeListeners`: `removeListener` takes away one copy, if any. */
  function RemoveListeners(n: nat): nat { if n == 0 then 0 else n - 1 }

  /** The composer's start and its completion handler. `register` says
      whether the process listeners are registered here, on success. */
  function Launch(s: Server, callback: Option<nat>, register: bool): Server {
    s.(calls := s.calls + [ComposerStart],
       status := Started,
       startCount := s.startCount + 1,
       listeners := if register then RegisterListeners(s.listeners) else s.listeners,
       events := s.events + [StartedEvent],
       pending := s.pending + Deliveries(callback, s.config.startCallback, None))
  }

  /** `start` from `STOPPED`: compose while nothing has started yet, then
      launch; a compose that reports or throws an error only schedules the
      callbacks with it. `early` registers the process listeners before
      composing, as the source does; otherwise they are registered on a
      successful start. */
  function StartFromStopped(s: Server, callback: Option<nat>, outcome: ComposeOutcome, early: bool): Server {
    var s0 := if early then s.(listeners := RegisterListeners(s.listeners)) else s;
    if s.startCount == 0 then
      var s1 := s0.(calls := s0.calls + [Compose]);
      match outcome
      case Composed => Launch(s1, callback, !early)
      case ComposeFailed(e) =>
        s1.(pending := s1.pending + Deliveries(callback, s.config.startCallback, Some(e)))
      case ComposeThrew(e) =>
        s1.(pending := s1.pending + Deliveries(callback, s.config.startCallback, Some(e)))
    else
      Launch(s0, callback, !early)
  }

  /** `start`, dispatching on the status. */
  function StartWith(s: Server, callback: Option<nat>, outcome: ComposeOutcome, early: bool): StartResult {
    match s.status
    case Stopped => StartResult(StartFromStopped(s, callback, outcome, early), None)
    case Started =>
      StartResult(s.(pending := s.pending + Deliveries(callback, s.config.startCallback, None)), None)
    case Terminated =>
      StartResult(
        s.(pending := s.pending + Deliveries(callback, s.config.startCallback, Some(RestartError))),
        Some(RestartError))
  }

  /** `start(callback)`, with the process listeners registered once the
      composer has started (see Findings in the README for the placement in
      the source). */
  function Start(s: Server, callback: Option<nat>, outcome: ComposeOutcome): (r: StartResult)
    ensures r.server.config == s.config && r.server.manifest == s.manifest
    ensures r.thrown.Some? <==> s.status == Terminated
    ensures r.thrown.Some? ==> r.thrown.value == RestartError
    // a successful start from STOPPED
    ensures s.status == Stopped && (s.startCount > 0 || outcome.Composed?) ==>
              && r.server.status == Started
              && r.server.startCount == s.startCount + 1
              && r.server.listeners == s.listeners + 1
              && r.server.events == s.events + [StartedEvent]
              && r.server.pending == s.pending + Deliveries(callback, s.config.startCallback, None)
    // a failed composition changes nothing but the composer calls and the queue
    ensures s.status == Stopped && s.startCount == 0 && !outcome.Composed? ==>
              r.server == s.(calls := s.calls + [Compose],
                              pending := s.pending + Deliveries(callback, s.config.startCallback, Some(outcome.err)))
    // composition is attempted exactly when nothing has started yet
    ensures s.status == Stopped ==>
              r.server.calls == s.calls
                                + (if s.startCount == 0 then [Compose] else [])
                                + (if s.startCount > 0 || outcome.Composed? then [ComposerStart] else [])
    // STARTED and the terminal state touch nothing but the queue
    ensures s.status == Started ==>
              r.server == s.(pending := s.pending + Deliveries(callback, s.config.startCallback, None))
    ensures s.status == Terminated ==>
              r.server == s.(pending := s.pending + Deliveries(callback, s.config.startCallback, Some(RestartError)))
  {
    StartWith(s, callback, outcome, false)
  }

  /** `start(callback)` exactly as the source orders it: the process
      listeners are registered before composing, whatever the outcome. It
      differs from Start in the listener count alone. */
  function StartAsWritten(s: Server, callback: Option<nat>, outcome: ComposeOutcome): (r: StartResult)
    ensures r.thrown == Start(s, callback, outcome).thrown
    ensures r.server.(listeners := 0) == Start(s, callback, outcome).server.(listeners := 0)
    ensures s.status == Stopped ==> r.server.listeners == s.listeners + 1
    ensures s.status != Stopped ==> r.server.listeners == s.listeners
  {
    StartWith(s, callback, outcome, true)
  }

  /** `stop(callback)`: from STARTED the composer is stopped with the
      configured timeout, and on completion the instance becomes terminal,
      emits STOPPED and drops one copy of the process listeners; in every
      state the callbacks are scheduled with no argument. */
  function Stop(s: Server, callback: Option<nat>): (r: Server)
    ensures r.config == s.config && r.manifest == s.manifest && r.startCount == s.startCount
    ensures r.status != Started
    ensures s.status == Started ==>
              && r.status == Terminated
              && r.calls == s.calls + [ComposerStop(s.config.stopTimeout)]
              && r.events == s.events + [StoppedEvent]
              && r.listeners == RemoveListeners(s.listeners)
              && r.pending == s.pending + Deliveries(callback, s.config.stopCallback, None)
    ensures s.status != Started ==>
              r == s.(pending := s.pending + Deliveries(callback, s.config.stopCallback, None))
  {
    var deliveries := Deliveries(callback, s.config.stopCallback, None);
    if s.status == Started then
      s.(calls := s.calls + [ComposerStop(s.config.stopTimeout)],
         status := Terminated,
         events := s.events + [StoppedEvent],
         listeners := RemoveListeners(s.listeners),
         pending := s.pending + deliveries)
    else
      s.(pending := s.pending + deliveries)
  }
}
