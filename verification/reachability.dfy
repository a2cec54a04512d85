/** What holds of every instance reachable from construction by any sequence
    of `start` and `stop` calls: in this revision a stop is final, so the
    instance starts at most once and the branch of `start` that reuses an
    already composed server is never taken. Runs are taken both with the
    source's order of listener registration (`early`) and with the corrected
    one. */
module Reachability {
  import opened Js
  import opened ServerOptions
  import opened Lifecycle

  /** A call on the instance, with the outcome its composer reports. */
  datatype Op = StartOp(callback: Option<nat>, outcome: ComposeOutcome) | StopOp(callback: Option<nat>)

  /** The events an instance has emitted by the time it reaches a status. */
  function EventsFor(status: Status): seq<Event> {
    match status
    case Stopped => []
    case Started => [StartedEvent]
    case Terminated => [StartedEvent, StoppedEvent]
  }

  /** The part of the lifecycle invariant that does not depend on where the
      process listeners are registered: STOPPED exactly while nothing has
      started, at most one start, the composer started once per start and
      stopped once on termination, and the events matching the status. */
  ghost predicate CountInv(s: Server) {
    && (s.status == Stopped <==> s.startCount == 0)
    && s.startCount <= 1
    && multiset(s.calls)[ComposerStart] == s.startCount
    && multiset(s.calls)[ComposerStop(s.config.stopTimeout)] == (if s.status == Terminated then 1 else 0)
    && s.events == EventsFor(s.status)
  }

  /** The full lifecycle invariant: in addition, the process listeners are
      registered exactly while STARTED. */
  ghost predicate Inv(s: Server) {
    && CountInv(s)
    && s.listeners == (if s.status == Started then 1 else 0)
  }

  /** One call; a thrown restart error is caught by the caller, who goes on.
      `early` selects the source's `start` (listeners registered before
      composing) over the corrected one. */
  function Apply(s: Server, op: Op, early: bool): (r: Server)
    ensures s.config == r.config
    ensures s.status == Terminated ==> r.status == Terminated && r.events == s.events && r.calls == s.calls
    ensures s.pending <= r.pending && s.events <= r.events && s.calls <= r.calls
  {
    match op
    case StartOp(callback, outcome) =>
      if early then StartAsWritten(s, callback, outcome).server else Start(s, callback, outcome).server
    case StopOp(callback) => Stop(s, callback)
  }

  /** A sequence of calls, in order. */
  function Run(s: Server, ops: seq<Op>, early: bool): Server
    decreases |ops|
  {
    if |ops| == 0 then s else Run(Apply(s, ops[0], early), ops[1..], early)
  }

  /** `start` preserves the invariant. */
  lemma StartPreservesInv(s: Server, callback: Option<nat>, outcome: ComposeOutcome)
    requires Inv(s)
    ensures Inv(Start(s, callback, outcome).server)
  {
  }

  /** The source's `start` preserves the listener-independent invariant: it
      differs from Start only in the listener count. */
  lemma StartAsWrittenPreservesCountInv(s: Server, callback: Option<nat>, outcome: ComposeOutcome)
    requires CountInv(s)
    ensures CountInv(StartAsWritten(s, callback, outcome).server)
  {
  }

  /** `stop` preserves the invariant. */
  lemma StopPreservesInv(s: Server, callback: Option<nat>)
    requires Inv(s)
    ensures Inv(Stop(s, callback))
  {
  }

  /** Every call of the corrected program preserves the invariant. */
  lemma ApplyPreservesInv(s: Server, op: Op)
    requires Inv(s)
    ensures Inv(Apply(s, op, false))
  {
    match op
    case StartOp(callback, outcome) => StartPreservesInv(s, callback, outcome);
    case StopOp(callback) => StopPreservesInv(s, callback);
  }

  /** Every call, in either order of registration, preserves the
      listener-independent invariant. */
  lemma ApplyPreservesCountInv(s: Server, op: Op, early: bool)
    requires CountInv(s)
    ensures CountInv(Apply(s, op, early))
  {
    match op
    case StartOp(callback, outcome) =>
      if early {
        StartAsWrittenPreservesCountInv(s, callback, outcome);
      }
    case StopOp(callback) =>
  }

  /** A fresh instance satisfies the invariant. */
  lemma FreshInv(config: Config, manifest: Value)
    ensures Inv(Fresh(config, manifest))
  {
  }

  /** Every call sequence of the corrected program preserves the invariant. */
  lemma {:induction false} RunPreservesInv(s: Server, ops: seq<Op>)
    requires Inv(s)
    ensures Inv(Run(s, ops, false))
    decreases |ops|
  {
    if |ops| > 0 {
      ApplyPreservesInv(s, ops[0]);
      RunPreservesInv(Apply(s, ops[0], false), ops[1..]);
    }
  }

  /** Every call sequence, in either order of registration, preserves the
      listener-independent invariant. */
  lemma {:induction false} RunPreservesCountInv(s: Server, ops: seq<Op>, early: bool)
    requires CountInv(s)
    ensures CountInv(Run(s, ops, early))
    decreases |ops|
  {
    if |ops| > 0 {
      ApplyPreservesCountInv(s, ops[0], early);
      RunPreservesCountInv(Apply(s, ops[0], early), ops[1..], early);
    }
  }

  /** Every instance reachable from construction, in the source's order of
      registration as in the corrected one, has started at most once, has
      started the composer at most once, and has start count 0 whenever it is
      STOPPED, so `start` always composes and the reuse branch is dead. */
  lemma ReachableStartCount(config: Config, manifest: Value, ops: seq<Op>, early: bool)
    ensures Run(Fresh(config, manifest), ops, early).startCount <= 1
    ensures Run(Fresh(config, manifest), ops, early).status == Stopped ==>
              Run(Fresh(config, manifest), ops, early).startCount == 0
    ensures multiset(Run(Fresh(config, manifest), ops, early).calls)[ComposerStart] <= 1
  {
    FreshInv(config, manifest);
    RunPreservesCountInv(Fresh(config, manifest), ops, early);
  }

  /** Every instance reachable from construction in the corrected program
      keeps the full invariant, listeners included. */
  lemma ReachableInv(config: Config, manifest: Value, ops: seq<Op>)
    ensures Inv(Run(Fresh(config, manifest), ops, false))
  {
    FreshInv(config, manifest);
    RunPreservesInv(Fresh(config, manifest), ops);
  }

  /** The terminal state is final: no call sequence leaves it, emits an
      event, or reaches the composer again. */
  lemma {:induction false} TerminatedIsFinal(s: Server, ops: seq<Op>, early: bool)
    requires s.status == Terminated
    ensures Run(s, ops, early).status == Terminated
    ensures Run(s, ops, early).events == s.events
    ensures Run(s, ops, early).calls == s.calls
    ensures Run(s, ops, early).startCount == s.startCount
    decreases |ops|
  {
    if |ops| > 0 {
      TerminatedIsFinal(Apply(s, ops[0], early), ops[1..], early);
    }
  }

  /** Events, composer calls and scheduled callbacks are only ever appended
      to, and the configuration never changes. */
  lemma {:induction false} RunAppendsOnly(s: Server, ops: seq<Op>, early: bool)
    ensures Run(s, ops, early).config == s.config
    ensures s.pending <= Run(s, ops, early).pending
    ensures s.events <= Run(s, ops, early).events
    ensures s.calls <= Run(s, ops, early).calls
    decreases |ops|
  {
    if |ops| > 0 {
      RunAppendsOnly(Apply(s, ops[0], early), ops[1..], early);
    }
  }

  /** Stops only, each issued after the previous one has completed: the
      first, if the instance is STARTED, emits STOPPED and terminates it;
      every later one emits nothing. */
  lemma {:induction false} RepeatedStopsEmitOnce(s: Server, ops: seq<Op>, early: bool)
    requires forall i :: 0 <= i < |ops| ==> ops[i].StopOp?
    ensures Run(s, ops, early).events ==
              (if |ops| > 0 && s.status == Started then s.events + [StoppedEvent] else s.events)
    ensures Run(s, ops, early).status ==
              (if |ops| > 0 && s.status == Started then Terminated else s.status)
    decreases |ops|
  {
    if |ops| > 0 {
      RepeatedStopsEmitOnce(Apply(s, ops[0], early), ops[1..], early);
    }
  }

  /** The source's listener bookkeeping: a compose failure followed by a
      successful retry and a stop leaves a copy of the process listeners
      registered on a terminated instance, against the invariant. */
  lemma FailedStartLeaksListeners(config: Config, manifest: Value, e: Error)
    ensures
      var s1 := StartAsWritten(Fresh(config, manifest), None, ComposeFailed(e)).server;
      var s2 := StartAsWritten(s1, None, Composed).server;
      var s3 := Stop(s2, None);
      && s1.status == Stopped && s1.listeners == 1
      && s2.status == Started && s2.listeners == 2
      && s3.status == Terminated && s3.listeners == 1
      && !Inv(s3)
  {
  }

  /** With registration on success, the same calls leave no listener behind. */
  lemma FailedStartRetryReleasesListeners(config: Config, manifest: Value, e: Error)
    ensures
      var ops := [StartOp(None, ComposeFailed(e)), StartOp(None, Composed), StopOp(None)];
      && Run(Fresh(config, manifest), ops, false).status == Terminated
      && Run(Fresh(config, manifest), ops, false).listeners == 0
  {
    var ops := [StartOp(None, ComposeFailed(e)), StartOp(None, Composed), StopOp(None)];
    var s0 := Fresh(config, manifest);
    var s1 := Apply(s0, ops[0], false);
    var s2 := Apply(s1, ops[1], false);
    var s3 := Apply(s2, ops[2], false);
    assert s3.status == Terminated;
    assert Run(s0, ops, false) == Run(s1, ops[1..], false) == Run(s2, ops[2..], false) == Run(s3, [], false);
    ReachableInv(config, manifest, ops);
  }
}
