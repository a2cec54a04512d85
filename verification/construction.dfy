/** The HapiServer constructor: presence checks, defaults, validation,
    manifest resolution, state initialisation and the optional automatic
    start. */
module Construction {
  import opened Js
  import opened ServerOptions
  import opened Manifest
  import opened Lifecycle

  /** The constructor up to the automatic start: an error thrown by the
      option checks or by manifest resolution, or the initialised instance. */
  function Initialise(opts: Option<Options>, loader: Loader): (r: Result<Server, Error>)
    ensures Prepare(opts).Failure? ==> r == Failure(Prepare(opts).error)
    ensures r.Success? <==>
              Prepare(opts).Success? && GetManifest(Prepare(opts).value.manifest, loader).Success?
    ensures r.Success? ==>
              && r.value.config == Prepare(opts).value
              && r.value.manifest == GetManifest(opts.value.manifest, loader).value
              && r.value.status == Stopped
              && r.value.startCount == 0
              && r.value.listeners == 0
              && r.value.events == [] && r.value.calls == [] && r.value.pending == []
  {
    match Prepare(opts)
    case Failure(e) => Failure(e)
    case Success(config) =>
      match GetManifest(config.manifest, loader)
      case Failure(e) => Failure(e)
      case Success(manifest) => Success(Fresh(config, manifest))
  }

  /** `new HapiServer(options)`, with the automatic start issued without a
      per-call callback, so that `startCallback` is scheduled once (see
      Findings in the README). */
  function Construct(opts: Option<Options>, loader: Loader, boot: ComposeOutcome): (r: Result<Server, Error>)
    ensures r.Success? <==> Initialise(opts, loader).Success?
    ensures r.Failure? ==> r == Initialise(opts, loader)
    ensures r.Success? ==>
              var s := Initialise(opts, loader).value;
              && r.value.config == s.config
              && r.value.manifest == s.manifest
              && (!s.config.autoStart ==> r.value == s)
              && (s.config.autoStart ==> r.value == Start(s, None, boot).server)
    // at most one start, and the configured callback at most once
    ensures r.Success? ==>
              && r.value.startCount <= 1
              && multiset(r.value.calls)[ComposerStart] <= 1
              && |r.value.pending| <= 1
              && (forall i :: 0 <= i < |r.value.pending| ==>
                    r.value.config.startCallback == Some(r.value.pending[i].callback))
  {
    match Initialise(opts, loader)
    case Failure(e) => Failure(e)
    case Success(s) =>
      if s.config.autoStart then Success(Start(s, None, boot).server) else Success(s)
  }

  /** The constructor as the source writes it: the automatic start passes
      `startCallback` as its per-call callback, and start then schedules the
      configured `startCallback` as well. */
  function ConstructAsWritten(opts: Option<Options>, loader: Loader, boot: ComposeOutcome): (r: Result<Server, Error>)
    ensures r.Success? <==> Construct(opts, loader, boot).Success?
    ensures r.Failure? ==> r == Initialise(opts, loader)
    // one start is issued, passing the configured callback as the per-call one
    ensures r.Success? ==>
              var s := Initialise(opts, loader).value;
              && (!s.config.autoStart ==> r.value == s)
              && (s.config.autoStart ==> r.value == StartAsWritten(s, s.config.startCallback, boot).server)
              && r.value.startCount <= 1
              && multiset(r.value.calls)[ComposerStart] <= 1
    // and that one start schedules the configured callback twice
    ensures r.Success? && r.value.config.autoStart && r.value.config.startCallback.Some? ==>
              && |r.value.pending| == 2
              && r.value.pending[0] == r.value.pending[1]
              && r.value.pending[0].callback == r.value.config.startCallback.value
  {
    match Initialise(opts, loader)
    case Failure(e) => Failure(e)
    case Success(s) =>
      if s.config.autoStart then Success(StartAsWritten(s, s.config.startCallback, boot).server)
      else Success(s)
  }

  /** A concrete instance of the double delivery: default options with a
      start callback, an object manifest, and a composition that succeeds. */
  lemma AutoStartDeliversStartCallbackTwice(loader: Loader)
    ensures
      var opts := Options(Obj(1), Undefined, Undefined, Undefined, Undefined, Func(7), Undefined);
      && ConstructAsWritten(Some(opts), loader, Composed).Success?
      && ConstructAsWritten(Some(opts), loader, Composed).value.pending
           == [Invocation(7, None), Invocation(7, None)]
      && Construct(Some(opts), loader, Composed).value.pending == [Invocation(7, None)]
  {
  }
}
