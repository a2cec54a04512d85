/** Construction options: the defaults merged under the caller's options and
    the validation that follows (lib/hapi-server.js, constructor). */
module ServerOptions {
  import opened Js

  /** The options object a caller passes; an absent key reads as Undefined. */
  datatype Options = Options(
    manifest: Value,
    autoStart: Value,
    stopTimeout: Value,
    name: Value,
    logLevel: Value,
    startCallback: Value,
    stopCallback: Value)

  /** Options once merged and validated. The callbacks are function
      references; the log level is handed to the logging collaborator
      unchecked. */
  datatype Config = Config(
    manifest: Value,
    autoStart: bool,
    stopTimeout: real,
    name: string,
    logLevel: Value,
    startCallback: Option<nat>,
    stopCallback: Option<nat>)

  const DefaultStopTimeout: real := 5000.0
  const DefaultName: string := "runrightfast-hapi-server"
  const DefaultLogLevel: string := "WARN"

  const OptionsRequired: string := "options are required"
  const ManifestRequired: string := "options.manifest is required"
  const NameMustBeString: string := "options.name must be a String"
  const AutoStartMustBeBoolean: string := "options.autoStart must be a boolean"
  const StopTimeoutMustBeNonNegative: string := "options.stopTimeout must be a Number >= 0"
  const StartCallbackMustBeFunction: string := "options.startCallback must be a function"
  const StopCallbackMustBeFunction: string := "options.stopCallback must be a function"

  /** The default options object. */
  const Defaults: Options := Options(
    Undefined, Bool(true), Num(DefaultStopTimeout), Str(DefaultName),
    Str(DefaultLogLevel), Undefined, Undefined)

  /** One key of a shallow `extend(defaults, options)`: a source value that is
      `undefined` is skipped, any other value (null included) overwrites. */
  function Overlay(default: Value, user: Value): Value {
    if user.Undefined? then default else user
  }

  /** The caller's options laid over the defaults. */
  function Merge(user: Options): (r: Options)
    ensures r.manifest == user.manifest
    ensures r.startCallback == user.startCallback && r.stopCallback == user.stopCallback
    ensures !user.autoStart.Undefined? ==> r.autoStart == user.autoStart
    ensures !user.stopTimeout.Undefined? ==> r.stopTimeout == user.stopTimeout
    ensures !user.name.Undefined? ==> r.name == user.name
    ensures !user.logLevel.Undefined? ==> r.logLevel == user.logLevel
    ensures user.autoStart.Undefined? ==> r.autoStart == Bool(true)
    ensures user.stopTimeout.Undefined? ==> r.stopTimeout == Num(5000.0)
    ensures user.name.Undefined? ==> r.name == Str("runrightfast-hapi-server")
    ensures user.logLevel.Undefined? ==> r.logLevel == Str("WARN")
    ensures !r.autoStart.Undefined? && !r.stopTimeout.Undefined?
    ensures !r.name.Undefined? && !r.logLevel.Undefined?
  {
    Options(
      Overlay(Defaults.manifest, user.manifest),
      Overlay(Defaults.autoStart, user.autoStart),
      Overlay(Defaults.stopTimeout, user.stopTimeout),
      Overlay(Defaults.name, user.name),
      Overlay(Defaults.logLevel, user.logLevel),
      Overlay(Defaults.startCallback, user.startCallback),
      Overlay(Defaults.stopCallback, user.stopCallback))
  }

  /** A callback option is acceptable when it is absent or a function. */
  predicate OptionalFunction(v: Value) {
    IsUndefined(v) || IsFunction(v)
  }

  /** Every constraint the constructor's assertions place on merged options. */
  ghost predicate Valid(o: Options) {
    && IsString(o.name)
    && IsBoolean(o.autoStart)
    && IsNumber(o.stopTimeout) && AtLeastZero(o.stopTimeout)
    && OptionalFunction(o.startCallback)
    && OptionalFunction(o.stopCallback)
  }

  /** The function reference held by an acceptable callback option. */
  function CallbackOf(v: Value): Option<nat> {
    if v.Func? then Some(v.fn) else None
  }

  /** The constructor's assertions, checked in source order; the first that
      fails is thrown. */
  function Validate(o: Options): (r: Result<Config, Error>)
    ensures r.Success? <==> Valid(o)
    ensures !IsString(o.name) ==> r == Failure(Message(NameMustBeString))
    ensures IsString(o.name) && !IsBoolean(o.autoStart) ==>
              r == Failure(Message(AutoStartMustBeBoolean))
    ensures IsString(o.name) && IsBoolean(o.autoStart) && !AtLeastZero(o.stopTimeout) ==>
              r == Failure(Message(StopTimeoutMustBeNonNegative))
    ensures IsString(o.name) && IsBoolean(o.autoStart) && AtLeastZero(o.stopTimeout)
              && !OptionalFunction(o.startCallback) ==>
              r == Failure(Message(StartCallbackMustBeFunction))
    ensures IsString(o.name) && IsBoolean(o.autoStart) && AtLeastZero(o.stopTimeout)
              && OptionalFunction(o.startCallback) && !OptionalFunction(o.stopCallback) ==>
              r == Failure(Message(StopCallbackMustBeFunction))
    ensures r.Success? ==>
              && r.value.name == o.name.s
              && r.value.autoStart == o.autoStart.b
              && r.value.stopTimeout == o.stopTimeout.x
              && r.value.stopTimeout >= 0.0
              && r.value.manifest == o.manifest
              && r.value.logLevel == o.logLevel
              && (o.startCallback.Func? <==> r.value.startCallback.Some?)
              && (o.startCallback.Func? ==> r.value.startCallback.value == o.startCallback.fn)
              && (o.stopCallback.Func? <==> r.value.stopCallback.Some?)
              && (o.stopCallback.Func? ==> r.value.stopCallback.value == o.stopCallback.fn)
  {
    if !IsString(o.name) then Failure(Message(NameMustBeString))
    else if !IsBoolean(o.autoStart) then Failure(Message(AutoStartMustBeBoolean))
    else if !(IsNumber(o.stopTimeout) && AtLeastZero(o.stopTimeout)) then
      Failure(Message(StopTimeoutMustBeNonNegative))
    else if !OptionalFunction(o.startCallback) then Failure(Message(StartCallbackMustBeFunction))
    else if !OptionalFunction(o.stopCallback) then Failure(Message(StopCallbackMustBeFunction))
    else Success(Config(
      o.manifest, o.autoStart.b, o.stopTimeout.x, o.name.s, o.logLevel,
      CallbackOf(o.startCallback), CallbackOf(o.stopCallback)))
  }

  /** The constructor up to validation: the two presence assertions, then
      defaults, then validation. `None` is an `undefined` options argument. */
  function Prepare(opts: Option<Options>): (r: Result<Config, Error>)
    ensures opts.None? ==> r == Failure(Message(OptionsRequired))
    ensures opts.Some? && opts.value.manifest.Undefined? ==> r == Failure(Message(ManifestRequired))
    ensures r.Success? <==>
              opts.Some? && !opts.value.manifest.Undefined? && Valid(Merge(opts.value))
    ensures r.Success? ==>
              var u := opts.value;
              && r.value.manifest == u.manifest
              && r.value.stopTimeout >= 0.0
              && (u.name.Undefined? ==> r.value.name == DefaultName)
              && (u.name.Str? ==> r.value.name == u.name.s)
              && (u.autoStart.Undefined? ==> r.value.autoStart)
              && (u.autoStart.Bool? ==> r.value.autoStart == u.autoStart.b)
              && (u.stopTimeout.Undefined? ==> r.value.stopTimeout == DefaultStopTimeout)
              && (u.stopTimeout.Num? ==> r.value.stopTimeout == u.stopTimeout.x)
              && (u.logLevel.Undefined? ==> r.value.logLevel == Str(DefaultLogLevel))
              && (!u.logLevel.Undefined? ==> r.value.logLevel == u.logLevel)
              && (u.startCallback.Func? <==> r.value.startCallback.Some?)
              && (u.startCallback.Func? ==> r.value.startCallback.value == u.startCallback.fn)
              && (u.stopCallback.Func? <==> r.value.stopCallback.Some?)
              && (u.stopCallback.Func? ==> r.value.stopCallback.value == u.stopCallback.fn)
  {
    if opts.None? then Failure(Message(OptionsRequired))
    else if IsUndefined(opts.value.manifest) then Failure(Message(ManifestRequired))
    else Validate(Merge(opts.value))
  }
}
