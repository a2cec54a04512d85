/** Resolution of the `manifest` option into the manifest handed to the
    composer (lib/hapi-server.js, `getManifest`). */
module Manifest {
  import opened Js

  /** The collaborators manifest resolution calls: invoking a manifest
      function, and loading a module by name (`require`). Each either yields
      a value or throws. */
  datatype Loader = Loader(
    invoke: nat -> Result<Value, Error>,
    load: string -> Result<Value, Error>)

  const ManifestTypePrefix: string :=
    "options.manifest must be either an Object, String, or Function - but its type is : "

  /** The error thrown for a manifest of any other type. */
  function ManifestTypeError(v: Value): Error {
    Message(ManifestTypePrefix + TypeOf(v))
  }

  /** The three manifest sources, as a tagged variant. */
  datatype Source = Generator(fn: nat) | Reference(path: string) | Inline(value: Value)

  /** The manifest value a source stands for. */
  function Embed(src: Source): Value {
    match src
    case Generator(fn) => Func(fn)
    case Reference(path) => Str(path)
    case Inline(value) => value
  }

  /** Which source a manifest value denotes; None for a value of no
      acceptable type. The function test comes first, so a function is a
      generator and never an inline manifest. Nothing is lost: the value is
      recovered from its source. */
  function Classify(v: Value): (r: Option<Source>)
    ensures r.None? <==> !IsFunction(v) && !IsString(v) && !IsObject(v)
    ensures IsFunction(v) ==> r == Some(Generator(v.fn))
    ensures IsString(v) ==> r == Some(Reference(v.s))
    ensures r.Some? && r.value.Inline? ==> v.Obj? && r.value.value == v
    ensures r.Some? ==> Embed(r.value) == v
  {
    if IsFunction(v) then Some(Generator(v.fn))
    else if IsString(v) then Some(Reference(v.s))
    else if IsObject(v) then Some(Inline(v))
    else None
  }

  /** Produces the manifest of a classified source. */
  function Resolve(src: Source, loader: Loader): Result<Value, Error> {
    match src
    case Generator(fn) => loader.invoke(fn)
    case Reference(path) => loader.load(path)
    case Inline(value) => Success(value)
  }

  /** `getManifest`: a function yields what calling it yields, a string the
      module it names, any other object itself; any other value throws an
      error naming its `typeof`. */
  function GetManifest(v: Value, loader: Loader): (r: Result<Value, Error>)
    ensures v.Func? ==> r == loader.invoke(v.fn)
    ensures v.Str? ==> r == loader.load(v.s)
    ensures v.Obj? ==> r == Success(v)
    ensures !IsObject(v) && !IsString(v) ==>
              r.Failure? && r.error == Message(ManifestTypePrefix + TypeOf(v))
    // `typeof null` is "object": a null manifest is rejected as an object
    ensures v.Null? ==> r == Failure(Message(ManifestTypePrefix + "object"))
    ensures r == (match Classify(v)
                  case None => Failure(ManifestTypeError(v))
                  case Some(src) => Resolve(src, loader))
  {
    if IsFunction(v) then loader.invoke(v.fn)
    else if IsString(v) then loader.load(v.s)
    else if IsObject(v) then Success(v)
    else Failure(ManifestTypeError(v))
  }

}
