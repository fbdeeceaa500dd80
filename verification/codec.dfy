/** Serializer/deserializer selection and default-value resolution: the
    configuration the hook is created with. */
module Codec {
  import opened Base

  /** The configured `defaultValue`: absent, a literal, or a zero-argument
      producer that is invoked each time a default is needed. */
  datatype Default<T> = NoDefault | Literal(v: T) | Producer(make: () -> T)

  /** The hook's options; a missing codec half falls back to JSON. */
  datatype Options<!T> = Options(
    serializer: Option<T -> Result<string>>,
    deserializer: Option<string -> Result<T>>,
    defaultValue: Default<T>)

  /** The built-in `JSON.stringify` / `JSON.parse` pair, left abstract: both
      may throw. */
  datatype Json<!T> = Json(stringify: T -> Result<string>, parse: string -> Result<T>)

  datatype Config<!T> = Config(options: Options<T>, json: Json<T>)

  /** The hook's `serializer`: the custom one when given, JSON otherwise,
      chosen independently of the deserializer. */
  function Serialize<T>(cfg: Config<T>, v: T): (r: Result<string>)
    ensures cfg.options.serializer.Some? ==> r == cfg.options.serializer.value(v)
    ensures cfg.options.serializer.None? ==> r == cfg.json.stringify(v)
  {
    match cfg.options.serializer
    case Some(f) => f(v)
    case None => cfg.json.stringify(v)
  }

  /** The hook's `deserializer`: the custom one when given, JSON otherwise,
      chosen independently of the serializer. */
  function Deserialize<T>(cfg: Config<T>, raw: string): (r: Result<T>)
    ensures cfg.options.deserializer.Some? ==> r == cfg.options.deserializer.value(raw)
    ensures cfg.options.deserializer.None? ==> r == cfg.json.parse(raw)
  {
    match cfg.options.deserializer
    case Some(f) => f(raw)
    case None => cfg.json.parse(raw)
  }

  /** The fallback value: undefined without a default, the literal as is,
      or the producer's result. */
  function ResolveDefault<T>(cfg: Config<T>): (r: Option<T>)
    ensures r.None? <==> cfg.options.defaultValue.NoDefault?
    ensures cfg.options.defaultValue.Literal? ==> r == Some(cfg.options.defaultValue.v)
    ensures cfg.options.defaultValue.Producer? ==> r == Some(cfg.options.defaultValue.make())
  {
    match cfg.options.defaultValue
    case NoDefault => None
    case Literal(v) => Some(v)
    case Producer(make) => Some(make())
  }

  /** True iff `writer` serializes `v` without throwing and `reader`
      deserializes the string it produces back to `v`. */
  ghost predicate Carries<T>(writer: Config<T>, reader: Config<T>, v: T) {
    Serialize(writer, v).Ok? && Deserialize(reader, Serialize(writer, v).value) == Ok(v)
  }

  /** True iff the codec round-trips `v`. */
  ghost predicate RoundTrips<T>(cfg: Config<T>, v: T) {
    Carries(cfg, cfg, v)
  }

  /** Overriding one codec half leaves the other half's behaviour as it was. */
  lemma SelectionIsPerHalf<T>(cfg: Config<T>, ser: T -> Result<string>, v: T, raw: string)
    ensures Deserialize(cfg.(options := cfg.options.(serializer := Some(ser))), raw) == Deserialize(cfg, raw)
    ensures Serialize(cfg.(options := cfg.options.(serializer := Some(ser))), v) == ser(v)
  {
  }
}
