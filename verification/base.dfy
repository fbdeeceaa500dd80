/** Optional values and partial results shared by every part of the model.
    `Option` stands for the source's `T | undefined` and `string | null`;
    `Result` stands for a call that may throw. */
module Base {

  datatype Option<T> = None | Some(value: T)

  /** A call that either returns `value` or throws; what was thrown is only
      logged by the source, so it carries no payload here. */
  datatype Result<T> = Ok(value: T) | Err {

    /** The returned value as an Option: a throw becomes None. */
    function ToOption(): (r: Option<T>)
      ensures r.Some? <==> Ok?
      ensures r.Some? ==> r.value == value
    {
      match this
      case Ok(v) => Some(v)
      case Err => None
    }
  }
}
