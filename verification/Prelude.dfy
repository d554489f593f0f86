/** Result types shared by every module. */
module Prelude {

  datatype Option<+T> = None | Some(value: T)

  /** `opt.unwrap_or(default)` */
  function OrElse<T>(v: Option<T>, default: T): T {
    if v.Some? then v.value else default
  }

  datatype Result<+T, +E> = Ok(value: T) | Err(error: E)
}
