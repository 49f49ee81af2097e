/** Small failure-carrying datatypes shared by every module of the model. */
module Wrappers {

  /** A value that may be absent: JavaScript's `undefined`/`null` versus a present value. */
  datatype Option<+T> = None | Some(value: T) {
    function GetOr(default: T): T {
      match this
      case Some(v) => v
      case None => default
    }
  }

  /** The result of an operation that can fail with an error value. */
  datatype Result<+T, +E> = Ok(value: T) | Err(error: E)

  /** A pair of conversions between values and their string form, standing in for
      a library encoder (`jwt.sign`, `btoa(JSON.stringify(...))`) and its decoder. */
  datatype Codec<!T> = Codec(encode: T -> string, decode: string -> Option<T>)

  /** The decoder recovers every value the encoder produced. */
  ghost predicate RoundTrips<T(!new)>(c: Codec<T>) {
    forall x :: c.decode(c.encode(x)) == Some(x)
  }
}
