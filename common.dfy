/** Shared value types: Rust's `Option` and `Result<_, String>`, the error
    messages the crate produces, and the unsigned 64-bit integers it uses for
    random states. */
module Common {

  datatype Option<T> = None | Some(value: T)
  {
    /** `Option::unwrap_or`. */
    function UnwrapOr(default: T): T
    {
      match this
      case Some(v) => v
      case None => default
    }
  }

  /** The errors the crate returns as strings, one constructor per message,
      carrying the numbers the message is formatted with. */
  datatype Error =
    | EmptyModelName                                         // "The provided model name is empty."
    | EmptyObject                                            // "The provided object is empty"
    | IncompatibleDimensionality(dimensionality: nat, length: nat)
    | IncompatibleTargetLength(length: nat, targetDimension: nat)
    | IncompatibleOriginalLength(length: nat, originalDimension: nat)
    | UnsupportedTargetDimension                             // "Currently we only support 2."

  datatype Result<T> = Ok(value: T) | Err(error: Error)

  const U64_MODULUS: int := 0x1_0000_0000_0000_0000

  /** `u64`. */
  type U64 = x: int | 0 <= x < U64_MODULUS

  /** `u64::wrapping_add`. */
  function WrappingAdd(a: U64, b: U64): U64
  {
    (a + b) % U64_MODULUS
  }

  /** `u64::wrapping_mul`. */
  function WrappingMul(a: U64, b: U64): U64
  {
    (a * b) % U64_MODULUS
  }
}
