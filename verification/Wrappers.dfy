// Absent values and results that may be errors.
module Wrappers {
  datatype Option<T> = None | Some(value: T)

  datatype Result<T> = Ok(value: T) | Err(error: string)

  // A product of reals, named so that proofs can pass it on unexpanded.
  function Times(a: real, b: real): real {
    a * b
  }
}
