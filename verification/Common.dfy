/** Small types shared by every module of the model. */
module Common {

  datatype Option<+T> = None | Some(value: T)

  datatype Result<+T, +E> = Ok(value: T) | Err(error: E)

  /** Some value at most `limit`; a missing measurement is not. */
  predicate AtMost(measured: Option<nat>, limit: nat) {
    measured.Some? && measured.value <= limit
  }
}
