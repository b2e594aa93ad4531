/** Outcomes shared by the task-list model: the error kinds a modelled run can
    stop with, a `Result` carrying them, and the program's 16-bit unsigned
    integers together with the checked `usize -> u16` conversion. */
module Results {

  datatype Option<+T> = None | Some(value: T)

  /** Every way the modelled run can stop with an error (a returned `Err` or
      a panic). */
  datatype Error =
    | MissingField     // a stored record lacks the `title` or the `completed` key
    | Conversion       // an index or length does not fit in 16 bits
    | Underflow        // `len - 1` computed on an empty list
    | IndexOutOfRange  // removal at an index past the end of the list

  datatype Result<+T> = Ok(value: T) | Err(error: Error)

  const MaxU16: int := 0xFFFF

  /** The `u16` type used for the selection cursor and row indices. */
  type U16 = x: int | 0 <= x <= MaxU16

  /** `try_into::<u16>()` on a `usize`: fails instead of truncating. */
  function ToU16(n: nat): (r: Result<U16>)
    ensures r.Ok? <==> n <= MaxU16
    ensures r.Ok? ==> r.value == n
    ensures r.Err? ==> r.error == Conversion
  {
    if n <= MaxU16 then Ok(n) else Err(Conversion)
  }
}
