/** Outcome types shared by the readers: an optional value, and the result of a
    read that may fall outside its buffer. */
module Results {

  datatype Option<+T> = None | Some(value: T)

  /** A DataView read either yields a value or raises a RangeError because the
      requested bytes lie past the end of the buffer. */
  datatype Read<+T> = Ok(value: T) | RangeError
}
