/** What every part of the codec calls by one name: its errors, its optional values, its bands and windows. */
module Common {
  const BANDS := 24

  /** Samples in one window: two 20 ms frames at 48 kHz. */
  const WINDOW := 1920

  datatype Error = WrongFrameSize(got: nat) | Malformed | RateTooLow(bytes: nat, needed: nat)

  datatype Result<T> = Ok(value: T) | Err(error: Error)

  datatype Option<T> = None | Some(value: T)
}
