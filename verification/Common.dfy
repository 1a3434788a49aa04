/** Shared by all components: optional values and time. */
module Common {
  datatype Option<+T> = None | Some(value: T)

  /** Nanoseconds. The zero value stands for Go's zero time.Time (IsZero). */
  type Time = int
  const ZERO_TIME: Time := 0
  const SECOND := 1_000_000_000
}
