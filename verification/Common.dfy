/** What several components share. */
module Common {

  datatype Option<+T> = None | Some(value: T)

  /** Instants and durations are whole nanoseconds of one monotone clock. */
  const SECOND: nat := 1_000_000_000
}
