/** Shared vocabulary: optional values, clock units and the integer ceilings the services enforce. */
module Base {

  datatype Option<+T> = None | Some(value: T)

  /** A commit takes effect and is acknowledged, takes effect unacknowledged, or does not take effect. */
  datatype Commit = Committed | AnswerLost | RolledBack

  /** Largest integer a snapshot field may carry (2^53 - 1). */
  const MAX_SAFE_INTEGER: int := 9007199254740991

  /** Exclusive ceiling of counters stored in the database. */
  const COUNTER_CEILING: int := 9007199254740990

  const MICROS_PER_SECOND: int := 1000000

  const DAY_SECONDS: int := 86400

  /** Whole Unix seconds of a database timestamp given in microseconds. */
  function Unix(t: int): (s: int)
    ensures s * MICROS_PER_SECOND <= t < (s + 1) * MICROS_PER_SECOND
  {
    t / MICROS_PER_SECOND
  }
}
