/** Shared vocabulary: optional values and the clock. */
module Base {

  datatype Option<+T> = None | Some(value: T)

  /** Nanoseconds since the zero `time.Time`; 0 is the zero time itself. */
  type Instant = nat

  const SECOND: nat := 1_000_000_000

  /** The observer's tri-state quorum signal. */
  datatype Quorum = QuorumUnknown | QuorumOk | QuorumLost
}
