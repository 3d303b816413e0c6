/** Shared vocabulary: optional columns, store errors, identifiers and clocks. */
module Base {
  datatype Option<+T> = None | Some(value: T)

  datatype Error =
    | NotFound
    | CredentialRejected
    | IdempotencyConflict
    | InvalidEvidence
    | StorageFailure

  datatype Result<+T> = Ok(value: T) | Err(error: Error)

  /** How a store call ends for its caller: it may not be executed, or be executed with its reply lost. */
  datatype Reply = Replied | NotExecuted | ReplyLost

  /** Identifiers are compared for equality and, where the store sorts them, for order. */
  type Id = nat

  /** Nanoseconds; 0 is Go's zero time. */
  type Time = int

  const MICROSECOND: int := 1_000
  const SECOND: int := 1_000_000_000
  const MAX_CLOCK_SKEW: int := 15 * 60 * SECOND
  const TWO_63: int := 0x8000_0000_0000_0000

  function Least(a: int, b: int): int {
    if a <= b then a else b
  }

  /** n taken k times. */
  function Times(n: nat, k: nat): nat {
    if k == 0 then 0 else Times(n, k - 1) + n
  }

  lemma {:induction false} TimesIsProduct(n: nat, k: nat)
    ensures Times(n, k) == n * k
  {
    if k > 0 {
      TimesIsProduct(n, k - 1);
      assert n * k == n * (k - 1) + n;
    }
  }

  /** PostgreSQL TIMESTAMPTZ keeps whole microseconds. */
  function Stored(t: Time): Time {
    t - t % MICROSECOND
  }

  /** time.Time.Sub saturates at the 64-bit Duration range. */
  function DurationBetween(a: Time, b: Time): int {
    if a - b < -TWO_63 then -TWO_63 else if a - b >= TWO_63 then TWO_63 - 1 else a - b
  }

  /** Negating the least 64-bit integer gives the least 64-bit integer back. */
  function Negated64(d: int): int {
    if d == -TWO_63 then d else -d
  }

  predicate Plausible(protocolAt: Time, receivedAt: Time) {
    protocolAt != 0 && receivedAt != 0 &&
    var delta := DurationBetween(protocolAt, receivedAt);
    (if delta < 0 then Negated64(delta) else delta) <= MAX_CLOCK_SKEW
  }

  /** The skew guard is symmetric up to 15 minutes, and open again from 2^63 ns in the past on. */
  lemma PlausibleIff(protocolAt: Time, receivedAt: Time)
    ensures Plausible(protocolAt, receivedAt) <==>
            protocolAt != 0 && receivedAt != 0 &&
            (-MAX_CLOCK_SKEW <= protocolAt - receivedAt <= MAX_CLOCK_SKEW
             || protocolAt - receivedAt <= -TWO_63)
  {}
}
