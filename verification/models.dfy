/** The producer's in-memory reading (`sensor.SensorReading`) and the instant it carries. */
module Models {
  import opened GoInts

  const NanosPerSecond: int := 1_000_000_000

  type Nanos = n: int | 0 <= n < NanosPerSecond

  /** A `time.Time` as whole Unix seconds plus the sub-second nanoseconds, which are never
      negative: half a second before the epoch is `Timestamp(-1, 500_000_000)`. */
  datatype Timestamp = Timestamp(seconds: Int64, nanos: Nanos)

  /** A reading as generated: Go's `int` value is 64 bits wide. */
  datatype SensorReading = SensorReading(sensorName: string, value: Int64, timestamp: Timestamp)

  /** Nanoseconds since the epoch: the order of instants. */
  function EpochNanos(t: Timestamp): int {
    t.seconds * NanosPerSecond + t.nanos
  }

  /** `t.Unix()`: the whole second in which `t` falls (rounding down, also before the epoch). */
  function Unix(t: Timestamp): (s: Int64)
    ensures s * NanosPerSecond <= EpochNanos(t) < (s + 1) * NanosPerSecond
  {
    t.seconds
  }

  /** `time.Unix(s, 0)`: the instant at the start of second `s`. */
  function FromUnix(s: Int64): (t: Timestamp)
    ensures EpochNanos(t) == s * NanosPerSecond
  {
    Timestamp(s, 0)
  }

  /** Whole seconds survive a trip through `time.Unix(s, 0)`. */
  lemma UnixOfFromUnix(s: Int64)
    ensures Unix(FromUnix(s)) == s
  {
  }

  /** The other direction loses exactly the sub-second part: the rebuilt instant is at most
      `t`, less than one second before it, and equal to it exactly when `t` had no nanoseconds. */
  lemma FromUnixOfUnix(t: Timestamp)
    ensures EpochNanos(FromUnix(Unix(t))) <= EpochNanos(t) < EpochNanos(FromUnix(Unix(t))) + NanosPerSecond
    ensures FromUnix(Unix(t)) == t <==> t.nanos == 0
  {
  }
}
