/** Units of time: all instants and durations are nanosecond counts. */
module Units {
  const NANOS_PER_SECOND := 1_000_000_000

  /** The zero time, midnight of the first of January of year 1, counted from the Unix epoch. */
  const ZERO_TIME := -62_135_596_800 * NANOS_PER_SECOND
}
