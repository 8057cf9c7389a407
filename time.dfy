/** Points in time as pandas holds them: integer nanoseconds since the epoch. */
module Time {

  type Instant = int

  /** One day (`pd.Timedelta(days=1)`) in nanoseconds. */
  const Day: int := 86_400_000_000_000
}
