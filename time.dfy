/** Instants and the one-hour booking granularity.

    An instant is a count of milliseconds since the epoch, the value a
    JavaScript Date carries. Hours are taken to start at multiples of one
    hour from the epoch (a UTC clock, or a zone whose offset is a whole
    number of hours). */
module Time {

  /** Milliseconds since the epoch; negative values lie before it. */
  type Instant = int

  /** One hour in milliseconds: the unit of booking granularity. */
  const HOUR: int := 3_600_000

  /** An instant with zero minutes, seconds and milliseconds. */
  predicate IsHourAligned(t: Instant)
  {
    t % HOUR == 0
  }

  /** Truncates an instant to the start of its hour (14:37 becomes 14:00).
      The result lies in the same hour as `t`, is itself aligned, and an
      instant that is already aligned is returned as it is. */
  function StartOfHour(t: Instant): (h: Instant)
    ensures h <= t
    ensures t - h < HOUR
    ensures IsHourAligned(h)
    ensures IsHourAligned(t) ==> h == t
  {
    t - t % HOUR
  }

  /** The start of the hour is the only aligned instant at most an hour
      before `t`: truncation picks out exactly the hour `t` falls in. */
  lemma StartOfHourUnique(t: Instant, a: Instant)
    requires IsHourAligned(a)
    requires a <= t < a + HOUR
    ensures StartOfHour(t) == a
  {
  }

  /** Truncation never reverses the order of two instants. */
  lemma StartOfHourMonotonic(s: Instant, t: Instant)
    requires s <= t
    ensures StartOfHour(s) <= StartOfHour(t)
  {
  }
}
