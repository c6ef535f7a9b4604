/** An abstract calendar: a timestamp is a whole number of seconds, and it
    splits into a day number (the year/month/day facet) and a second of the
    day (the hour/minute/second facet) by a fixed number of seconds per day.
    Time zones, daylight-saving gaps and locale calendars are not modelled. */
module Calendar {
  import opened Wrappers

  type Timestamp = int

  const SecondsPerDay: int := 86400

  /** The year/month/day facet of `t`. Dafny's division is Euclidean, which
      for a positive divisor rounds toward minus infinity, so instants before
      the epoch fall on the correct day. */
  function DayOf(t: Timestamp): int
  {
    t / SecondsPerDay
  }

  /** The hour/minute/second facet of `t`. */
  function SecOf(t: Timestamp): (s: int)
    ensures 0 <= s < SecondsPerDay
  {
    t % SecondsPerDay
  }

  /** The instant at second `sec` of day `day`. */
  function Compose(day: int, sec: int): Timestamp
  {
    day * SecondsPerDay + sec
  }

  /** Splitting a composed instant gives back its two facets. */
  lemma SplitCompose(day: int, sec: int)
    requires 0 <= sec < SecondsPerDay
    ensures DayOf(Compose(day, sec)) == day
    ensures SecOf(Compose(day, sec)) == sec
  {
  }

  /** Composing the two facets of an instant gives back the instant. */
  lemma ComposeSplit(t: Timestamp)
    ensures Compose(DayOf(t), SecOf(t)) == t
  {
  }

  /** Two instants with the same day and the same second of the day are the
      same instant: the two facets determine the timestamp. */
  lemma FacetsDetermineInstant(a: Timestamp, b: Timestamp)
    requires DayOf(a) == DayOf(b) && SecOf(a) == SecOf(b)
    ensures a == b
  {
    ComposeSplit(a);
    ComposeSplit(b);
  }

  /** The calendar composition of the year/month/day of `date` with the
      hour/minute/second of `time`. In this calendar every such pair names an
      instant, so the composition always succeeds. */
  function Combine(date: Timestamp, time: Timestamp): (r: Option<Timestamp>)
    ensures r.Some?
    ensures DayOf(r.value) == DayOf(date)
    ensures SecOf(r.value) == SecOf(time)
  {
    SplitCompose(DayOf(date), SecOf(time));
    Some(Compose(DayOf(date), SecOf(time)))
  }

  /** A calendar composition of a date facet and a time facet that may fail
      (`None`), as a real calendar does for a local time that does not exist. */
  type Composer = (Timestamp, Timestamp) -> Option<Timestamp>

  /** A composition is sound when every instant it returns carries the
      day of its date argument and the time of day of its time argument. */
  ghost predicate Sound(compose: Composer)
  {
    forall date, time :: compose(date, time).Some? ==>
      DayOf(compose(date, time).value) == DayOf(date) && SecOf(compose(date, time).value) == SecOf(time)
  }

  /** The fixed-split composition is sound. */
  lemma CombineSound()
    ensures Sound(Combine)
  {
  }

  /** Any instant carrying the date of `date` and the time of `time` is the
      one `Combine` returns: the composition is uniquely determined. */
  lemma CombineUnique(date: Timestamp, time: Timestamp, t: Timestamp)
    requires DayOf(t) == DayOf(date) && SecOf(t) == SecOf(time)
    ensures Combine(date, time) == Some(t)
  {
    FacetsDetermineInstant(Combine(date, time).value, t);
  }

  /** Recombining an instant with itself gives it back. */
  lemma CombineSelf(t: Timestamp)
    ensures Combine(t, t) == Some(t)
  {
    CombineUnique(t, t, t);
  }
}
