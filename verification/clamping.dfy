/** The bounds policy of the date-time picker: a candidate timestamp is
    snapped to the tweak's optional maximum or minimum. */
module Clamping {
  import opened Wrappers
  import opened Calendar

  /** The optional allowed range of a date tweak. */
  datatype Bounds = Bounds(minimum: Option<Timestamp>, maximum: Option<Timestamp>)
  {
    /** The tweak framework assumes, without checking, that a minimum never
        exceeds a maximum. */
    predicate WellFormed()
    {
      minimum.Some? && maximum.Some? ==> minimum.value <= maximum.value
    }

    /** `t` lies on the permitted side of every bound that is present. */
    predicate Admits(t: Timestamp)
    {
      (minimum.Some? ==> minimum.value <= t) && (maximum.Some? ==> t <= maximum.value)
    }
  }

  /** The clamp of `DateTimePickerView.setDateTime`: the maximum is checked
      first and wins at or beyond it; only then is the minimum checked, which
      wins at or beyond it; otherwise the candidate is kept. */
  function Clamp(t: Timestamp, b: Bounds): (r: Timestamp)
    ensures b.maximum.Some? && t >= b.maximum.value ==> r == b.maximum.value
    ensures (b.maximum.None? || t < b.maximum.value) && b.minimum.Some? && t <= b.minimum.value ==>
              r == b.minimum.value
    ensures (b.maximum.None? || t < b.maximum.value) && (b.minimum.None? || t > b.minimum.value) ==>
              r == t
    ensures b.WellFormed() ==> b.Admits(r)
  {
    if b.maximum.Some? && b.maximum.value <= t then b.maximum.value
    else if b.minimum.Some? && b.minimum.value >= t then b.minimum.value
    else t
  }

  /** Clamping an already clamped value changes nothing. */
  lemma ClampIdempotent(t: Timestamp, b: Bounds)
    requires b.WellFormed()
    ensures Clamp(Clamp(t, b), b) == Clamp(t, b)
  {
  }

  /** The values clamping leaves alone are exactly the admitted ones. */
  lemma ClampFixedPoints(t: Timestamp, b: Bounds)
    requires b.WellFormed()
    ensures Clamp(t, b) == t <==> b.Admits(t)
  {
  }

  /** Clamping preserves the order of candidates. */
  lemma ClampMonotone(t: Timestamp, u: Timestamp, b: Bounds)
    requires b.WellFormed()
    requires t <= u
    ensures Clamp(t, b) <= Clamp(u, b)
  {
  }

  /** The usual definition of clamping: raise to the minimum, then lower to
      the maximum. */
  function ReferenceClamp(t: Timestamp, b: Bounds): Timestamp
  {
    var raised := if b.minimum.Some? && t < b.minimum.value then b.minimum.value else t;
    if b.maximum.Some? && raised > b.maximum.value then b.maximum.value else raised
  }

  /** On well-formed bounds the picker's clamp is the usual one. */
  lemma ClampIsReferenceClamp(t: Timestamp, b: Bounds)
    requires b.WellFormed()
    ensures Clamp(t, b) == ReferenceClamp(t, b)
  {
  }

  /** The clamp written with strict comparisons: snap only values strictly
      beyond a bound. */
  function StrictClamp(t: Timestamp, b: Bounds): Timestamp
  {
    if b.maximum.Some? && b.maximum.value < t then b.maximum.value
    else if b.minimum.Some? && b.minimum.value > t then b.minimum.value
    else t
  }

  /** On well-formed bounds the non-strict tie-break cannot be observed:
      snapping a value equal to a bound yields that same value. */
  lemma NonStrictTieBreakUnobservable(t: Timestamp, b: Bounds)
    requires b.WellFormed()
    ensures Clamp(t, b) == StrictClamp(t, b)
  {
  }

  /** Only when the minimum exceeds the maximum does the tie-break matter:
      a candidate equal to the maximum is kept at the maximum, below the
      minimum, where a strict clamp would raise it to the minimum. Such
      bounds also break idempotence: a candidate below both bounds is raised
      to the minimum, and clamping that again lowers it to the maximum. */
  lemma InvertedBoundsBehaviour()
    ensures Clamp(10, Bounds(Some(20), Some(10))) == 10
    ensures StrictClamp(10, Bounds(Some(20), Some(10))) == 20
    ensures !Bounds(Some(20), Some(10)).Admits(Clamp(10, Bounds(Some(20), Some(10))))
    ensures Clamp(5, Bounds(Some(20), Some(10))) == 20
    ensures Clamp(Clamp(5, Bounds(Some(20), Some(10))), Bounds(Some(20), Some(10))) == 10
  {
  }
}
