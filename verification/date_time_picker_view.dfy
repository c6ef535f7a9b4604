/** `DateTimePickerView`: the editor that owns one timestamp-valued tweak,
    keeps a date picker and a time picker in step with it, and writes every
    new value to the tweak store. The view is an immutable record; each
    operation returns the view after the event. */
module DateTimePickerView {
  import opened Wrappers
  import opened Calendar
  import opened Clamping

  /** The parts of a `Tweak<Date>` the view reads: its default and bounds. */
  datatype Tweak = Tweak(defaultValue: Timestamp, bounds: Bounds)

  /** A `.date` value as written to the tweak store. */
  datatype TweakValue = DateValue(
    value: Timestamp,
    defaultValue: Timestamp,
    min: Option<Timestamp>,
    max: Option<Timestamp>)

  /** The two pickers of the view. */
  datatype Picker = DatePicker | TimePicker {
    /** The picker that shows the other facet. */
    function Other(): Picker
    {
      match this
      case DatePicker => TimePicker
      case TimePicker => DatePicker
    }
  }

  /** The store write for value `t` of `tweak`: the value together with the
      tweak's own default and bounds. */
  function StoreValue(tweak: Tweak, t: Timestamp): TweakValue
  {
    DateValue(t, tweak.defaultValue, tweak.bounds.minimum, tweak.bounds.maximum)
  }

  /** A store write that carries the default and bounds of `tweak` and, when its bounds are well
      formed, carries a value inside them. */
  predicate IsWriteOf(tweak: Tweak, w: TweakValue)
  {
    && w.defaultValue == tweak.defaultValue
    && w.min == tweak.bounds.minimum
    && w.max == tweak.bounds.maximum
    && (tweak.bounds.WellFormed() ==> tweak.bounds.Admits(w.value))
  }

  /** The editor's state: the value, what each picker displays (each picker
      holds a full timestamp), the log of store writes, and the log of
      programmatic writes to the picker displays. */
  datatype View = View(
    tweak: Tweak,
    dateTime: Timestamp,
    datePicker: Timestamp,
    timePicker: Timestamp,
    storeWrites: seq<TweakValue>,
    pickerWrites: seq<Picker>)
  {
    /** What picker `p` displays. */
    function Shown(p: Picker): Timestamp
    {
      match p
      case DatePicker => datePicker
      case TimePicker => timePicker
    }

    /** The view is settled: both pickers display the value, the value is
        inside well-formed bounds, and the latest store write is the value
        with the tweak's metadata. */
    predicate Consistent()
    {
      && datePicker == dateTime
      && timePicker == dateTime
      && (tweak.bounds.WellFormed() ==> tweak.bounds.Admits(dateTime))
      && |storeWrites| > 0
      && storeWrites[|storeWrites| - 1] == StoreValue(tweak, dateTime)
    }
  }

  /** Assignment to `dateTime`: its observer writes the new value to the
      store, whether or not it changed. */
  function AssignDateTime(v: View, t: Timestamp): (r: View)
    ensures r.dateTime == t
    ensures r.storeWrites == v.storeWrites + [StoreValue(v.tweak, t)]
    ensures r.tweak == v.tweak && r.datePicker == v.datePicker && r.timePicker == v.timePicker
    ensures r.pickerWrites == v.pickerWrites
  {
    v.(dateTime := t, storeWrites := v.storeWrites + [StoreValue(v.tweak, t)])
  }

  /** Sets picker `p` to display `t`, but only if it displays something else. */
  function SyncPicker(v: View, p: Picker, t: Timestamp): (r: View)
    ensures r.Shown(p) == t
    ensures forall q :: q != p ==> r.Shown(q) == v.Shown(q)
    ensures r.pickerWrites == v.pickerWrites + (if v.Shown(p) != t then [p] else [])
    ensures r.tweak == v.tweak && r.dateTime == v.dateTime && r.storeWrites == v.storeWrites
  {
    if v.Shown(p) == t then v
    else
      match p
      case DatePicker => v.(datePicker := t, pickerWrites := v.pickerWrites + [p])
      case TimePicker => v.(timePicker := t, pickerWrites := v.pickerWrites + [p])
  }

  /** `setDateTime`: clamp the candidate, assign it (one store write), then
      bring the time picker and the date picker to it, each only if needed. */
  function SetDateTime(v: View, candidate: Timestamp): (r: View)
    ensures r.tweak == v.tweak
    ensures r.dateTime == Clamp(candidate, v.tweak.bounds)
    ensures r.Consistent()
    ensures r.storeWrites == v.storeWrites + [StoreValue(v.tweak, r.dateTime)]
    ensures v.pickerWrites <= r.pickerWrites
    ensures TimePicker in r.pickerWrites[|v.pickerWrites|..] <==> v.timePicker != r.dateTime
    ensures DatePicker in r.pickerWrites[|v.pickerWrites|..] <==> v.datePicker != r.dateTime
    ensures |r.pickerWrites| - |v.pickerWrites|
              == (if v.timePicker != r.dateTime then 1 else 0) + (if v.datePicker != r.dateTime then 1 else 0)
  {
    var t := Clamp(candidate, v.tweak.bounds);
    var synced := SyncPicker(SyncPicker(AssignDateTime(v, t), TimePicker, t), DatePicker, t);
    assert synced.pickerWrites[|v.pickerWrites|..]
        == (if v.timePicker != t then [TimePicker] else []) + (if v.datePicker != t then [DatePicker] else []);
    synced
  }

  /** Re-setting a settled view to a candidate that clamps to its current
      value leaves both pickers untouched: no display is rewritten. */
  lemma ResettleWritesNoPicker(v: View, candidate: Timestamp)
    requires v.Consistent()
    requires Clamp(candidate, v.tweak.bounds) == v.dateTime
    ensures SetDateTime(v, candidate).pickerWrites == v.pickerWrites
    ensures SetDateTime(v, candidate).dateTime == v.dateTime
  {
    var r := SetDateTime(v, candidate);
    assert r.pickerWrites[|v.pickerWrites|..] == [];
  }

  /** The composition the change handler asks for: the date picker's
      year/month/day with the value's time of day, or the value's date with
      the time picker's hour/minute/second. */
  function Splice(compose: Composer, current: Timestamp, p: Picker, shown: Timestamp): (r: Option<Timestamp>)
    ensures p == DatePicker ==> r == compose(shown, current)
    ensures p == TimePicker ==> r == compose(current, shown)
    ensures Sound(compose) && r.Some? ==>
              DayOf(r.value) == DayOf(if p == DatePicker then shown else current)
    ensures Sound(compose) && r.Some? ==>
              SecOf(r.value) == SecOf(if p == DatePicker then current else shown)
  {
    match p
    case DatePicker => compose(shown, current)
    case TimePicker => compose(current, shown)
  }

  /** `datePickerDidChangeValue`: the user has turned picker `p` to `shown`;
      the handler splices that picker's facet with the other facet of the
      current value, falls back to `shown` itself when the composition
      fails, and hands the result to `setDateTime`. */
  function PickerDidChangeValue(v: View, p: Picker, shown: Timestamp, compose: Composer): (r: View)
    ensures r.tweak == v.tweak
    ensures r.Consistent()
    ensures r.storeWrites == v.storeWrites + [StoreValue(v.tweak, r.dateTime)]
    ensures Splice(compose, v.dateTime, p, shown).Some? ==>
              r.dateTime == Clamp(Splice(compose, v.dateTime, p, shown).value, v.tweak.bounds)
    ensures Splice(compose, v.dateTime, p, shown).None? ==>
              r.dateTime == Clamp(shown, v.tweak.bounds)
    ensures v.pickerWrites <= r.pickerWrites
    ensures p in r.pickerWrites[|v.pickerWrites|..] <==> shown != r.dateTime
    ensures forall q :: q != p ==> (q in r.pickerWrites[|v.pickerWrites|..] <==> v.Shown(q) != r.dateTime)
    ensures |r.pickerWrites| - |v.pickerWrites|
              == (if shown != r.dateTime then 1 else 0) + (if v.Shown(p.Other()) != r.dateTime then 1 else 0)
  {
    var turned := match p
      case DatePicker => v.(datePicker := shown)
      case TimePicker => v.(timePicker := shown);
    SetDateTime(turned, Splice(compose, v.dateTime, p, shown).Or(shown))
  }

  /** A date edit keeps the previous time of day and takes the picker's day,
      before clamping; when the spliced instant is inside the bounds, both
      facets survive into the new value. */
  lemma DateEditSplice(v: View, shown: Timestamp)
    ensures var r := PickerDidChangeValue(v, DatePicker, shown, Combine);
            r.dateTime == Clamp(Compose(DayOf(shown), SecOf(v.dateTime)), v.tweak.bounds)
    ensures var r := PickerDidChangeValue(v, DatePicker, shown, Combine);
            v.tweak.bounds.Admits(Compose(DayOf(shown), SecOf(v.dateTime))) ==>
              DayOf(r.dateTime) == DayOf(shown) && SecOf(r.dateTime) == SecOf(v.dateTime)
  {
    SplitCompose(DayOf(shown), SecOf(v.dateTime));
    CombineUnique(shown, v.dateTime, Compose(DayOf(shown), SecOf(v.dateTime)));
    if v.tweak.bounds.WellFormed() {
      ClampFixedPoints(Compose(DayOf(shown), SecOf(v.dateTime)), v.tweak.bounds);
    }
  }

  /** A time edit keeps the previous day and takes the picker's time of day,
      before clamping; when the spliced instant is inside the bounds, both
      facets survive into the new value. */
  lemma TimeEditSplice(v: View, shown: Timestamp)
    ensures var r := PickerDidChangeValue(v, TimePicker, shown, Combine);
            r.dateTime == Clamp(Compose(DayOf(v.dateTime), SecOf(shown)), v.tweak.bounds)
    ensures var r := PickerDidChangeValue(v, TimePicker, shown, Combine);
            v.tweak.bounds.Admits(Compose(DayOf(v.dateTime), SecOf(shown))) ==>
              DayOf(r.dateTime) == DayOf(v.dateTime) && SecOf(r.dateTime) == SecOf(shown)
  {
    SplitCompose(DayOf(v.dateTime), SecOf(shown));
    CombineUnique(v.dateTime, shown, Compose(DayOf(v.dateTime), SecOf(shown)));
    if v.tweak.bounds.WellFormed() {
      ClampFixedPoints(Compose(DayOf(v.dateTime), SecOf(shown)), v.tweak.bounds);
    }
  }

  /** Turning either picker of a settled view back to the value it already
      holds changes nothing but appends the store write. */
  lemma EditToCurrentValueIsNoOp(v: View, p: Picker)
    requires v.Consistent()
    requires v.tweak.bounds.WellFormed()
    ensures PickerDidChangeValue(v, p, v.dateTime, Combine).dateTime == v.dateTime
    ensures PickerDidChangeValue(v, p, v.dateTime, Combine).pickerWrites == v.pickerWrites
  {
    CombineSelf(v.dateTime);
    ClampFixedPoints(v.dateTime, v.tweak.bounds);
    var turned := match p
      case DatePicker => v.(datePicker := v.dateTime)
      case TimePicker => v.(timePicker := v.dateTime);
    assert turned == v;
    ResettleWritesNoPicker(v, v.dateTime);
  }

  /** `init(anyTweak:tweakStore:)`: the value starts as the store's current
      value for the tweak (an assignment inside the initializer fires no
      observer), each picker displays the instant it was created at, and
      `setDateTime(dateTime)` then clamps, writes the store once and brings
      both pickers to the value. */
  function Init(
    tweak: Tweak, current: Timestamp, priorWrites: seq<TweakValue>,
    dateCreatedAt: Timestamp, timeCreatedAt: Timestamp): (r: View)
    ensures r.tweak == tweak
    ensures r.Consistent()
    ensures r.dateTime == Clamp(current, tweak.bounds)
    ensures r.storeWrites == priorWrites + [StoreValue(tweak, r.dateTime)]
    ensures DatePicker in r.pickerWrites <==> dateCreatedAt != r.dateTime
    ensures TimePicker in r.pickerWrites <==> timeCreatedAt != r.dateTime
    ensures |r.pickerWrites|
              == (if dateCreatedAt != r.dateTime then 1 else 0) + (if timeCreatedAt != r.dateTime then 1 else 0)
  {
    var v0 := View(tweak, current, dateCreatedAt, timeCreatedAt, priorWrites, []);
    var r := SetDateTime(v0, current);
    assert r.pickerWrites[|v0.pickerWrites|..] == r.pickerWrites;
    r
  }
}
