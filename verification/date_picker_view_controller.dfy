/** `DatePickerViewController`: the host of the date-time picker. Its reset
    action asks for confirmation and, when confirmed, sets the picker to the
    tweak's default. A session is the sequence of user events the host and
    its picker receive. */
module DatePickerViewController {
  import opened Calendar
  import opened Wrappers
  import opened Clamping
  import opened DateTimePickerView

  /** The two answers to the reset confirmation. */
  datatype ResetAnswer = ResetTweak | Cancel

  /** `restoreDefaultValue` after the user answers the confirmation:
      "Reset Tweak" sets the picker to the default through `setDateTime`,
      "Cancel" does nothing. */
  function RestoreDefaultValue(v: View, answer: ResetAnswer): (r: View)
    ensures answer == Cancel ==> r == v
    ensures answer == ResetTweak ==> r.Consistent()
    ensures answer == ResetTweak ==> r.dateTime == Clamp(v.tweak.defaultValue, v.tweak.bounds)
    ensures answer == ResetTweak ==> r.storeWrites == v.storeWrites + [StoreValue(v.tweak, r.dateTime)]
    ensures answer == ResetTweak ==> v.pickerWrites <= r.pickerWrites
    ensures answer == ResetTweak ==>
              (DatePicker in r.pickerWrites[|v.pickerWrites|..] <==> v.datePicker != r.dateTime)
    ensures answer == ResetTweak ==>
              (TimePicker in r.pickerWrites[|v.pickerWrites|..] <==> v.timePicker != r.dateTime)
    ensures answer == ResetTweak ==>
              |r.pickerWrites| - |v.pickerWrites|
                == (if v.timePicker != r.dateTime then 1 else 0) + (if v.datePicker != r.dateTime then 1 else 0)
    ensures answer == ResetTweak && v.tweak.bounds.Admits(v.tweak.defaultValue) ==>
              r.dateTime == v.tweak.defaultValue
  {
    match answer
    case ResetTweak =>
      SetDateTime(v, v.tweak.defaultValue)
    case Cancel => v
  }

  /** Confirming a reset a second time keeps the value and rewrites neither
      picker; only the store receives another write. */
  lemma ResetTwiceRewritesNoPicker(v: View)
    ensures var once := RestoreDefaultValue(v, ResetTweak);
            var twice := RestoreDefaultValue(once, ResetTweak);
            twice.dateTime == once.dateTime && twice.pickerWrites == once.pickerWrites
  {
    var once := RestoreDefaultValue(v, ResetTweak);
    ResettleWritesNoPicker(once, v.tweak.defaultValue);
  }

  /** A user event: turning one picker to a new display, or answering the
      reset confirmation. */
  datatype Event = PickerChanged(picker: Picker, shown: Timestamp) | ResetAnswered(answer: ResetAnswer)

  /** The view after one event, with `compose` as the calendar composition. */
  function Step(v: View, e: Event, compose: Composer): View
  {
    match e
    case PickerChanged(p, shown) => PickerDidChangeValue(v, p, shown, compose)
    case ResetAnswered(answer) => RestoreDefaultValue(v, answer)
  }

  /** The number of store writes a sequence of events causes: one per picker
      change and per confirmed reset. */
  function StoreWriteCount(events: seq<Event>): nat
  {
    if events == [] then 0
    else (if events[0] == ResetAnswered(Cancel) then 0 else 1) + StoreWriteCount(events[1..])
  }

  /** The view after a session of events. Every store write of the session
      carries the tweak's default and bounds and lies inside well-formed bounds, earlier
      writes are never altered, and a settled view stays settled. */
  function Run(v: View, events: seq<Event>, compose: Composer): (r: View)
    ensures r.tweak == v.tweak
    ensures v.storeWrites <= r.storeWrites
    ensures v.pickerWrites <= r.pickerWrites
    ensures |r.storeWrites| == |v.storeWrites| + StoreWriteCount(events)
    ensures forall i :: |v.storeWrites| <= i < |r.storeWrites| ==> IsWriteOf(v.tweak, r.storeWrites[i])
    ensures v.Consistent() || StoreWriteCount(events) > 0 ==> r.Consistent()
    decreases |events|
  {
    if events == [] then v
    else Run(Step(v, events[0], compose), events[1..], compose)
  }

  /** A session opened by `Init` stays settled through any events: after
      every session both pickers display the value, and every value the
      store received is inside well-formed bounds. */
  lemma SessionStaysSettled(
    tweak: Tweak, current: Timestamp, priorWrites: seq<TweakValue>,
    dateCreatedAt: Timestamp, timeCreatedAt: Timestamp, events: seq<Event>, compose: Composer)
    ensures var r := Run(Init(tweak, current, priorWrites, dateCreatedAt, timeCreatedAt), events, compose);
            r.datePicker == r.dateTime && r.timePicker == r.dateTime
    ensures var r := Run(Init(tweak, current, priorWrites, dateCreatedAt, timeCreatedAt), events, compose);
            forall i :: |priorWrites| <= i < |r.storeWrites| ==> IsWriteOf(tweak, r.storeWrites[i])
  {
    var v := Init(tweak, current, priorWrites, dateCreatedAt, timeCreatedAt);
    assert IsWriteOf(tweak, v.storeWrites[|priorWrites|]);
  }

  /** The bounds of the worked examples: 2020-01-01T00:00 to
      2020-12-31T23:59, in seconds since 1970-01-01T00:00 UTC. */
  const ExampleBounds := Bounds(Some(1577836800), Some(1609459140))

  /** A settled view of the examples, holding 2020-06-15T10:30. */
  const ExampleView := View(
    Tweak(1577836800, ExampleBounds), 1592217000, 1592217000, 1592217000,
    [StoreValue(Tweak(1577836800, ExampleBounds), 1592217000)], [])

  /** Turning the date picker to 2021-03-01 (showing 09:15) splices
      2021-03-01T10:30, which is past the maximum, so the value becomes the
      maximum 2020-12-31T23:59 and both pickers show it. */
  lemma ExampleDateEditClampedToMax()
    ensures var r := PickerDidChangeValue(ExampleView, DatePicker, 1614590100, Combine);
            r.dateTime == 1609459140 && r.datePicker == 1609459140 && r.timePicker == 1609459140
  {
    DateEditSplice(ExampleView, 1614590100);
  }

  /** Turning the time picker to 08:00 (on 2026-10-10) splices
      2020-06-15T08:00, inside the bounds, which is kept as it is. */
  lemma ExampleTimeEditAccepted()
    ensures PickerDidChangeValue(ExampleView, TimePicker, 1791619200, Combine).dateTime == 1592208000
  {
    TimeEditSplice(ExampleView, 1791619200);
  }
}
