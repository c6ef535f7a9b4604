# Date-time picker reconciliation of SwiftTweaks

A Dafny model of the editor SwiftTweaks shows for a `Tweak<Date>`. `DateTimePickerView` owns one
timestamp, `dateTime`. It shows that timestamp in two pickers: a date picker and a time picker.
Each picker holds a full timestamp, although the user changes only one facet of it.

When a picker changes, the view splices that picker's facet with the other facet of the current value.
If the calendar cannot compose the two, it uses the picker's raw value. The candidate is then clamped
to the tweak's optional minimum and maximum, and the result becomes `dateTime`. Each assignment to
`dateTime` after initialization writes a `.date(value, defaultValue, min, max)` value to the tweak
store. The assignment inside the initializer runs no property observer, so the initializer writes the
store exactly once, through its call to `setDateTime`. Each picker whose
display differs from the new value is then overwritten with it. `DatePickerViewController` hosts the
view. Its confirmed "Reset Tweak" action sends the tweak's default through the same path, and the
view's initializer sends the store's current value through it too.

Modules:

- `Wrappers`: `Option`, with `Or` for Swift's `??`.
- `Calendar`: timestamps as whole seconds. `DayOf(t) = t / 86400` is the year/month/day facet and
  `SecOf(t) = t % 86400` is the hour/minute/second facet. `Combine` composes a day with a time of
  day. `Composer` is the type of a composition that may fail.
- `Clamping`: the optional bounds, the clamp of `setDateTime`, and the clamp's properties.
- `DateTimePickerView`: the view as an immutable record. It holds the value, the two picker displays,
  the log of store writes and the log of programmatic picker writes. It provides `setDateTime`, the
  picker-change handler and the initializer.
- `DatePickerViewController`: the reset action, user events and sessions of events.

The picker-change handler takes the calendar composition as a parameter. `Calendar.Combine` always
succeeds. Any other `Composer` can return `None`, which makes the handler's fallback to the raw picker
value reachable in the model.

The clamp checks the maximum first, and both comparisons are non-strict. When the minimum does not
exceed the maximum, this is the same as the usual clamp and the same as a strict-comparison clamp. The
tie-break is only visible when the minimum exceeds the maximum, which the code does not check. With
such bounds a clamped value can fall outside the bounds, and clamping is not idempotent:
`InvertedBoundsBehaviour` shows a candidate raised to the minimum and then lowered to the maximum.

The code overwrites each picker with the full clamped timestamp, so after `setDateTime` both pickers
hold exactly `dateTime`. This is stronger than "the date picker shows the value's date and the time
picker its time", and the model follows the code.

## Model

| member | source | states |
|---|---|---|
| Clamping.Clamp | SwiftTweaks/DatePickerViewController.swift:88-95 | At or above a present maximum the result is exactly the maximum. Otherwise, at or below a present minimum, it is exactly the minimum. Otherwise the candidate is kept. Under well-formed bounds the result lies on the permitted side of every present bound. |
| Clamping.ClampIdempotent | SwiftTweaks/DatePickerViewController.swift:91-95 | Under well-formed bounds, clamping a clamped value returns it unchanged. |
| Clamping.ClampFixedPoints | SwiftTweaks/DatePickerViewController.swift:91-95 | Under well-formed bounds, clamping leaves a value unchanged if and only if the bounds admit it. |
| Clamping.ClampMonotone | SwiftTweaks/DatePickerViewController.swift:91-95 | Under well-formed bounds, clamping preserves the order of two candidates. |
| Clamping.ClampIsReferenceClamp | SwiftTweaks/DatePickerViewController.swift:91-95 | Under well-formed bounds, the maximum-first clamp equals "raise to the minimum, then lower to the maximum". |
| Clamping.NonStrictTieBreakUnobservable | SwiftTweaks/DatePickerViewController.swift:91-95 | Under well-formed bounds, the non-strict clamp equals the same clamp written with strict comparisons. |
| Clamping.InvertedBoundsBehaviour | SwiftTweaks/DatePickerViewController.swift:91-95 | When the minimum exceeds the maximum, the maximum wins. Here the result can lie below the minimum, it differs from a strict clamp, and clamping twice differs from clamping once. |
| Calendar.SplitCompose | SwiftTweaks/DatePickerViewController.swift:201-212 | Splitting the instant at second `sec` of day `day` gives back `day` and `sec`. |
| Calendar.Combine | SwiftTweaks/DatePickerViewController.swift:198-213 | The composition succeeds. Its result has the year/month/day of the date argument and the hour/minute/second of the time argument. |
| Calendar.FacetsDetermineInstant | SwiftTweaks/DatePickerViewController.swift:201-212 | Two instants with the same day and the same time of day are equal. |
| Calendar.CombineSound | SwiftTweaks/DatePickerViewController.swift:198-213 | Every instant the fixed-split composition returns has its date argument's day and its time argument's time of day. |
| Calendar.CombineUnique | SwiftTweaks/DatePickerViewController.swift:198-213 | Any instant with the date argument's day and the time argument's time of day is the one the composition returns. |
| Calendar.CombineSelf | SwiftTweaks/DatePickerViewController.swift:198-213 | Composing an instant's date with its own time gives back the instant. |
| DateTimePickerView.SetDateTime | SwiftTweaks/DatePickerViewController.swift:75-104 | The value becomes the clamped candidate, and both pickers display it. Exactly one store write is appended, carrying the new value and the tweak's default, minimum and maximum; earlier writes are unchanged. A picker is rewritten if and only if its display differed from the new value. |
| DateTimePickerView.AssignDateTime | SwiftTweaks/DatePickerViewController.swift:75-86 | Assigning the value appends exactly one store write: the new value with the tweak's default, minimum and maximum. Neither picker nor the picker log changes. |
| DateTimePickerView.SyncPicker | SwiftTweaks/DatePickerViewController.swift:99-104 | Afterwards the picker displays the value and the other picker is untouched. The picker log grows by this picker exactly when its display differed. |
| DateTimePickerView.Splice | SwiftTweaks/DatePickerViewController.swift:189-196 | Given a sound composition, a successful splice for a date-picker change has the picker's day and the current value's time of day. For a time-picker change it has the current value's day and the picker's time of day. The date picker passes its value as the date argument, and the time picker passes its value as the time argument. |
| DateTimePickerView.ResettleWritesNoPicker | SwiftTweaks/DatePickerViewController.swift:97-104 | On a settled view, a candidate that clamps to the current value rewrites neither picker. |
| DateTimePickerView.PickerDidChangeValue | SwiftTweaks/DatePickerViewController.swift:189-196 | When the composition succeeds, the value becomes its clamped result. When it fails, the value becomes the clamped raw picker value. Afterwards the view is settled, with one more store write. The picker log only grows. The turned picker is rewritten, once, if and only if the new value differs from what the user turned it to. The other picker is rewritten, once, if and only if its display differed from the new value. Nothing else is written. |
| DateTimePickerView.DateEditSplice | SwiftTweaks/DatePickerViewController.swift:189-213 | After a date-picker change, the value is the clamp of (picker's day, previous value's time of day). If the bounds admit that instant, the value keeps both facets. |
| DateTimePickerView.TimeEditSplice | SwiftTweaks/DatePickerViewController.swift:189-213 | After a time-picker change, the value is the clamp of (previous value's day, picker's time of day). If the bounds admit that instant, the value keeps both facets. |
| DateTimePickerView.EditToCurrentValueIsNoOp | SwiftTweaks/DatePickerViewController.swift:189-213 | Under well-formed bounds, turning a picker of a settled view to the current value changes neither the value nor any picker display. |
| DateTimePickerView.Init | SwiftTweaks/DatePickerViewController.swift:151-166 | The initial value is the clamped current store value. The view is settled, and the store log gets exactly one write. Each picker is written, once, if and only if its creation-time display differs from the value, and no other picker write happens. |
| DatePickerViewController.RestoreDefaultValue | SwiftTweaks/DatePickerViewController.swift:55-62 | Cancel leaves the view unchanged. Reset Tweak sets the value to the clamped default, settles the view and appends one store write. It rewrites each picker, once, if and only if its display differed, and nothing else. The value is exactly the default when the bounds admit it. |
| DatePickerViewController.ResetTwiceRewritesNoPicker | SwiftTweaks/DatePickerViewController.swift:58-59 | For any bounds, confirming a second reset keeps the value and rewrites neither picker. |
| DatePickerViewController.Run | SwiftTweaks/DatePickerViewController.swift:189-196 | Across any sequence of picker changes and reset answers, each picker change and confirmed reset adds exactly one store write. Earlier store writes and picker writes are kept. Every new store write carries the tweak's metadata and, under well-formed bounds, an admitted value. A settled view stays settled. |
| DatePickerViewController.SessionStaysSettled | SwiftTweaks/DatePickerViewController.swift:151-166 | From construction through any sequence of events, both pickers display the value. Every store write since construction carries the tweak's default and bounds and, under well-formed bounds, an admitted value. |
| DatePickerViewController.ExampleDateEditClampedToMax | SwiftTweaks/DatePickerViewController.swift:189-213 | Example: within 2020 bounds, editing the date of 2020-06-15T10:30 to 2021-03-01 yields the maximum 2020-12-31T23:59 in the value and in both pickers. |
| DatePickerViewController.ExampleTimeEditAccepted | SwiftTweaks/DatePickerViewController.swift:189-213 | Example: editing the time of 2020-06-15T10:30 to 08:00 yields 2020-06-15T08:00. |

## Left out

- Layout, labels, colours and frames (`layoutSubviews`, the label and picker set-up): rendering only.
- The confirmation alert, navigation and toolbar items, and the dismiss button's call to the delegate. Only the two outcomes of the reset alert are modelled, as state transitions.
- `DateFormatter` / `TweakDateFormatter`: display formatting in code that is not part of this model.
- Timestamps are whole seconds. Swift's `Date` also carries a sub-second part. `combine` asks only for year through second, so in the code every successful splice drops that part and `combine(t, t)` differs from `t` when `t` has one.
- Calendar.CombineSelf: holds for whole-second instants only, because the sub-second part that `combine` discards is not modelled.
- DateTimePickerView.EditToCurrentValueIsNoOp: holds for whole-second values only. In the code, an edit to a value with a sub-second part truncates it.
- Real `NSCalendar` behaviour (time zones, daylight-saving gaps, locale calendars). It is replaced by a fixed 86400-second day in UTC. A failing composition is modelled as any `Composer` that returns `None`, not as a reproduction of Foundation's rules.
- `TweakStore` internals and persistence. The store is an append-only log of writes. Its current value for the tweak and the "now" that each new picker displays are parameters of `Init`.
- The `forTweak:` key of the store write is not recorded: the log holds this tweak's writes only.
- The `assert` and `as!` type checks at construction: the model is typed over timestamps only.
- Target-action re-entrancy of `UIDatePicker`: picker displays are plain values written only when different. The `pickerWrites` log records those writes.
