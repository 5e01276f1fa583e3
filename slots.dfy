// The two daily attendance slots and the classification of a clock reading
// into one of them.

module Optional {
  datatype Option<+T> = None | Some(value: T)
}

module Slots {
  import opened Optional

  datatype Slot = Morning | Evening

  /** The slot's name as it appears in flag-store keys. */
  function SlotName(s: Slot): string {
    match s
    case Morning => "morning"
    case Evening => "evening"
  }

  /** An hour and minute as a JavaScript Date reports them. */
  predicate ValidClock(hour: int, minute: int) {
    0 <= hour < 24 && 0 <= minute < 60
  }

  /** The slot whose manual-submission window contains the reading, if any:
      the hour must match exactly and the minute lie below a cut-off. */
  function Classify(hour: int, minute: int): Option<Slot> {
    if hour == 9 && minute < 51 then Some(Morning)
    else if hour == 17 && minute < 46 then Some(Evening)
    else None
  }

  /** A half-open interval [start, end) of minutes since midnight. */
  datatype Window = Window(start: int, end: int) {
    predicate Contains(t: int) { start <= t < end }
  }

  function MinuteOfDay(hour: int, minute: int): int {
    hour * 60 + minute
  }

  /** The advertised windows: 09:00 up to 09:51 and 17:00 up to 17:46. */
  function WindowOf(s: Slot): Window {
    match s
    case Morning => Window(9 * 60, 9 * 60 + 51)
    case Evening => Window(17 * 60, 17 * 60 + 46)
  }

  /** The instants at which the auto-absent backstop fires for each slot. */
  function AutoAbsentHour(s: Slot): int {
    match s
    case Morning => 21
    case Evening => 17
  }

  function AutoAbsentMinute(s: Slot): int {
    match s
    case Morning => 55
    case Evening => 46
  }

  /** Classification agrees with the minute-of-day windows on every valid
      reading: a slot is returned exactly when its window holds the reading,
      and none exactly when neither window does. */
  lemma ClassifyMatchesWindows(hour: int, minute: int)
    requires ValidClock(hour, minute)
    ensures forall s :: Classify(hour, minute) == Some(s) <==> WindowOf(s).Contains(MinuteOfDay(hour, minute))
    ensures Classify(hour, minute) == None <==>
              !WindowOf(Morning).Contains(MinuteOfDay(hour, minute)) &&
              !WindowOf(Evening).Contains(MinuteOfDay(hour, minute))
  {
  }

  /** The two windows never overlap. */
  lemma WindowsDisjoint(t: int)
    ensures !(WindowOf(Morning).Contains(t) && WindowOf(Evening).Contains(t))
  {
  }

  /** Neither auto-absent instant lies in a manual-submission window. */
  lemma AutoAbsentInstantsOutsideWindows(s: Slot)
    ensures Classify(AutoAbsentHour(s), AutoAbsentMinute(s)) == None
    ensures forall w :: !WindowOf(w).Contains(MinuteOfDay(AutoAbsentHour(s), AutoAbsentMinute(s)))
  {
  }
}
