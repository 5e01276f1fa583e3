// The attendance dashboard's rule engine: a flag store and a list of status
// records, changed by a manual submission and by the auto-absent backstop.
// The remote POST is reduced to its outcome `postOk`; the clock to a reading.

module Attendance {
  import opened Optional
  import opened Slots
  import opened Identity
  import opened FlagKeys

  /** One displayed status entry. */
  datatype Record = Record(status: Status, time: string, date: string, day: string)

  /** One reading of the wall clock: hour and minute as numbers, and the
      locale-formatted date, time and weekday as opaque strings. */
  datatype Reading = Reading(hour: int, minute: int, date: string, time: string, day: string)

  datatype Page = AuthPage | AttendancePage

  /** The logged-in employee as the dashboard holds it; no one logged in is
      the empty identifier and name. */
  datatype Session = Session(empId: string, name: string, page: Page)

  /** The flag store (string keys, a flag is set when its key maps to true)
      and the displayed records, in order. */
  datatype State = State(flags: map<string, bool>, records: seq<Record>)

  predicate IsSet(flags: map<string, bool>, key: string) {
    key in flags && flags[key]
  }

  datatype ManualOutcome =
    | OutsideWindow
    | AlreadySubmitted(slot: Slot)
    | Recorded(slot: Slot, status: Status)
    | PostFailed(slot: Slot, status: Status)

  datatype AutoOutcome =
    | Idle
    | MarkedAbsent(slot: Slot)
    | MarkFailed(slot: Slot)

  /** Whether the submit control (and the identifier input) is enabled for
      this reading: inside a window, and that slot not yet submitted. */
  predicate SubmitEnabled(flags: map<string, bool>, empId: string, now: Reading) {
    match Classify(now.hour, now.minute)
    case None => false
    case Some(slot) => !IsSet(flags, FlagKey(Submitted, empId, now.date, slot))
  }

  /** A manual submission, as one atomic step: outside a window nothing
      happens; a slot already submitted is refused; otherwise the status is
      decided and, only if the POST succeeds, the record is appended and the
      slot's `submitted` flag set. */
  function ManualStep(st: State, now: Reading, empId: string, input: string, postOk: bool): (State, ManualOutcome) {
    match Classify(now.hour, now.minute)
    case None => (st, OutsideWindow)
    case Some(slot) =>
      var key := FlagKey(Submitted, empId, now.date, slot);
      if IsSet(st.flags, key) then (st, AlreadySubmitted(slot))
      else
        var status := Resolve(input, empId);
        if postOk then
          (State(st.flags[key := true], st.records + [Record(status, now.time, now.date, now.day)]), Recorded(slot, status))
        else
          (st, PostFailed(slot, status))
  }

  /** The slot the backstop marks at this reading, if any: the morning at
      21:55 and the evening at 17:46, each only while its `absent` flag is
      unset. */
  function DueAbsence(flags: map<string, bool>, empId: string, now: Reading): Option<Slot> {
    if now.hour == 21 && now.minute == 55 && !IsSet(flags, FlagKey(AbsentMark, empId, now.date, Morning)) then Some(Morning)
    else if now.hour == 17 && now.minute == 46 && !IsSet(flags, FlagKey(AbsentMark, empId, now.date, Evening)) then Some(Evening)
    else None
  }

  /** One evaluation of the auto-absent backstop: with someone logged in on
      the dashboard and an absence due, the slot's `absent` flag is set before
      the POST, and an `absent` record is appended only if the POST succeeds. */
  function AutoAbsentStep(st: State, now: Reading, session: Session, postOk: bool): (State, AutoOutcome) {
    if session.empId == "" || session.name == "" || session.page != AttendancePage then (st, Idle)
    else
      match DueAbsence(st.flags, session.empId, now)
      case None => (st, Idle)
      case Some(slot) =>
        var flags := st.flags[FlagKey(AbsentMark, session.empId, now.date, slot) := true];
        if postOk then
          (State(flags, st.records + [Record(Absent, now.time, now.date, now.day)]), MarkedAbsent(slot))
        else
          (State(flags, st.records), MarkFailed(slot))
  }

  /** Outside both windows a manual submission changes nothing. */
  lemma ManualOutsideWindowIsInert(st: State, now: Reading, empId: string, input: string, postOk: bool)
    requires Classify(now.hour, now.minute) == None
    ensures ManualStep(st, now, empId, input, postOk) == (st, OutsideWindow)
  {
  }

  /** A slot already submitted refuses the submission and changes nothing. */
  lemma ManualAlreadySubmittedIsInert(st: State, now: Reading, empId: string, input: string, postOk: bool, slot: Slot)
    requires Classify(now.hour, now.minute) == Some(slot)
    requires IsSet(st.flags, FlagKey(Submitted, empId, now.date, slot))
    ensures ManualStep(st, now, empId, input, postOk) == (st, AlreadySubmitted(slot))
  {
  }

  /** An accepted submission appends exactly one record, at the end, with the
      decided status and the reading's date, time and day, keeps every earlier
      record, sets the slot's `submitted` flag and leaves every other flag as
      it was; when the POST fails nothing changes. */
  lemma ManualAcceptedAppendsOne(st: State, now: Reading, empId: string, input: string, postOk: bool, slot: Slot)
    requires Classify(now.hour, now.minute) == Some(slot)
    requires !IsSet(st.flags, FlagKey(Submitted, empId, now.date, slot))
    ensures var (st', out) := ManualStep(st, now, empId, input, postOk);
            if postOk then
              && out == Recorded(slot, Resolve(input, empId))
              && |st'.records| == |st.records| + 1
              && st'.records[..|st.records|] == st.records
              && st'.records[|st.records|] == Record(Resolve(input, empId), now.time, now.date, now.day)
              && IsSet(st'.flags, FlagKey(Submitted, empId, now.date, slot))
              && (forall k :: k != FlagKey(Submitted, empId, now.date, slot) ==> IsSet(st'.flags, k) == IsSet(st.flags, k))
            else
              st' == st && out == PostFailed(slot, Resolve(input, empId))
  {
  }

  /** The submit control is enabled exactly when a submission whose POST
      succeeds would be recorded. */
  lemma SubmitEnabledIffAccepted(st: State, now: Reading, empId: string, input: string)
    ensures SubmitEnabled(st.flags, empId, now) <==> ManualStep(st, now, empId, input, true).1.Recorded?
  {
  }

  /** After a recorded submission the control is disabled for the same slot;
      after a failed POST it stays enabled, so the employee can retry. */
  lemma SubmitDisabledAfterSuccess(st: State, now: Reading, empId: string, input: string, postOk: bool)
    requires SubmitEnabled(st.flags, empId, now)
    ensures SubmitEnabled(ManualStep(st, now, empId, input, postOk).0.flags, empId, now) == !postOk
  {
  }

  /** The backstop acts only for a logged-in employee on the dashboard, at
      21:55 for the morning or 17:46 for the evening, with that slot's
      `absent` flag unset; it then sets that flag whatever the POST outcome,
      changes no other flag, and appends one `absent` record exactly when the
      POST succeeds. */
  lemma AutoAbsentActsOnlyWhenDue(st: State, now: Reading, session: Session, postOk: bool)
    ensures var (st', out) := AutoAbsentStep(st, now, session, postOk);
            match out
            case Idle => st' == st
            case MarkedAbsent(slot) =>
              && postOk
              && session.empId != "" && session.name != "" && session.page == AttendancePage
              && now.hour == AutoAbsentHour(slot) && now.minute == AutoAbsentMinute(slot)
              && !IsSet(st.flags, FlagKey(AbsentMark, session.empId, now.date, slot))
              && IsSet(st'.flags, FlagKey(AbsentMark, session.empId, now.date, slot))
              && (forall k :: k != FlagKey(AbsentMark, session.empId, now.date, slot) ==> IsSet(st'.flags, k) == IsSet(st.flags, k))
              && st'.records == st.records + [Record(Absent, now.time, now.date, now.day)]
            case MarkFailed(slot) =>
              && !postOk
              && session.empId != "" && session.name != "" && session.page == AttendancePage
              && now.hour == AutoAbsentHour(slot) && now.minute == AutoAbsentMinute(slot)
              && !IsSet(st.flags, FlagKey(AbsentMark, session.empId, now.date, slot))
              && IsSet(st'.flags, FlagKey(AbsentMark, session.empId, now.date, slot))
              && (forall k :: k != FlagKey(AbsentMark, session.empId, now.date, slot) ==> IsSet(st'.flags, k) == IsSet(st.flags, k))
              && st'.records == st.records
  {
  }

  /** The backstop does fire when due: for a logged-in employee on the
      dashboard, at the slot's trigger minute, with that slot's `absent` flag
      unset, it sets the flag and reports the POST outcome, appending the
      `absent` record exactly when the POST succeeds. */
  lemma AutoAbsentFiresWhenDue(st: State, now: Reading, session: Session, postOk: bool, slot: Slot)
    requires session.empId != "" && session.name != "" && session.page == AttendancePage
    requires now.hour == AutoAbsentHour(slot) && now.minute == AutoAbsentMinute(slot)
    requires !IsSet(st.flags, FlagKey(AbsentMark, session.empId, now.date, slot))
    ensures AutoAbsentStep(st, now, session, postOk).1 == if postOk then MarkedAbsent(slot) else MarkFailed(slot)
    ensures IsSet(AutoAbsentStep(st, now, session, postOk).0.flags, FlagKey(AbsentMark, session.empId, now.date, slot))
    ensures AutoAbsentStep(st, now, session, postOk).0.records ==
              if postOk then st.records + [Record(Absent, now.time, now.date, now.day)] else st.records
  {
  }

  /** The backstop never reads a `submitted` flag: setting one, for any
      employee, date and slot, leaves the backstop's outcome and its records
      unchanged. */
  lemma AutoAbsentIgnoresSubmitted(st: State, now: Reading, session: Session, postOk: bool, e: string, d: string, s: Slot, v: bool)
    ensures var st2 := State(st.flags[FlagKey(Submitted, e, d, s) := v], st.records);
            && AutoAbsentStep(st2, now, session, postOk).1 == AutoAbsentStep(st, now, session, postOk).1
            && AutoAbsentStep(st2, now, session, postOk).0.records == AutoAbsentStep(st, now, session, postOk).0.records
  {
    var sk := FlagKey(Submitted, e, d, s);
    KindsNeverCollide(e, d, s, session.empId, now.date, Morning);
    KindsNeverCollide(e, d, s, session.empId, now.date, Evening);
    assert DueAbsence(st.flags[sk := v], session.empId, now) == DueAbsence(st.flags, session.empId, now);
  }

  /** The dashboard's mutable state: the browser's flag store and the list of
      records shown on the page. */
  class Tracker {
    var flags: map<string, bool>
    var records: seq<Record>

    /** A fresh dashboard over a flag store that survives from earlier
        sessions, showing no records yet. */
    constructor (stored: map<string, bool>)
      ensures flags == stored && records == []
    {
      flags := stored;
      records := [];
    }

    function Snapshot(): State
      reads this
    {
      State(flags, records)
    }

    /** The submit handler: check the window, check-then-set the
        `submitted` flag around the POST, append on success. */
    method ManualSubmit(now: Reading, empId: string, input: string, postOk: bool) returns (outcome: ManualOutcome)
      modifies this
      ensures (Snapshot(), outcome) == ManualStep(old(Snapshot()), now, empId, input, postOk)
    {
      var slot := Classify(now.hour, now.minute);
      if slot.None? {
        return OutsideWindow;
      }
      var key := FlagKey(Submitted, empId, now.date, slot.value);
      if key in flags && flags[key] {
        return AlreadySubmitted(slot.value);
      }
      var status := Resolve(input, empId);
      var rec := Record(status, now.time, now.date, now.day);
      if !postOk {
        return PostFailed(slot.value, status);
      }
      records := records + [rec];
      flags := flags[key := true];
      outcome := Recorded(slot.value, status);
    }

    /** One run of the auto-absent effect, which re-runs on every clock tick. */
    method AutoAbsentTick(now: Reading, session: Session, postOk: bool) returns (outcome: AutoOutcome)
      modifies this
      ensures (Snapshot(), outcome) == AutoAbsentStep(old(Snapshot()), now, session, postOk)
    {
      if session.empId == "" || session.name == "" || session.page != AttendancePage {
        return Idle;
      }
      var morningKey := FlagKey(AbsentMark, session.empId, now.date, Morning);
      var eveningKey := FlagKey(AbsentMark, session.empId, now.date, Evening);
      var markMorning := now.hour == 21 && now.minute == 55 && !(morningKey in flags && flags[morningKey]);
      var markEvening := now.hour == 17 && now.minute == 46 && !(eveningKey in flags && flags[eveningKey]);
      if !(markMorning || markEvening) {
        return Idle;
      }
      var slot := if markMorning then Morning else Evening;
      var key := if markMorning then morningKey else eveningKey;
      flags := flags[key := true];
      var rec := Record(Absent, now.time, now.date, now.day);
      if postOk {
        records := records + [rec];
        outcome := MarkedAbsent(slot);
      } else {
        outcome := MarkFailed(slot);
      }
    }
  }
}
