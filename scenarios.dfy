// Concrete runs of the rule engine for employee "E1" on one day.

module Scenarios {
  import opened AsciiText
  import opened Optional
  import opened Slots
  import opened Identity
  import opened FlagKeys
  import opened Attendance
  import opened Sessions

  const Today := "17/10/2026"
  const E1 := Session("E1", "Asha", AttendancePage)
  const Empty := State(map[], [])

  function At(hour: int, minute: int, time: string): Reading {
    Reading(hour, minute, Today, time, "Saturday")
  }

  lemma {:induction false} ShortIdsDecide()
    ensures Resolve("e1", "E1") == Present
    ensures Resolve("E2", "E1") == Absent
  {
    assert !IsSpace('E') && !IsSpace('e') && !IsSpace('1') && !IsSpace('2');
    assert TrimStart("E1") == "E1" && TrimEnd("E1") == "E1";
    assert TrimStart("e1") == "e1" && TrimEnd("e1") == "e1";
    assert TrimStart("E2") == "E2" && TrimEnd("E2") == "E2";
    assert Lower("E1") == "e1";
    assert Lower("e1") == "e1";
    assert Lower("E2")[1] == '2';
  }

  /** At 09:10 the typed identifier "e1" matches "E1": a present record is
      appended and the morning is marked submitted. */
  lemma MorningPresent()
    ensures ManualStep(Empty, At(9, 10, "9:10:00"), "E1", "e1", true).1 == Recorded(Morning, Present)
    ensures ManualStep(Empty, At(9, 10, "9:10:00"), "E1", "e1", true).0.records == [Record(Present, "9:10:00", Today, "Saturday")]
    ensures ManualStep(Empty, At(9, 10, "9:10:00"), "E1", "e1", true).0.flags == map[FlagKey(Submitted, "E1", Today, Morning) := true]
  {
    ShortIdsDecide();
  }

  /** At 09:10 the typed identifier "E2" does not match: the slot is still
      resolved, with an absent record. */
  lemma MorningMismatchIsAbsent()
    ensures ManualStep(Empty, At(9, 10, "9:10:00"), "E1", "E2", true).1 == Recorded(Morning, Absent)
    ensures ManualStep(Empty, At(9, 10, "9:10:00"), "E1", "E2", true).0.records == [Record(Absent, "9:10:00", Today, "Saturday")]
    ensures ManualStep(Empty, At(9, 10, "9:10:00"), "E1", "E2", true).0.flags == map[FlagKey(Submitted, "E1", Today, Morning) := true]
  {
    ShortIdsDecide();
  }

  /** At 10:00 the control is disabled and a submission produces nothing. */
  lemma TenOClockIsClosed(st: State, input: string, postOk: bool)
    ensures !SubmitEnabled(st.flags, "E1", At(10, 0, "10:00:00"))
    ensures ManualStep(st, At(10, 0, "10:00:00"), "E1", input, postOk) == (st, OutsideWindow)
  {
  }

  /** Three ticks within 17:46 with no evening submission: exactly one absent
      record. */
  lemma EveningBackstopOnce()
    ensures Run(Empty, E1, [Tick(At(17, 46, "5:46:00 PM"), true), Tick(At(17, 46, "5:46:01 PM"), true), Tick(At(17, 46, "5:46:02 PM"), true)]).records
            == [Record(Absent, "5:46:00 PM", Today, "Saturday")]
  {
    var evs := [Tick(At(17, 46, "5:46:00 PM"), true), Tick(At(17, 46, "5:46:01 PM"), true), Tick(At(17, 46, "5:46:02 PM"), true)];
    var st1 := Apply(Empty, E1, evs[0]);
    assert st1 == State(map[FlagKey(AbsentMark, "E1", Today, Evening) := true], [Record(Absent, "5:46:00 PM", Today, "Saturday")]);
    assert Apply(st1, E1, evs[1]) == st1;
    assert Apply(st1, E1, evs[2]) == st1;
    assert evs[1..][1..] == [evs[2]];
  }

  /** At 21:55 with nothing recorded the backstop marks the morning absent. */
  lemma MorningBackstopAt2155()
    ensures AutoAbsentStep(Empty, At(21, 55, "9:55:00 PM"), E1, true).1 == MarkedAbsent(Morning)
    ensures AutoAbsentStep(Empty, At(21, 55, "9:55:00 PM"), E1, true).0.records == [Record(Absent, "9:55:00 PM", Today, "Saturday")]
  {
  }

  /** The backstop does not consult the `submitted` flag: an evening already
      recorded present at 17:10 still gets an absent record at 17:46. */
  lemma EveningSubmittedThenBackstop()
    ensures Run(Empty, E1, [Submit(At(17, 10, "5:10:00 PM"), "E1", true), Tick(At(17, 46, "5:46:00 PM"), true)]).records
            == [Record(Present, "5:10:00 PM", Today, "Saturday"), Record(Absent, "5:46:00 PM", Today, "Saturday")]
  {
    var evs := [Submit(At(17, 10, "5:10:00 PM"), "E1", true), Tick(At(17, 46, "5:46:00 PM"), true)];
    var submitted := FlagKey(Submitted, "E1", Today, Evening);
    var absent := FlagKey(AbsentMark, "E1", Today, Evening);
    assert Resolve("E1", "E1") == Present;
    ManualAcceptedAppendsOne(Empty, evs[0].now, "E1", "E1", true, Evening);
    var st1 := Apply(Empty, E1, evs[0]);
    assert st1.records == [Record(Present, "5:10:00 PM", Today, "Saturday")];
    KindsNeverCollide("E1", Today, Evening, "E1", Today, Evening);
    assert !IsSet(st1.flags, absent);
    assert DueAbsence(st1.flags, "E1", evs[1].now) == Some(Evening);
    var st2 := Apply(st1, E1, evs[1]);
    assert st2.records == st1.records + [Record(Absent, "5:46:00 PM", Today, "Saturday")];
    assert Run(st1, E1, evs[1..]) == Run(st2, E1, evs[1..][1..]);
    assert evs[1..][1..] == [];
  }
}
