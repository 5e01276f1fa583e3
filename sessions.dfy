// Runs of the rule engine: any interleaving of manual submissions and clock
// ticks for one logged-in employee, and what holds across such a run.

module Sessions {
  import opened Optional
  import opened Slots
  import opened FlagKeys
  import opened Attendance

  /** A click on the submit control, or one re-run of the auto-absent effect;
      each carries its clock reading and the outcome of its POST. */
  datatype Event =
    | Submit(now: Reading, input: string, postOk: bool)
    | Tick(now: Reading, postOk: bool)

  function Apply(st: State, session: Session, ev: Event): State {
    match ev
    case Submit(now, input, postOk) => ManualStep(st, now, session.empId, input, postOk).0
    case Tick(now, postOk) => AutoAbsentStep(st, now, session, postOk).0
  }

  /** The flag the event claims: the key it sets, which was unset before. A
      recorded submission claims its `submitted` key, a backstop that fires
      (whatever its POST outcome) claims its `absent` key. */
  function Claimed(st: State, session: Session, ev: Event): Option<string> {
    match ev
    case Submit(now, input, postOk) =>
      (match ManualStep(st, now, session.empId, input, postOk).1
       case Recorded(slot, _) => Some(FlagKey(Submitted, session.empId, now.date, slot))
       case _ => None)
    case Tick(now, postOk) =>
      (match AutoAbsentStep(st, now, session, postOk).1
       case MarkedAbsent(slot) => Some(FlagKey(AbsentMark, session.empId, now.date, slot))
       case MarkFailed(slot) => Some(FlagKey(AbsentMark, session.empId, now.date, slot))
       case Idle => None)
  }

  /** Whether the event appended a record. */
  predicate Appended(st: State, session: Session, ev: Event) {
    match ev
    case Submit(now, input, postOk) => ManualStep(st, now, session.empId, input, postOk).1.Recorded?
    case Tick(now, postOk) => AutoAbsentStep(st, now, session, postOk).1.MarkedAbsent?
  }

  function Run(st: State, session: Session, evs: seq<Event>): State
    decreases |evs|
  {
    if evs == [] then st else Run(Apply(st, session, evs[0]), session, evs[1..])
  }

  /** How many events of the run claim the flag `key`. */
  function Claims(st: State, session: Session, evs: seq<Event>, key: string): nat
    decreases |evs|
  {
    if evs == [] then 0
    else (if Claimed(st, session, evs[0]) == Some(key) then 1 else 0)
         + Claims(Apply(st, session, evs[0]), session, evs[1..], key)
  }

  /** How many records the run appends under the guard of the flag `key`. */
  function RecordsUnder(st: State, session: Session, evs: seq<Event>, key: string): nat
    decreases |evs|
  {
    if evs == [] then 0
    else (if Appended(st, session, evs[0]) && Claimed(st, session, evs[0]) == Some(key) then 1 else 0)
         + RecordsUnder(Apply(st, session, evs[0]), session, evs[1..], key)
  }

  /** How many records the run appends in all. */
  function AppendCount(st: State, session: Session, evs: seq<Event>): nat
    decreases |evs|
  {
    if evs == [] then 0
    else (if Appended(st, session, evs[0]) then 1 else 0) + AppendCount(Apply(st, session, evs[0]), session, evs[1..])
  }

  /** One event never clears a flag, sets at most the flag it claims, claims
      only an unset flag, appends a record only when it claims a flag, and
      otherwise leaves the records as they were. */
  lemma StepFacts(st: State, session: Session, ev: Event)
    ensures forall k :: IsSet(st.flags, k) ==> IsSet(Apply(st, session, ev).flags, k)
    ensures forall k :: !IsSet(st.flags, k) && IsSet(Apply(st, session, ev).flags, k) ==> Claimed(st, session, ev) == Some(k)
    ensures Claimed(st, session, ev).Some? ==>
              !IsSet(st.flags, Claimed(st, session, ev).value) && IsSet(Apply(st, session, ev).flags, Claimed(st, session, ev).value)
    ensures Appended(st, session, ev) ==> Claimed(st, session, ev).Some?
    ensures Apply(st, session, ev).records ==
              if Appended(st, session, ev) then st.records + [Apply(st, session, ev).records[|st.records|]] else st.records
  {
  }

  /** Every flag, whether set by a submission or by the backstop, is claimed
      at most once in any run, and never when it was already set. */
  lemma {:induction false} AtMostOneClaimPerKey(st: State, session: Session, evs: seq<Event>, key: string)
    ensures Claims(st, session, evs, key) <= if IsSet(st.flags, key) then 0 else 1
    decreases |evs|
  {
    if evs != [] {
      var st' := Apply(st, session, evs[0]);
      StepFacts(st, session, evs[0]);
      AtMostOneClaimPerKey(st', session, evs[1..], key);
    }
  }

  /** At most one record is appended per flag key in any run: per employee,
      date and slot, at most one from submissions and at most one from the
      backstop; none when the flag was already set. */
  lemma {:induction false} AtMostOneRecordPerKey(st: State, session: Session, evs: seq<Event>, key: string)
    ensures RecordsUnder(st, session, evs, key) <= Claims(st, session, evs, key)
    ensures RecordsUnder(st, session, evs, key) <= if IsSet(st.flags, key) then 0 else 1
    decreases |evs|
  {
    if evs != [] {
      AtMostOneRecordPerKey(Apply(st, session, evs[0]), session, evs[1..], key);
    }
    AtMostOneClaimPerKey(st, session, evs, key);
  }

  /** A run only appends: the earlier records stay in place, one record is
      added per appending event, and no flag is ever cleared. */
  lemma {:induction false} RunOnlyAppends(st: State, session: Session, evs: seq<Event>)
    ensures |Run(st, session, evs).records| == |st.records| + AppendCount(st, session, evs)
    ensures Run(st, session, evs).records[..|st.records|] == st.records
    ensures forall k :: IsSet(st.flags, k) ==> IsSet(Run(st, session, evs).flags, k)
    decreases |evs|
  {
    if evs != [] {
      var st' := Apply(st, session, evs[0]);
      StepFacts(st, session, evs[0]);
      RunOnlyAppends(st', session, evs[1..]);
      var fin := Run(st', session, evs[1..]);
      assert fin.records[..|st.records|] == fin.records[..|st'.records|][..|st.records|];
      assert st'.records[..|st.records|] == st.records;
    }
  }

  /** A run of backstop ticks alone appends at most one `absent` record per
      slot, whatever the POST outcome of each tick: repeated ticks within the
      trigger minute are harmless, and a tick after a failed POST does not
      retry. */
  lemma {:induction false} TicksMarkAbsentAtMostOnce(st: State, session: Session, ticks: seq<(Reading, bool)>, slot: Slot, date: string)
    ensures var evs := seq(|ticks|, i requires 0 <= i < |ticks| => Tick(ticks[i].0, ticks[i].1));
            RecordsUnder(st, session, evs, FlagKey(AbsentMark, session.empId, date, slot)) <= 1
  {
    var evs := seq(|ticks|, i requires 0 <= i < |ticks| => Tick(ticks[i].0, ticks[i].1));
    AtMostOneRecordPerKey(st, session, evs, FlagKey(AbsentMark, session.empId, date, slot));
  }
}
