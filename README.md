# Attendance rule engine

A Dafny model of the rule engine inside the attendance dashboard of the
`fronten` React client (`fronten/src/App.js`). An employee logs in and can
mark attendance twice a day. The morning window runs from 09:00 to 09:50 and
the evening window from 17:00 to 17:45. The employee types their employee ID
again: a match (after trimming and lower-casing) records `present`, and a
mismatch records `absent`. A flag in the browser's key/value store
(`localStorage`) blocks a second submission for the same employee, date and
slot. An auto-absent backstop re-runs on every clock tick. At 21:55 (morning)
and 17:46 (evening) it marks the employee absent once, guarded by flags of its
own.

The state is the flag store plus the ordered list of displayed records. The
inputs are a clock reading and the outcome of the remote POST.

| file | module | what it models |
|---|---|---|
| `text.dfy` | `AsciiText` | `trim` and `toLowerCase` on ASCII identifiers |
| `slots.dfy` | `Optional`, `Slots` | the two slots, classification of hour/minute, the windows as minute-of-day intervals, the backstop instants |
| `identity.dfy` | `Identity` | the present/absent decision |
| `flag_keys.dfy` | `FlagKeys` | the store keys `submitted-<emp>-<date>-<slot>` and `absent-<emp>-<date>-<slot>` |
| `attendance.dfy` | `Attendance` | one manual submission (`ManualStep`) and one backstop evaluation (`AutoAbsentStep`) as functions of the state; the enabled state of the submit control; the `Tracker` class whose methods update the store and the records in place |
| `sessions.dfy` | `Sessions` | any interleaving of submissions and ticks for one logged-in employee, and what holds across it |
| `scenarios.dfy` | `Scenarios` | concrete runs for employee `E1` |

Each handler is one atomic step. `Tracker.ManualSubmit` and
`Tracker.AutoAbsentTick` are imperative: they check flags, set them and append
records in place. Each one is proved equal to its step function, and the
lemmas state their properties on those step functions.

A reader might expect three behaviours that `App.js` does not have. The model
follows the code:

- One might expect the backstop to skip a slot the employee has already
  submitted. It does not, because lines 30-34 read only the backstop's own
  `absent-` keys. So an evening already recorded present still gets an absent
  record at 17:46 (`AutoAbsentIgnoresSubmitted`,
  `Scenarios.EveningSubmittedThenBackstop`).
- One might expect a flag to be set only once its POST has gone through.
  Manual submission does this (line 132), but the backstop sets its flag at
  line 39, before its POST. So a failed backstop POST loses that slot's absent
  record for good (`AutoAbsentFiresWhenDue` with a failed POST,
  `TicksMarkAbsentAtMostOnce`).
- One might expect a slot the backstop has resolved to be closed to manual
  submission. The submit control (lines 149-151) reads only `submitted-` keys,
  so a backstop flag does not disable it (`SubmitEnabledIffAccepted`).

The store keys are plain concatenations. The kind and slot names contain no
dash. When the date contains no dash either, a key determines its kind,
employee, date and slot, even for employee IDs with dashes such as `EMP-001`
(`FlagKeyInjective`). A collision needs a dash inside a date, for example
employee `E-1` on `17/10/2026` and employee `E` on `1-17/10/2026`
(`FlagKeyCollision`).

## Model

| member | source | states |
|---|---|---|
| AsciiText.TrimStartDropsLeadingSpace | fronten/src/App.js:116 | trimming the start keeps a suffix of the input and drops only white space |
| AsciiText.TrimEndDropsTrailingSpace | fronten/src/App.js:116 | trimming the end keeps a prefix of the input and drops only white space |
| AsciiText.TrimSplits | fronten/src/App.js:116 | `trim` splits every input into leading white space, the result and trailing white space |
| AsciiText.TrimHasNoSpaceAtEnds | fronten/src/App.js:116 | the result of `trim` neither starts nor ends with white space |
| AsciiText.TrimIgnoresPadding | fronten/src/App.js:116 | white space added on either side of an identifier does not change its trimmed form |
| AsciiText.TrimLowerCommute | fronten/src/App.js:116 | trimming then lower-casing equals lower-casing then trimming |
| Slots.ClassifyMatchesWindows | fronten/src/App.js:98-106 | on every valid hour/minute, a slot is returned exactly when its minute-of-day window [09:00, 09:51) or [17:00, 17:46) contains the reading, and none exactly when neither does |
| Slots.WindowsDisjoint | fronten/src/App.js:101-102 | no instant lies in both windows |
| Slots.AutoAbsentInstantsOutsideWindows | fronten/src/App.js:33-34 | both backstop instants, 21:55 and 17:46, classify to no slot and lie in neither window |
| Identity.ResolvePresentIff | fronten/src/App.js:115-121 | the status is present exactly when the lower-cased, trimmed identifiers are equal, and absent exactly when they differ |
| Identity.ResolveIffCaseInsensitiveMatch | fronten/src/App.js:115-121 | on every pair of identifiers, the status is present exactly when the trimmed identifiers agree up to ASCII case, and absent otherwise |
| Identity.ResolveIgnoresCaseAndPadding | fronten/src/App.js:116 | identifiers equal up to ASCII case, each padded with any white space, resolve to present |
| FlagKeys.FlagKeyInjective | fronten/src/App.js:108 | for dash-free dates, with any employee IDs, equal keys have equal kind, employee, date and slot |
| FlagKeys.KindsNeverCollide | fronten/src/App.js:30-31 | a `submitted-` key never equals an `absent-` key |
| FlagKeys.FlagKeyCollision | fronten/src/App.js:108 | employee `E-1` on date `17/10/2026` and employee `E` on date `1-17/10/2026` get the same key |
| Attendance.ManualOutsideWindowIsInert | fronten/src/App.js:98-106 | outside both windows a submission leaves the store and the records unchanged and reports the window error |
| Attendance.ManualAlreadySubmittedIsInert | fronten/src/App.js:108-113 | with the slot's `submitted-` flag set, a submission leaves the store and the records unchanged |
| Attendance.ManualAcceptedAppendsOne | fronten/src/App.js:115-135 | an accepted submission whose POST succeeds appends exactly one record at the end, with the decided status and the reading's time, date and day, keeps earlier records, sets that slot's flag and no other; on POST failure store and records are unchanged |
| Attendance.SubmitEnabledIffAccepted | fronten/src/App.js:145-151 | the submit control is enabled exactly when a submission with a successful POST would be recorded |
| Attendance.SubmitDisabledAfterSuccess | fronten/src/App.js:123-135 | from an enabled control, a successful submission disables it for the same reading and a failed one leaves it enabled, so a retry is allowed |
| Attendance.AutoAbsentActsOnlyWhenDue | fronten/src/App.js:28-63 | the backstop changes nothing unless someone is logged in on the dashboard at 21:55 (morning) or 17:46 (evening) with that `absent-` flag unset; then it sets that flag and no other whatever the POST outcome, and appends one absent record exactly when the POST succeeds |
| Attendance.AutoAbsentFiresWhenDue | fronten/src/App.js:28-58 | with someone logged in on the dashboard at 21:55 (morning) or 17:46 (evening) and that `absent-` flag unset, the backstop fires for that slot, sets the flag and appends one absent record exactly when the POST succeeds |
| Attendance.AutoAbsentIgnoresSubmitted | fronten/src/App.js:30-34 | setting any `submitted-` flag changes neither the backstop's outcome nor its records |
| Attendance.Tracker.constructor | fronten/src/App.js:13 | a dashboard starts from the persisted store with an empty record list |
| Attendance.Tracker.ManualSubmit | fronten/src/App.js:92-136 | the submit handler's new store, records and outcome are those of `ManualStep` on the old state |
| Attendance.Tracker.AutoAbsentTick | fronten/src/App.js:22-65 | one run of the backstop effect leaves the store, records and outcome of `AutoAbsentStep` on the old state |
| Sessions.StepFacts | fronten/src/App.js:22-136 | one event never clears a flag, newly sets only the flag it claims (unset before), appends at most one record and only when it claims a flag |
| Sessions.AtMostOneClaimPerKey | fronten/src/App.js:22-136 | in any run of submissions and ticks, each flag key is claimed at most once, and never if it was set at the start |
| Sessions.AtMostOneRecordPerKey | fronten/src/App.js:22-136 | in any run, at most one record is appended under each flag key, none if it was set at the start |
| Sessions.RunOnlyAppends | fronten/src/App.js:131 | a run keeps the earlier records as a prefix, grows the list by one per appending event, and never clears a flag |
| Sessions.TicksMarkAbsentAtMostOnce | fronten/src/App.js:21-39 | however many ticks occur, each with its own POST outcome, at most one absent record is appended per employee, date and slot |
| Scenarios.ShortIdsDecide | fronten/src/App.js:116 | `e1` against `E1` is present and `E2` against `E1` is absent |
| Scenarios.MorningPresent | fronten/src/App.js:98-132 | at 09:10, typing `e1` as `E1` records one present record and sets the morning `submitted-` flag |
| Scenarios.MorningMismatchIsAbsent | fronten/src/App.js:115-132 | at 09:10, typing `E2` as `E1` records one absent record and still sets the morning flag |
| Scenarios.TenOClockIsClosed | fronten/src/App.js:101-106 | at 10:00 the control is disabled and a submission changes nothing |
| Scenarios.EveningBackstopOnce | fronten/src/App.js:33-58 | three ticks during 17:46 produce exactly one absent record |
| Scenarios.MorningBackstopAt2155 | fronten/src/App.js:33-58 | at 21:55, with nothing recorded, the backstop marks the morning absent with one absent record |
| Scenarios.EveningSubmittedThenBackstop | fronten/src/App.js:30-58 | a present record at 17:10 is followed by an absent record at 17:46 for the same evening |

## Left out

- Login and signup (`handleSubmit`, lines 76-90) and `fetchAttendance` (lines 67-74) are not modelled. They are network calls. `fetchAttendance` also replaces the record list with the server's copy, which the model does not capture.
- The POST to the attendance endpoint is reduced to its outcome `postOk`. The request body and the server's behaviour are not modelled.
- The clock is an input. The `setInterval` refresh (lines 16-19) becomes a sequence of `Tick` events, each with its own reading.
- `toLocaleDateString`, `toLocaleTimeString` and the weekday name are opaque strings in the reading.
- Rendering, `alert` and `console.error` have no effect on the state and are not modelled.
- Tracker.ManualSubmit: each handler is one atomic step. The source awaits the POST before it sets the flag, so two clicks during one pending POST could both pass the guard. The model does not capture that interleaving.
- AsciiText.TrimSplits: only ASCII white space is trimmed and only ASCII letters are lower-cased. JavaScript also trims Unicode spaces and folds non-ASCII letters.
- Attendance.SubmitEnabledIffAccepted: the control and the handler are evaluated on one clock reading. In the source the control is rendered from `currentTime`, which a one-second interval refreshes (lines 17 and 140-143), and the click handler reads a fresh `new Date()` (lines 93-100). So a control enabled at 09:50:59 can meet a click at 09:51:00 that gets the window error, and around midnight the two can build keys with different dates. The model does not capture this gap.
- The store maps keys to booleans. The source stores the string `"true"`, and the model reads a key as set exactly when it maps to true.
- A missing login (`null` employee ID) is the empty string. Both are falsy in the backstop's guard (line 28). The manual handler is only reachable after login, so the `null.trim()` failure is not modelled.
