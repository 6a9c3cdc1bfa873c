# Interval timer: a Dafny model

This project models the core of a mobile interval-training timer and its
small storage backend.

The client side is the `useTimer` hook's state machine. A session moves
through the phases idle, work, rest, set rest and complete. It counts rounds
within a set and sets within a session, and each one-second tick advances
it. Around the machine sit the pure helpers of three screens:

- the home screen: the `mm:ss` clock, the settings steppers, the main
  play/pause button, and the phase label and colour;
- the history screen: the `分/秒` duration text and the completion badge;
- the templates screen: the bundled templates, selecting one, and building a
  custom template from text inputs.

The server side is the two Express routers for templates and workout
records. Each handler is a pure function from the request and the table, a
sequence of rows, to a status, a JSON body and the table afterwards. The
UUID and the ISO timestamp the handlers generate are parameters.

Modules, one per file:

- `Optional`: a value that may be missing.
- `Decimal`: digit strings, as `String(n)` writes integers.
- `Js`: request values and truthiness, `trim`, a simplified `parseInt`, and
  `Math.floor` and `%` for a positive divisor.
- `Ordering`: binary text order, `WHERE` as a filter, `ORDER BY … DESC`, and
  `LIMIT … OFFSET …`.
- `Timer`: the hook's step functions and the invariant they keep.
- `TimerRuns`: runs of many ticks, the length of a whole session, and
  concrete scenarios.
- `AppConfig`: the bundled presets and the colour theme.
- `HomeScreen`, `HistoryScreen`, `TemplatesScreen`: the screen logic.
- `TemplateRoutes`, `RecordRoutes`: the route handlers.

Notes on the code:

- The device id comes from the `x-device-id` header.
- The countdown cue fires when the decremented remaining time is 1, 2 or 3.
  So it fires on the ticks that leave 3, 2 and 1 seconds.
- `applySettings` calls `reset` through a callback that still holds the
  previous work duration. The idle re-sync effect then shows the new one,
  and `HomeScreen.ApplySettings` proves that the two steps together equal a
  reset under the new configuration.
- The list routes return the stored rows with their snake_case columns.
  The model's field names are camelCase.

## Model

| member | source | states |
|---|---|---|
| Timer.Initial | client/src/hooks/useTimer.ts:32-42 | the hook starts idle with the work duration on the clock, at round 1 of set 1, with total 0, neither running nor paused; under a valid plan the state keeps the invariant |
| Timer.Reset | client/src/hooks/useTimer.ts:54-65 | whatever the prior state, reset gives idle, the current work duration, round 1, set 1, total 0, not running and not paused, and the invariant holds |
| Timer.Tick | client/src/hooks/useTimer.ts:67-144 | no effect unless running and unpaused; each effective tick adds exactly one to the total; within a phase it takes one second off, changes nothing else, and emits the countdown cue when the new remaining time is 1 to 3 and nothing otherwise; the five phase-end transitions (work to rest, to set rest, to complete; rest to work with the next round; set rest to work with round 1 of the next set); a phase change is announced with the entered phase's cue and only then |
| Timer.Start | client/src/hooks/useTimer.ts:146-171 | from idle or complete, a fresh running session at round 1 of set 1 with the work duration and the work cue; from any other phase, only the running and paused flags change; the result is always live and mid-session |
| Timer.Pause | client/src/hooks/useTimer.ts:173-178 | only the paused flag changes, and the state is no longer live |
| Timer.Resume | client/src/hooks/useTimer.ts:180-185 | only the paused flag changes, and it is cleared |
| Timer.UpdateConfig | client/src/hooks/useTimer.ts:187-189 | every supplied field overrides, every absent field is kept |
| Timer.IdleSync | client/src/hooks/useTimer.ts:198-206 | an idle state shows the configured work duration with nothing else changed; other phases are untouched |
| Timer.TickKeepsInv | client/src/hooks/useTimer.ts:80-142 | under a valid plan a tick keeps rounds and sets in range, the clock non-negative, and complete not running |
| Timer.StartKeepsInv | client/src/hooks/useTimer.ts:146-166 | start keeps the invariant |
| Timer.PauseResumeKeepInv | client/src/hooks/useTimer.ts:173-185 | pause and resume keep the invariant |
| Timer.IdleSyncKeepsInv | client/src/hooks/useTimer.ts:198-206 | the idle re-sync keeps the invariant |
| Timer.UpdateConfigCanLeaveRoundOutOfRange | client/src/hooks/useTimer.ts:187-189 | a concrete mid-session plan change after which the round counter exceeds the new round count |
| TimerRuns.Run | client/src/hooks/useTimer.ts:170 | after n ticks the total has grown by at most n, and a state that is not live never changes |
| TimerRuns.RunAdd | client/src/hooks/useTimer.ts:170 | n + m ticks are n ticks followed by m ticks |
| TimerRuns.CountDown | client/src/hooks/useTimer.ts:71-72 | fewer ticks than the remaining time only move the clock down and the total up, one per tick |
| TimerRuns.RunToPhaseEnd | client/src/hooks/useTimer.ts:80-135 | a live phase ends after exactly as many ticks as its duration, or one tick when that is zero or less |
| TimerRuns.WorkPhaseEnds | client/src/hooks/useTimer.ts:83-113 | a work phase runs out into rest before the last round, otherwise into set rest or complete |
| TimerRuns.RestPhaseEnds | client/src/hooks/useTimer.ts:114-123 | a rest phase runs out into work of the next round |
| TimerRuns.SetRestPhaseEnds | client/src/hooks/useTimer.ts:124-134 | a set rest runs out into work of round 1 of the next set |
| TimerRuns.RoundThenRest | client/src/hooks/useTimer.ts:83-123 | before the last round, a round's work and rest together lead to the work of the next round, with the total advanced by both durations |
| TimerRuns.SetThenSetRest | client/src/hooks/useTimer.ts:103-134 | before the last set, a whole set and its set rest lead to round 1 of the next set |
| TimerRuns.RunSet | client/src/hooks/useTimer.ts:83-123 | from any round's work, the rest of the set takes exactly its work and rest durations and ends at the set's end |
| TimerRuns.RunSessionFrom | client/src/hooks/useTimer.ts:83-134 | from the first work of any set, the session finishes after exactly the remaining sets and set rests |
| TimerRuns.SessionCompletes | client/src/hooks/useTimer.ts:146-166 | a started session is live at every earlier tick and completes after exactly `SessionTicks` ticks, with the total equal to that count |
| TimerRuns.SessionTicksClosedForm | client/src/hooks/useTimer.ts:80-135 | the session length is sets × (rounds × work + (rounds − 1) × rest) + (sets − 1) × set rest, with each duration below 1 counted as 1 |
| TimerRuns.DefaultTwentyTicksReachRest | client/src/hooks/useTimer.ts:24-30 | with the default 20/10/8/1/60 plan, 20 ticks after start enter rest with 10 seconds on the clock |
| TimerRuns.DefaultSessionLasts230 | client/src/hooks/useTimer.ts:24-30 | the default plan lasts 230 ticks |
| TimerRuns.TabataScenario | client/src/config.ts:30-37 | for Tabata, the last work of set 1 leads to a 60 s set rest, which leads 60 ticks later to round 1 of set 2 with 20 s; the session lasts 1100 ticks |
| TimerRuns.SingleSetEndsAfterLastWork | client/src/hooks/useTimer.ts:103-113 | with one set, the end of the last work completes the session, stopped, with 0 on the clock |
| TimerRuns.PauseThenResume | client/src/hooks/useTimer.ts:173-185 | while paused any number of ticks change nothing; after resuming one tick takes exactly one second off in the same phase |
| AppConfig.PresetConfig | client/src/context/TimerContext.tsx:12-18 | a preset's numbers become the plan field by field |
| AppConfig.DefaultsAgree | client/src/context/TimerContext.tsx:12-18 | the context's starting plan equals the hook's fallback plan, and every bundled preset is a valid plan |
| HomeScreen.PhaseTextsDistinct | client/src/screens/HomeScreen.tsx:19-34 | two phases share a label exactly when they are the same phase |
| HomeScreen.PhaseColorGroups | client/src/screens/HomeScreen.tsx:36-48 | two phases share a colour exactly when both are rest or set rest, or both are idle or work (the theme's primary and work colours are equal), or they are equal |
| HomeScreen.PhaseText | client/src/screens/HomeScreen.tsx:19-34 | every label is non-empty, and `完成!` is shown in the complete phase and in no other |
| HomeScreen.PhaseColor | client/src/screens/HomeScreen.tsx:36-48 | the rest colour is shown exactly in rest and set rest, and the success colour exactly when complete |
| HomeScreen.Pad2 | client/src/screens/HomeScreen.tsx:53 | the result is two characters long, or the text itself when that is longer |
| HomeScreen.Pad2PutsZerosInFront | client/src/screens/HomeScreen.tsx:53 | the result is zeros followed by the whole text |
| HomeScreen.FormatClock | client/src/screens/HomeScreen.tsx:50-54 | for a non-negative time the text is a minutes field, `:` and two digits; the seconds digits have the value seconds mod 60 and the minutes digits have the value seconds / 60; the text is 5 characters below 100 minutes and has no leading zero from then on |
| HomeScreen.FormatClockOfNegative | client/src/screens/HomeScreen.tsx:50-54 | -5 seconds shows as `-1:-5`, because the minutes round down and the seconds keep their sign |
| HomeScreen.FormatClockRoundTrip | client/src/screens/HomeScreen.tsx:50-54 | the minutes field times 60 plus the seconds field gives back the time |
| HomeScreen.MainAction | client/src/screens/HomeScreen.tsx:81-89 | the button starts exactly when idle or complete; otherwise it resumes only a paused session and pauses only an unpaused one |
| HomeScreen.PressMain | client/src/screens/HomeScreen.tsx:81-89 | the timer ends up paused exactly when the button pauses; a start leaves a live work phase with the work duration; resume and pause keep the phase, the clock and the total and emit nothing |
| HomeScreen.MainIcon | client/src/screens/HomeScreen.tsx:91-96 | the icon is play exactly when pressing the button does not pause |
| HomeScreen.MainButtonIconMatchesEffect | client/src/screens/HomeScreen.tsx:81-96 | the icon is play exactly when the button does not pause, and, under the invariant, exactly when pressing it leaves the timer live |
| HomeScreen.AdjustValue | client/src/screens/HomeScreen.tsx:98-103 | the stepped field lies within the bounds; it equals the stepped value when that is in range, else the bound it crossed; every other field is unchanged |
| HomeScreen.SteppersWellFormed | client/src/screens/HomeScreen.tsx:236-303 | every stepper's range is non-empty and no two steppers edit the same field |
| HomeScreen.PressesKeepBounds | client/src/screens/HomeScreen.tsx:236-303 | after any presses, work is in 5..120, rest in 5..60, rounds in 1..20 and sets in 1..10 for every stepper pressed, and the set rest is unchanged |
| HomeScreen.PressAtBoundIsIdempotent | client/src/screens/HomeScreen.tsx:101 | minus at the lower bound and plus at the upper bound leave the plan unchanged |
| HomeScreen.ApplySettings | client/src/screens/HomeScreen.tsx:105-110 | the edited plan replaces the current one, and the session ends exactly as a reset under the edited plan |
| HistoryScreen.FormatDuration | client/src/screens/HistoryScreen.tsx:16-20 | for a non-negative time the text ends in `秒` and the part between `分` and `秒` is one or two digits whose value is below 60 |
| HistoryScreen.FormatDurationRoundTrip | client/src/screens/HistoryScreen.tsx:16-20 | the minutes times 60 plus the seconds read back from the text give the time |
| HistoryScreen.ParseJoined | client/src/screens/HistoryScreen.tsx:19 | text joined from a minutes digit string, `分`, the seconds and `秒` splits back into exactly those two parts |
| HistoryScreen.BadgeFor | client/src/screens/HistoryScreen.tsx:117 | the badge is the done badge exactly when the completed rounds equal the planned rounds |
| HistoryScreen.BadgeText | client/src/screens/HistoryScreen.tsx:117-125 | the done badge reads `完成` and the other `未完成`, and no badge reads the other's text |
| HistoryScreen.BadgeTextMeansCompleted | client/src/screens/HistoryScreen.tsx:117-125 | the badge reads `完成` exactly when the completed rounds equal the planned rounds, and `未完成` exactly otherwise |
| TemplatesScreen.WithDefaultIds | client/src/screens/TemplatesScreen.tsx:31-33 | each bundled template gets the id `default-` and its position |
| TemplatesScreen.DefaultIdsDistinct | client/src/screens/TemplatesScreen.tsx:31-33 | the positional ids are pairwise distinct, and selecting a listed template gives its preset's plan and name |
| TemplatesScreen.SelectTemplate | client/src/screens/TemplatesScreen.tsx:43-53 | the five numbers are copied one to one into the plan, and the name becomes the selected name |
| TemplatesScreen.FirstTemplateIsInitialSelection | client/src/context/TimerContext.tsx:20-29 | at first the first bundled template alone is highlighted, and selecting it changes nothing |
| TemplatesScreen.CreateTemplate | client/src/screens/TemplatesScreen.tsx:55-70 | nothing is created and the selection is kept exactly when the name is all white space; otherwise the template keeps the untrimmed name, its id is `custom-` and the given time, each number is its `parseInt(…) \|\| default`, and it becomes the selection |
| TemplatesScreen.NumberOrKeepsNonZero | client/src/screens/TemplatesScreen.tsx:62-66 | a typed non-zero number, negative included, is kept as typed |
| TemplatesScreen.NumberOrDefaults | client/src/screens/TemplatesScreen.tsx:62-66 | a typed `0` and an empty input both give the field's default |
| TemplatesScreen.NumberOrIffNonZero | client/src/screens/TemplatesScreen.tsx:62-66 | a field differs from its default only when its text reads as that non-zero integer; NaN or zero gives the default |
| TemplatesScreen.NumberOr | client/src/screens/TemplatesScreen.tsx:62-66 | the result differs from the default only as the non-zero number the text reads as; NaN or zero gives the default; a non-zero reading is kept |
| TemplatesScreen.ApplyEdit | client/src/screens/TemplatesScreen.tsx:92-119 | the edited input takes the new text, every other input keeps its own, and the sets and set rest texts never change |
| TemplatesScreen.EditsKeepHiddenFields | client/src/screens/TemplatesScreen.tsx:87-121 | the form's inputs never change the sets and set rest texts |
| TemplatesScreen.CreatedTemplateHasOneSet | client/src/screens/TemplatesScreen.tsx:34-41 | however the form is filled, a created template has 1 set and a 60 s set rest |
| TemplatesScreen.UntrimmedNameIsStored | client/src/screens/TemplatesScreen.tsx:56-61 | a name with surrounding spaces is accepted, and is stored and selected with its spaces |
| Js.TrimEmptyIffBlank | client/src/screens/TemplatesScreen.tsx:56 | `trim()` is empty exactly when every character is white space |
| Js.ParseIntOfIntToString | client/src/screens/TemplatesScreen.tsx:62-66 | `parseInt` reads back any integer's decimal text |
| Js.Rem | client/src/screens/HistoryScreen.tsx:18 | `%` lies strictly between −b and b, takes the sign of the dividend, agrees with the mathematical remainder for a non-negative dividend, and the dividend is b times the quotient truncated toward zero plus the remainder |
| Js.RemIsOdd | client/src/screens/HistoryScreen.tsx:18 | negating the dividend negates the remainder |
| Js.FloorDivRemSplit | client/src/screens/HomeScreen.tsx:51-52 | for a non-negative dividend, b × `Math.floor(a / b)` plus `a % b` gives back a, and the remainder lies in 0..b − 1 |
| Js.Truthy | backend/src/routes/templates.ts:51-53 | a value is truthy exactly when it is none of `undefined`, `null`, `false`, `0` and `""` |
| Js.Trim | client/src/screens/TemplatesScreen.tsx:56 | only white space is cut at the start; of the rest, a front part is kept and only white space is cut at the end; the result neither starts nor ends with white space |
| Js.ParseInt | client/src/screens/TemplatesScreen.tsx:62-66 | blank text reads as NaN, and a plain digit string reads as its decimal value |
| Js.ReadSigned | client/src/screens/TemplatesScreen.tsx:62-66 | after the leading white space, nothing reads as NaN and a plain digit string as its value |
| Js.ParseIntReads | client/src/screens/TemplatesScreen.tsx:62-66 | white space, an optional sign, digits and then anything not starting with a digit read as the digits' value, negated after `-` |
| Js.ParseIntWithoutDigits | backend/src/routes/records.ts:25-26 | white space and an optional sign followed by no digit read as NaN |
| Js.ParseIntOfSuffixed | client/src/screens/TemplatesScreen.tsx:62 | `30s` reads as 30 |
| Js.ParseIntOfIndented | client/src/screens/TemplatesScreen.tsx:62 | ` 12` reads as 12 |
| Js.ParseIntOfSigned | client/src/screens/TemplatesScreen.tsx:62 | `-5` reads as -5 |
| Decimal.IntToString | client/src/screens/HistoryScreen.tsx:19 | the text is never empty, starts with `-` exactly for a negative number, and is all digits otherwise |
| Decimal.NatToStringRoundTrip | client/src/screens/HistoryScreen.tsx:19 | the value of the decimal text of n is n |
| Ordering.LexLeTotal | backend/src/routes/templates.ts:28 | any two timestamps are ordered one way or the other |
| Ordering.LexLeTrans | backend/src/routes/templates.ts:28 | the text order is transitive |
| Ordering.LexLeAntisym | backend/src/routes/templates.ts:28 | two texts ordered both ways are equal |
| Ordering.Filter | backend/src/routes/templates.ts:28 | the result holds exactly the rows that satisfy the condition |
| Ordering.SortDesc | backend/src/routes/templates.ts:28 | the result is a permutation of the rows, in descending key order |
| Ordering.GreatestComesFirst | backend/src/routes/templates.ts:28 | a row with a strictly greatest key is listed first |
| Ordering.Window | backend/src/routes/records.ts:34 | the page is the slice starting at the offset (0 when negative), as long as the limit, or to the end when the limit is negative |
| Ordering.PagesTile | backend/src/routes/records.ts:34 | a page of a rows followed by the next page of b rows is the page of a + b rows |
| TemplateRoutes.List | backend/src/routes/templates.ts:20-39 | 400 without a device; otherwise 200 with exactly the device's rows, newest first; the table is untouched |
| TemplateRoutes.Create | backend/src/routes/templates.ts:42-79 | 400 exactly when the device is missing or a required field is falsy; 500 on an id clash; otherwise one row is appended, holding the device, the posted values, sets defaulting to 1 and set rest to 60 when absent, and the reply echoes it; the table changes only on 201 |
| TemplateRoutes.Delete | backend/src/routes/templates.ts:82-106 | 400 without a device; 404 with the table unchanged exactly when no row has both the id and the device; otherwise 204 and exactly the rows without both are kept |
| TemplateRoutes.CreatedIsListed | backend/src/routes/templates.ts:59-63 | a created template is in that device's next list |
| TemplateRoutes.CreatedIsListedFirst | backend/src/routes/templates.ts:28 | a template created later than all of the device's others heads its list |
| TemplateRoutes.CreateThenDeleteRestores | backend/src/routes/templates.ts:93-105 | deleting what was just created returns 204 and the original table |
| TemplateRoutes.CreateLeavesOtherDevices | backend/src/routes/templates.ts:28 | a create for one device never changes another device's list |
| TemplateRoutes.DeleteLeavesOtherDevices | backend/src/routes/templates.ts:102 | a delete for one device never changes another device's list |
| TemplateRoutes.ZeroRestIsRejected | backend/src/routes/templates.ts:51-53 | a rest of 0 counts as missing: 400 and no change |
| TemplateRoutes.DefaultIfAbsent | backend/src/routes/templates.ts:49 | an absent value becomes the number d; a present one is kept, even when falsy |
| RecordRoutes.Listing | backend/src/routes/records.ts:34-55 | the page is the `LIMIT`/`OFFSET` window of the device's rows newest first, at most `limit` of them, all from the table; the total counts all of the device's rows; limit and offset are echoed |
| RecordRoutes.OwnPage | backend/src/routes/records.ts:34-43 | the page holds only the device's rows of the table, at most `limit` of them when the limit is not negative, and is exactly the slice of the device's rows newest first that starts at the offset (0 when negative, the end when past it) |
| RecordRoutes.Newest | backend/src/routes/records.ts:34 | the device's rows newest first are a permutation of the device's rows |
| RecordRoutes.List | backend/src/routes/records.ts:23-56 | 400 without a device; otherwise 200 with the listing for the parsed limit and offset; the table is untouched |
| RecordRoutes.ListedLatestFirst | backend/src/routes/records.ts:34 | every page is in descending completion time |
| RecordRoutes.PageParamDefaults | backend/src/routes/records.ts:25-26 | a missing, unreadable or zero parameter gives limit 50 and offset 0; a non-zero number is kept |
| RecordRoutes.PageParamOfNumber | backend/src/routes/records.ts:25-26 | a number written in the query is read back as itself, and an offset of 0 stays 0 |
| RecordRoutes.PageParam | backend/src/routes/records.ts:25-26 | a missing parameter gives the default; a result other than the default is the non-zero number the text reads as; a non-zero reading is kept |
| RecordRoutes.ParseIntOfWord | backend/src/routes/records.ts:25 | a word without digits, such as `all`, reads as NaN |
| RecordRoutes.NegativeLimitListsAll | backend/src/routes/records.ts:25 | a negative limit reaches SQLite, which then returns every row of the device newest first: the page count equals the total, every row of the device is on the page, and every row on the page is the device's |
| RecordRoutes.NegativeLimitReachesListing | backend/src/routes/records.ts:25 | the query `limit=<n>` for negative n answers 200 with the listing for limit n from offset 0 |
| RecordRoutes.UnlimitedPageIsAll | backend/src/routes/records.ts:34-47 | with a negative limit the first page is all of the device's rows newest first, as many as the total, and nothing else |
| RecordRoutes.ConsecutivePagesTile | backend/src/routes/records.ts:34-43 | the page of a rows at o followed by the page of b rows at o + a equals the page of a + b rows at o |
| RecordRoutes.Save | backend/src/routes/records.ts:59-113 | 400 exactly when the device or a truthy template name is missing or a numeric field is undefined; 500 on a null in a `NOT NULL` column or an id clash; otherwise one row is appended with sets defaulting to 1 and a falsy template id stored as null, and the reply echoes it; the table changes only on 201 |
| RecordRoutes.StatsOf | backend/src/routes/records.ts:116-139 | 400 without a device; otherwise the workout count is the number of the device's rows, and all three totals are 0 when it has none |
| RecordRoutes.TotalMatchesStats | backend/src/routes/records.ts:44-48 | the listing's total equals the stats' workout count |
| RecordRoutes.SaveAddsToStats | backend/src/routes/records.ts:124-132 | a save adds one workout, its total time and its completed rounds to the device's totals |
| RecordRoutes.StatsOfAppended | backend/src/routes/records.ts:124-132 | appending a row of the device adds one workout, its total time and its completed rounds to the device's totals |
| RecordRoutes.Sum | backend/src/routes/records.ts:127-128 | no rows add up to 0, and one row adds up to its own value |
| RecordRoutes.SumAppend | backend/src/routes/records.ts:127-128 | the sum over two runs of rows is the sum of their sums |
| RecordRoutes.SumOfNonNegative | backend/src/routes/records.ts:127-128 | a sum of values none of which is negative is not negative |
| RecordRoutes.SaveLeavesOtherDevices | backend/src/routes/records.ts:34-44 | a save for one device changes neither the listing nor the totals of another |
| RecordRoutes.SavedIsListedFirst | backend/src/routes/records.ts:34 | a workout completed later than all of the device's others is first on the default page |
| RecordRoutes.ZeroRoundsAreSaved | backend/src/routes/records.ts:78-82 | zero values are accepted: a workout with no completed round is saved with 201 |
| RecordRoutes.WindowKeepsSorted | backend/src/routes/records.ts:34 | a page of a sorted list is sorted |

## Left out

- The `setInterval` scheduling, `clearTimer`, `startTimeRef` and the unmount cleanup are not modelled. `TimerRuns.Run` applies `Tick` once per elapsed second instead.
- The ticks that a stale `tick` closure would run with an older configuration are not modelled either.
- Haptic feedback is reduced to the emitted cue tags. The call into the device is foreign code.
- `getProgress` and the progress ring are left out. They compute floating-point ratios.
- `avg_workout_time` in the stats route is left out. SQL `AVG` is real-valued.
- The database module, the HTTP client, the Express wiring and the navigation are not part of this model. The error handler's 500 reply is modelled where an insert throws.
- `formatDate` is left out. It depends on the locale.
- The UUID and the current time are parameters of the handlers and of `CreateTemplate`.
- Styles and layout are left out.
- `Js.ParseInt` reads leading white space, an optional sign and the longest run of decimal digits, and ignores the rest. It has no radix, no hexadecimal prefix, no `Infinity` and no exponent handling.
- Request values are integers, strings, booleans, null or absent. Fractional numbers, objects and arrays are not modelled.
- Numbers are unbounded integers. JavaScript numbers are doubles: integers are exact only up to 2^53, `String(n)` switches to exponent form from 10^21, and `parseInt` rounds a long digit string.
- `Js.ParseIntOfIntToString`: holds for all integers in the model. In JavaScript it holds only for magnitudes up to 2^53, because of the double rounding above.
- `RecordRoutes.PageParamOfNumber`: holds for all integers in the model. In the source a limit or offset beyond SQLite's 64-bit integers makes the query throw, and the route answers 500.
- `TemplatesScreen.NumberOrKeepsNonZero`: holds for all non-zero integers in the model. In JavaScript a typed number beyond 2^53 comes back rounded.
- A repeated query parameter, which Express delivers as an array, is not modelled.
- `TemplateRoutes.Create`: SQLite's column affinity is not modelled, so a row is stored with the values as posted. Numeric text sent for an `INTEGER` column stays text in the model.
- `RecordRoutes.Save`: SQLite's column affinity is not modelled, for the same reason.
- `RecordRoutes.StatsOf`: text values add 0 to the sums. SQLite would convert numeric text.
- `RecordRoutes.StatsOf`: its contract states the count and the empty case. `RecordRoutes.SaveAddsToStats` states how the sums change.
- `Ordering.SortDesc`: rows with equal timestamps come in one fixed order. SQLite leaves that order open, and may use a different one in each query.
- `RecordRoutes.ConsecutivePagesTile`: it holds for the one tie order the model fixes. When two of the device's workouts share a completion time, SQLite does not promise the same order for both page queries, so a row could then appear on both pages or on neither.
- `RecordRoutes.Listing`, `RecordRoutes.OwnPage`, `RecordRoutes.NegativeLimitListsAll` and `RecordRoutes.UnlimitedPageIsAll`: the exact order of the page is the model's tie order among equal completion times. The membership, count and descending-order statements do not depend on it.
- `TemplateRoutes.List`: likewise, templates with equal creation times are listed in the model's tie order.
- `Timer.UpdateConfig`: a key supplied with the value `undefined` is treated as absent. The spread in the source would store `undefined`.
- `HomeScreen.FormatClock`: negative times are formatted but not read back, because `Math.floor` and the truncating `%` disagree there. They do occur: `parseInt("-5") || 20` keeps -5, so a template with a negative duration puts a negative time on the idle clock, which then shows e.g. `-1:-5` (`HomeScreen.FormatClockOfNegative`).
- `HistoryScreen.FormatDuration`: negative durations are formatted but not read back either, for the same disagreement of `Math.floor` and `%`.
