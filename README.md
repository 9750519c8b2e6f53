# Drug-Timer session core in Dafny

A model of the resuscitation dose timer in `script.js`: the session state
(start anchor, last-epinephrine anchor, the three-valued alert latch, shock
and dose counters, the event log), the 1 Hz tick that picks a status band
from the whole seconds since the last epinephrine dose and fires the 1-beep
or 2-beep sound at most once per band, the commands (start, dose, shock,
reset, clear log) and the log's display order and clipboard export text.

Modules, one per concern of `script.js`:

- `Wrappers`: `Option`, used for the two anchors.
- `TimeFormat`: `formatTime` exactly as JavaScript computes it (`Math.floor`,
  the truncating `%`, `toString`, `padStart(2, '0')`), `Math.floor(ms / 1000)`,
  and `ParseTime`, which reads a clock text back.
- `AlertEngine`: the status band (`Status`), the latch step (`Alert`), and
  `Trace`, the outcomes of a run of samples, with its closed form and latch
  lemmas.
- `EventLog`: the log entry, its elapsed field, the newest-first display order
  and the export text.
- `Commands`: the session state as a value, one function per command giving
  the state after it, and lemmas about sequences of ticks.
- `DrugTimer`: class `Session`, whose fields play the role of the `state`
  object. Each method mirrors its source function statement by statement and
  is proved to leave `Snapshot()` equal to the matching `Commands` function
  of the old state.

`Commands.Valid` is the invariant every command keeps. Each `Commands`
function carries `Valid(s) ==> Valid(t)`; the constructor establishes
`Valid()` and every state-changing `Session` method requires and ensures it.
Nothing is counted and no dose is anchored before the session starts, the
dose anchor is set exactly when an epinephrine dose has been counted, and the
latch is down while no dose is anchored. It is a preserved invariant only: no
other contract needs it as a precondition, because the source handles every state its fields can hold.

Time is an integer count of milliseconds. All `new Date()` readings made
while one command runs are one parameter `now`. The wall-clock texts
`toTimeString().split(' ')[0]` and `toLocaleString()` are opaque string
parameters (`clock`, `startLocale`). Confirmation dialogs count as accepted,
so each command is its callback body. `ConfirmMed` takes two instants: one
for when the prompt is chosen and one for when the dose action runs.

Behaviour the model keeps from the code:

- The drug name is any string. Only "Epinephrine" and "Amiodarone" change
  counters or anchors. Any other name is just logged.
- A sample that jumps from below 180 s to 300 s or more fires only the
  double beep: the latch goes straight from 0 to 2 (the `else if` at
  script.js:183).
- The band shown on screen comes from the seconds since the dose, not from
  the latch. If the clock goes back after the latch reached 2, the screen
  shows the normal band while the latch stays at 2.
- Clearing the log adds no entry. Reset keeps the log and appends its closing
  entry before clearing the anchors. With no session running, that entry's
  elapsed field is "00:00".
- An export made after a reset shows "N/A" as the start and zero counts next
  to the old entries.
- For negative seconds (the clock went back), `formatTime` keeps
  JavaScript's signs, e.g. `-1:-5` for -5 s.

## Model

| member | source | states |
|---|---|---|
| `TimeFormat.WholeSeconds` | script.js:161 | `Math.floor(ms / 1000)`: the greatest s with s·1000 ≤ ms, negative differences included |
| `TimeFormat.NatToString` | script.js:218-219 | `toString` of a whole number: non-empty, all decimal digits, no leading zero, one digit below 10, at most two below 100 |
| `TimeFormat.IntToStringValue` | script.js:218-219 | `toString` of a non-negative integer is decimal digits without a leading zero that read back as it; of a negative one, '-' followed by digits that read back as its magnitude |
| `TimeFormat.PadTwo` | script.js:218-219 | `padStart(2, '0')` gives length two, or the text's own length when that is longer |
| `TimeFormat.PadTwoContents` | script.js:218-219 | `padStart(2, '0')`: the result ends with the whole text and has only '0's in front of it, just enough for length two; a text of two or more characters (a sign included, such as "-5") comes back unchanged |
| `TimeFormat.JsRemainder60` | script.js:219 | JavaScript `% 60`: differs from the argument by a multiple of 60, lies strictly between -60 and 60, and takes the argument's sign |
| `TimeFormat.FormatTime` | script.js:217-221 | for a non-negative duration the ':' stands third from the end after at least two minute characters, and below 100 minutes the text has exactly five characters (its digits and read-back are in the lemmas below) |
| `TimeFormat.NatToStringValue` | script.js:218-219 | the decimal text of n reads back as n |
| `TimeFormat.FormatTimeFiveChars` | script.js:217-221 | for 0 ≤ s < 6000 the text has five characters: two digits, ':', two digits |
| `TimeFormat.ParsePadded` | script.js:217-221 | padded minutes, ':' and padded seconds below 60 parse back as that many minutes and seconds |
| `TimeFormat.FormatTimeRoundTrip` | script.js:217-221 | every non-negative duration's clock text parses back to that duration (padded minutes, then a colon, then the padded seconds below 60) |
| `TimeFormat.FormatTimeInjective` | script.js:217-221 | two non-negative durations with the same clock text are equal |
| `TimeFormat.FormatTimeNegative` | script.js:217-221 | -5 s gives "-1:-5" and -65 s gives "-2:-5", as JavaScript prints them |
| `AlertEngine.Status` | script.js:168-206 | the band's level is the number of thresholds (180 s, 300 s) reached |
| `AlertEngine.StatusText` | script.js:172-202 | the status text is empty exactly in the normal band |
| `AlertEngine.Alert` | script.js:168-196 | one sample never lowers the latch and raises it to the band's level; a sound fires (as many beeps as the band's level) exactly when the latch was below the band; below 180 s nothing changes |
| `AlertEngine.Trace` | script.js:146-196 | a run of samples (successive `updateTimers` calls) has one outcome per sample, never below the starting latch, each with at most two beeps, and the latch never goes down from one sample to the next |
| `AlertEngine.StatusMonotone` | script.js:168-206 | later samples never have a lower band |
| `AlertEngine.TraceAt` | script.js:178-195 | each sample in a run acts on the starting latch raised by the bands of all earlier samples |
| `AlertEngine.TraceFinalLevel` | script.js:178-195 | after a run the latch is the starting level raised by the highest band sampled |
| `AlertEngine.SoundsStrictlyIncrease` | script.js:178-195 | of any two sounds in one dose interval, the later one has more beeps, so each sound fires at most once |
| `AlertEngine.SoundIffNewBand` | script.js:178-195 | a sample sounds exactly when its band is above the starting latch and above every earlier sample's band |
| `AlertEngine.NoWarningWithoutWarningSample` | script.js:183-196 | if no sample falls within 180..299 s, the single beep never plays |
| `AlertEngine.EverySecond` | script.js:168-196 | samples at 0..400 s from a down latch: one single beep at 180, one double beep at 300, silence elsewhere |
| `AlertEngine.SkippedSample` | script.js:183-196 | samples at 100 s then 350 s: silence, then the double beep with the latch jumping from 0 to 2 |
| `EventLog.Elapsed` | script.js:378-382 | an entry's elapsed field is "00:00" before the session starts, otherwise '+' followed by a clock text that parses back to the whole seconds since the start |
| `EventLog.DisplayOrder` | script.js:396 | the displayed list has the stored entries in reverse: position i shows entry n-1-i |
| `EventLog.DisplayOrderInvolution` | script.js:396 | reversing the displayed list gives back storage order |
| `EventLog.DisplayOrderNewestFirst` | script.js:385-396 | an appended entry is displayed first, ahead of the earlier display |
| `EventLog.Line` | script.js:436 | an entry's export line is '[', its time, "] (", its elapsed field, ") ", its action and a newline, each at its place: the length is the three fields' plus seven |
| `EventLog.ExportText` | script.js:432-439 | the export is the header (title, start text, rule), then exactly the entries' lines in storage order, then the rule and the statistics line; `Header` and `Stats` are the two fixed-shape pieces |
| `EventLog.LinesAppend` | script.js:435-437 | the exported lines of two runs of entries concatenate |
| `EventLog.LinesSnoc` | script.js:435-437 | one more entry adds exactly its own line at the end |
| `EventLog.LinesAt` | script.js:435-437 | entry i's line stands between the lines of the entries before and after it |
| `EventLog.ExportPrefixStep` | script.js:432-437 | appending entry i's line to the text built so far gives the text for one entry more |
| `EventLog.ExportEntryAt` | script.js:432-439 | entry i's "[time] (elapsed) action" line follows the header and the earlier entries' lines, and a rule and the statistics line close the text |
| `EventLog.LineExample` | script.js:436 | an epinephrine entry at 10:00:00, +00:05 gives the line "[10:00:00] (+00:05) 給藥: Epinephrine" |
| `EventLog.StatsExample` | script.js:439 | counts 0/1/0 give "統計: 電擊 0 次, Epi 1 次, Amio 0 次" |
| `EventLog.ExportExample` | script.js:432-439 | one epinephrine entry at 10:00:00, +00:05, counts 0/1/0 exports its single line and "統計: 電擊 0 次, Epi 1 次, Amio 0 次" |
| `Commands.AddLog` | script.js:374-387 | exactly one entry appended at the end, stamped with the offset from the session start; the old log stays a prefix; nothing else changes |
| `Commands.ElapsedAtStart` | script.js:137-140 | the start entry, logged at the start instant, reads "+00:00" |
| `Commands.StartIfNeeded` | script.js:133-143 | the session is running afterwards; if it already ran nothing changes; otherwise only the start anchor (now) and one System entry "急救開始" are added; validity is kept |
| `Commands.StartIfNeededIdempotent` | script.js:137 | starting twice is the same as starting once |
| `Commands.MedicationAction` | script.js:256 | the dose entry's text is "給藥: " followed by the drug name unchanged |
| `Commands.GiveMedication` | script.js:240-257 | epinephrine adds one dose, re-anchors the dose timer and puts the latch down; amiodarone adds one dose and leaves the timer and latch; other names change only the log; shocks unchanged; the log gains the optional start entry and then one Medication entry "給藥: name" |
| `Commands.DosePrompt` | script.js:259-280 | the early-dose warning, showing the time since the last dose, comes up exactly for epinephrine while the last dose is still in the normal band; otherwise the standard confirmation names the drug |
| `Commands.ShockAction` | script.js:289 | the shock entry's text is "執行電擊 (第 ", the count in decimal digits that read back as it, then " 次)" |
| `Commands.GiveShock` | script.js:285-290 | the shock count grows by one; dose anchor, latch and dose counts are unchanged; the log gains the optional start entry and one Shock entry carrying the new count |
| `Commands.Reset` | script.js:301-317 | afterwards every anchor, the latch and every counter are back to the initial state; the old log is a prefix of the new one, which ends in the closing System entry stamped against the pre-reset start |
| `Commands.ClearHistory` | script.js:342-353 | the log is empty (nothing to display) and nothing else changes |
| `Commands.Tick` | script.js:146-215 | with no session nothing changes and nothing is shown; with no dose nothing changes, the total clock shows the whole seconds since the start, the dose clock is blank and the band normal; otherwise the total clock, the whole seconds since the dose and their band are shown, and the latch becomes the larger of itself and the band's level, with as many beeps as that level when the latch was below it and none otherwise (so the normal band changes nothing); only the latch can change, never downward; 0, 1 or 2 beeps, a sound exactly when the latch moves; validity kept |
| `Commands.TotalClock` | script.js:152-153 | the total clock's text of a non-negative duration reads back as that duration |
| `Commands.DoseClock` | script.js:159-208 | the dose clock's text is "--:--", which reads as no time, until a dose is given, and afterwards reads back as the seconds since the dose |
| `Commands.TickBeeps` | script.js:146-215 | the sounds of a run of ticks: one per tick, each 0, 1 or 2 beeps |
| `Commands.TickBeepsStep` | script.js:160-196 | with a session and a dose anchored, the first tick sounds as one alert-engine step and leaves the session with only the raised latch |
| `Commands.TickBeepsFollowTrace` | script.js:146-196 | once a session runs with a dose anchored, successive ticks sound exactly as the alert engine's trace over the whole seconds since that dose |
| `Commands.EverySecondAfterDose` | script.js:243-249 | after an epinephrine dose, whatever had sounded before, ticks once a second for 400 s give one single beep at 180 s and one double beep at 300 s |
| `Commands.SkippedSampleAfterDose` | script.js:183-196 | after an epinephrine dose, ticks at 100 s and then 350 s give silence, then the double beep |
| `Commands.Export` | script.js:429-439 | there is an export text exactly when the log is non-empty |
| `DrugTimer.Session.constructor` | script.js:51-61 | a fresh session is the initial, valid state with an empty log |
| `DrugTimer.Session.AddLog` | script.js:374-387 | the fields become `Commands.AddLog` of the old state |
| `DrugTimer.Session.StartSessionIfNeeded` | script.js:133-143 | the fields become `Commands.StartIfNeeded` of the old state; validity is kept |
| `DrugTimer.Session.Tick` | script.js:146-215 | the latch, the beeps and the display are those of `Commands.Tick` of the old state |
| `DrugTimer.Session.RunMedicationAction` | script.js:240-257 | the fields become `Commands.GiveMedication` of the old state |
| `DrugTimer.Session.ConfirmMed` | script.js:236-281 | the prompt is `Commands.DosePrompt` at the prompt instant; either way the same dose action runs, leaving `Commands.GiveMedication` of the old state |
| `DrugTimer.Session.ConfirmShock` | script.js:284-291 | the fields become `Commands.GiveShock` of the old state |
| `DrugTimer.Session.ResetSession` | script.js:301-318 | the fields become `Commands.Reset` of the old state |
| `DrugTimer.Session.ConfirmClearHistory` | script.js:342-354 | the fields become `Commands.ClearHistory` of the old state |
| `DrugTimer.Session.CopyHistory` | script.js:429-439 | the loop-built text is `Export`: none for an empty log, otherwise header (start text or "N/A"), one line per entry in storage order, then the statistics |

## Left out

- The manifest and icon injection (script.js:1-45): DOM and Blob plumbing with no state of the session.
- Web Audio (`initAudio`, `playBeep`, script.js:66-110): device calls, floating-point gain envelopes and timer-driven tone sequencing. Only the number of beeps a tick asks for (1 or 2) is modelled. The `initAudio` call at the top of `startSessionIfNeeded` is left out for the same reason.
- The screen wake lock and the `visibilitychange` handler (script.js:113-130): an asynchronous browser API outside the session state.
- The `setInterval`/`clearInterval` handle (`timerInterval`, script.js:59, 139, 303-306): ticks are explicit calls of `Tick`. The interval runs exactly while the start anchor is set, and `Tick` without a start anchor does nothing, so the handle is not a separate field.
- All DOM writes: class toggling, `innerText` (a tick's clock texts are given by `TotalClock` and `DoseClock`, the status text by `StatusText`), `innerHTML`, the markup of each log row and its category styling, the "尚無紀錄" placeholder for an empty log (script.js:153-206, 320-338, 389-422). Opening the dose dialog (`openMedicationModal`) and the history dialog (`openHistory`) are DOM actions. The first also calls `StartSessionIfNeeded`.
- `showConfirm`, `closeModal` and the modal plumbing (script.js:224-231, 356-371): every dialog counts as accepted. The early-dose warning's HTML is reduced to the time text it shows.
- The clipboard write and the `alert` after the export (script.js:441-446): I/O.
- `toTimeString` and `toLocaleString` (script.js:376, 433): locale-dependent texts, taken as opaque parameters.
- JavaScript numbers are doubles. The model's integers are unbounded, and `NatToString` does not switch to exponent notation for values of 10^21 and above, as `toString` does.
- Several `new Date()` readings in one command are modelled as one instant.
- sw.js: a service-worker cache shim over browser Cache and network APIs; it has no session logic.
