# Python roadmap progress tracker — a Dafny model

The repository is a static checklist page for learning Python. Its only logic is
the `PythonRoadmapTracker` class in `script.js`. The class keeps checkbox state
in one browser storage entry. It shows a rounded completion percentage in a
progress bar and a text label. It alerts once when the roadmap reaches 100%, and
it can reset everything after a confirmation prompt, either by a direct call
(for example from the browser console) or with the Ctrl/Cmd+Shift+R shortcut.

The model has four modules:

- `Text` renders a natural number as a template literal does (`${n}`), and
  parses it back, so that labels can be read back and compared.
- `Topics` covers the controls and the storage entry. A `Checkbox` is a
  `(topic, checked)` row. A `Slot` is what the storage entry yields:
  `Absent`, `Valid(map<string, bool>)` or `Malformed`. The module holds the
  mapping the save loop builds (`Snapshot`), the controls after the load loop
  (`Loaded`), and the controls after the reset loop (`Cleared`).
- `Progress` holds the percentage in integer arithmetic (round half up:
  `(200·c + t) / (2·t)` for `t > 0`, else 0), the fill width `"<p>%"` and the
  label `"<p>% Complete (<c>/<t>)"`, each with a parser and a round-trip lemma.
- `Tracker` holds a value `State` and one step function per handler
  (`AfterLoad`, `AfterSave`, `AfterUpdate`, `AfterCompletion`, `AfterChange`,
  `AfterReset`, `AfterKeyDown`, `Initial`). It also has the class
  `RoadmapTracker`. The class keeps the controls in an `array<Checkbox>`, which
  its `for` loops update in place. Every method's `ensures` ties `Abs()` after
  the call to the matching step function applied to `old(Abs())`. The
  lemmas about single handlers and about whole runs of events (`Run`) are proved
  on the step functions.

Inputs from outside the program are parameters:

- the answer to `confirm` is the `confirmed` flag;
- whether `localStorage.setItem` succeeds is the `writable` flag;
- whether `localStorage.removeItem` succeeds is the `removable` flag. In
  `loadProgress` and `saveProgress` the storage calls sit inside `try`, but
  the `removeItem` of `resetProgress` (script.js:81) does not. When it throws,
  the exception leaves `resetProgress` before the controls, the display or the
  flag change, and `ResetProgress` reports it in its `threw` result;
- `alert` is a counter, `alerts`, that goes up by one per alert shown;
- a storage read that throws, a payload `JSON.parse` rejects, and a payload
  that parses to `null` are all `Slot.Malformed`. An empty string is falsy in
  the source, so it behaves as `Absent`.

Four points where the code's behaviour is easy to misread:

- `resetProgress` redraws the display *before* it clears `completionShown`
  (script.js:85-86). The model keeps that order. `ConfirmedReset` proves the
  order is harmless: the redraw after unchecking shows 0%, so it never alerts.
- Completion is tested as `percentage === 100`, not "every topic checked".
  `HundredMeansAllOnSmallPages` proves the two agree on pages of 1 to 199
  topics; an empty page shows 0% and never alerts.
  `HundredWithOneLeft` and `AlertWithTopicLeft` prove that with 200 or more
  topics the alert fires while one topic is still unchecked (199/200 rounds
  to 100).
- `init` runs `updateProgress`, so a page that loads a complete saved state
  alerts at start-up, not only after a toggle (`InitAlerts`).
- A confirmed reset whose storage removal throws does nothing at all
  (`FailedResetIsNoOp`).

## Model

| member | source | states |
|---|---|---|
| Text.NatToString | script.js:64-65 | a rendered number has at least one digit, only digits, and no leading zero unless it is 0 |
| Text.ParseNatToString | script.js:64-65 | reading the decimal rendering of n gives back n |
| Text.NatToStringInjective | script.js:64-65 | distinct numbers never render alike |
| Progress.Percentage | script.js:60-62 | 0 for an empty page; otherwise the nearest integer to 100·completed/total with halves rounded up (2t·p ≤ 200c + t < 2t·(p+1)); never above 100 |
| Progress.PercentageUnique | script.js:62 | the rounding bounds determine the percentage uniquely |
| Progress.PercentageZero | script.js:62 | no topic checked shows 0% |
| Progress.PercentageMonotone | script.js:61-62 | checking more topics never lowers the percentage |
| Progress.PercentageIsHundred | script.js:62-67 | on a non-empty page, the percentage is 100 exactly when 200·(total − completed) ≤ total |
| Progress.HundredMeansAllOnSmallPages | script.js:62-67 | with 1 to 199 topics, 100% holds exactly when all topics are checked |
| Progress.HundredWithOneLeft | script.js:62-67 | with 200 or more topics, all but one checked already shows 100% |
| Progress.FillWidth | script.js:64 | the fill width `"<p>%"`; its meaning is stated by `FillWidthRoundTrip` |
| Progress.Label | script.js:65 | the label `"<p>% Complete (<c>/<t>)"`; its meaning is stated by `LabelRoundTrip` and `LabelInjective` |
| Progress.FillWidthRoundTrip | script.js:64 | the fill width `"<p>%"` reads back as p |
| Progress.ParseCountsRoundTrip | script.js:65 | the `<c>/<t>)` tail of a label reads back as (c, t) |
| Progress.LabelRoundTrip | script.js:65 | the label `"<p>% Complete (<c>/<t>)"` reads back as (p, c, t) |
| Progress.LabelInjective | script.js:65 | two labels are equal only if their three numbers are equal |
| Progress.FiveTopicsExample | script.js:60-65 | 2 of 5 shows "40% Complete (2/5)" with width "40%"; 5 of 5 shows "100% Complete (5/5)" |
| Topics.CountChecked | script.js:61 | the count is at most the number of controls; it equals it exactly when all are checked, and is 0 exactly when none is |
| Topics.CountCheckedAppend | script.js:61 | counting adds up over a concatenation of control lists |
| Topics.Loaded | script.js:18-29 | loading keeps the controls' number, order and topics |
| Topics.Cleared | script.js:82-84 | after the reset loop every control is unchecked and the topics are unchanged |
| Topics.Snapshot | script.js:37-42 | the mapping the save loop builds; its meaning is stated by `SnapshotKeys` and `SnapshotLastWins` |
| Topics.LoadOne | script.js:24-27 | visiting one control keeps its topic and never unchecks it |
| Topics.Applied | script.js:23-28 | the load loop keeps the controls' number, order and topics; `LoadEffect` states each control's new flag |
| Topics.Flipped | script.js:52 | the browser's flip before `change` fires negates control i's flag and leaves the topics and every other control unchanged |
| Topics.SnapshotKeys | script.js:37-42 | the saved mapping has as keys exactly the controls' topics |
| Topics.SnapshotLastWins | script.js:37-42 | a key's saved value is the checked flag of the last control that carries it |
| Topics.LoadEffect | script.js:20-28 | after loading, a control is checked exactly when it was checked before or its key is stored as true; loading never unchecks |
| Topics.LoadIgnoresUnknownKeys | script.js:23-28 | two mappings that agree on the controls' topics load the same, so stored keys with no control have no effect |
| Topics.LoadIdempotent | script.js:17-29 | loading the same slot twice equals loading it once |
| Topics.SaveLoadRoundTrip | script.js:17-44 | with unique topics, saving and then loading onto unchecked controls restores every checked flag |
| Topics.SaveLoadDuplicateKey | script.js:39-42 | an example: the controls [("x", true), ("x", false)] save x := false, and reloading them onto unchecked controls leaves both unchecked |
| Tracker.AfterLoad | script.js:17-33 | loading changes only the controls, and keeps their topics |
| Tracker.AfterSave | script.js:35-48 | a save changes only the slot: overwritten wholesale with the controls' mapping when the write succeeds, unchanged when it throws |
| Tracker.AfterCompletion | script.js:72-77 | afterwards the flag is set; one alert is added exactly when the flag was clear; nothing else changes |
| Tracker.PercentOf | script.js:60-62 | the live percentage is at most 100 |
| Tracker.AfterUpdate | script.js:59-70 | an update redraws fill and label from the live controls, sets the flag when the percentage is 100, and adds an alert exactly when it is 100 and the flag was clear |
| Tracker.AfterChange | script.js:52-55 | the change handler leaves the controls as the user flipped them |
| Tracker.AfterReset | script.js:79-88 | a reset keeps the controls' topics, and changes nothing unless it is confirmed and the removal succeeds; `ConfirmedReset` states the rest |
| Tracker.IsResetShortcut | script.js:104 | the shortcut needs Shift, the exact key string "R", and Ctrl or Cmd |
| Tracker.AfterKeyDown | script.js:103-108 | a key other than the shortcut changes nothing; the shortcut gives exactly the result of a reset with the same answer and removal outcome |
| Tracker.AfterEvent | script.js:52-108 | dispatching a toggle, a direct reset or a key press keeps the controls' topics |
| Tracker.Run | script.js:52-108 | a run of events keeps the controls' number and topics |
| Tracker.Initial | script.js:2-15 | construction keeps the slot and the controls' topics |
| Tracker.UpdateShowsSummary | script.js:60-65 | after an update, the label reads back as (percentage, completed, total) of the live controls and the fill as the percentage |
| Tracker.UpdateIdempotent | script.js:59-77 | a second update with no change in between shows the same and alerts no more |
| Tracker.AlertWithTopicLeft | script.js:61-69 | with 200 or more topics and one unchecked, an update alerts though not all topics are done |
| Tracker.AlertOnSmallPage | script.js:61-69 | below 200 topics, with the flag clear, an update alerts exactly when the page is non-empty and every topic is checked |
| Tracker.ChangePersists | script.js:52-55 | after a toggle whose write succeeds, the slot holds exactly the mapping of the live controls |
| Tracker.DeclinedResetIsNoOp | script.js:79-80 | a declined reset changes nothing, whether called directly or by the shortcut |
| Tracker.FailedResetIsNoOp | script.js:79-81 | a confirmed reset whose `removeItem` throws changes nothing, directly or by the shortcut |
| Tracker.ConfirmedReset | script.js:79-88 | a confirmed reset whose removal succeeds removes the slot, unchecks every control, shows 0% and "0% Complete (0/<t>)", adds no alert and leaves the flag clear |
| Tracker.ReloadAfterReset | script.js:17-29 | reloading after a confirmed reset changes none of the reloaded page's controls, whatever they are |
| Tracker.AlertAgainAfterReset | script.js:67-88 | after a confirmed reset, the first toggle since the reset that brings the page to 100% (the flag still clear) adds exactly one alert over the count before the reset, whatever happened before it |
| Tracker.EventAlerts | script.js:52-88 | every event adds one alert exactly when it sets the flag; only a confirmed reset clears it |
| Tracker.AlertAtMostOnce | script.js:67-77 | over any run of events without a confirmed reset, at most one alert is shown, and none once the flag is set |
| Tracker.InitWithoutProgress | script.js:11-32 | with the slot absent or unusable, construction changes no control and shows their summary |
| Tracker.InitAlerts | script.js:11-15 | construction alerts exactly when the loaded controls show 100% |
| Tracker.ReloadRestoresSaved | script.js:17-44 | with unique topics, a reload after a successful save comes back with exactly the saved configuration |
| Tracker.RoadmapTracker.constructor | script.js:2-15 | construction stores the controls and slot, then loads and updates, as `Initial` |
| Tracker.RoadmapTracker.LoadProgress | script.js:17-33 | the in-place loop leaves the tracker as `AfterLoad` |
| Tracker.RoadmapTracker.SaveProgress | script.js:35-48 | the loop builds `Snapshot` of the controls and stores it when the write succeeds, as `AfterSave` |
| Tracker.RoadmapTracker.OnChange | script.js:51-55 | flip, save, update, in that order, as `AfterChange` |
| Tracker.RoadmapTracker.UpdateProgress | script.js:59-70 | as `AfterUpdate` |
| Tracker.RoadmapTracker.ShowCompletionMessage | script.js:72-77 | as `AfterCompletion` |
| Tracker.RoadmapTracker.ResetProgress | script.js:79-88 | reports whether `removeItem` threw; otherwise the in-place unchecking loop and the update, as `AfterReset` |
| Tracker.OnKeyDown | script.js:103-110 | suppresses the default action exactly for Ctrl/Cmd+Shift+R, then resets the tracker if one exists, and passes on a failed removal |

## Left out

- DOM lookups (`querySelectorAll`, `getElementById`) and listener registration: the controls are an array given to the constructor, and each handler is a method.
- The browser flipping a checkbox before `change` fires: `OnChange` takes the index of the flipped control and flips it first.
- The storage key `python-roadmap-progress` and the `localStorage` API: the model has the one slot stored under that key.
- `JSON.stringify` and `JSON.parse`: a saved mapping is stored as a value, and every unusable read is `Malformed`.
- JavaScript object semantics of the mapping: on loading, a stored value that is truthy but not `true`, an inherited key such as `constructor`, and a payload that is an array or a string indexed by a topic are not modelled; on saving, a topic named `__proto__` hits the prototype setter and is not stored, while the model stores it, so `SaveLoadRoundTrip` assumes no topic is named `__proto__`. Stored values are booleans and keys are own keys.
- Floating-point `Math.round(completed / total * 100)`: modelled as exact rational round-half-up in integers. This can change the percentage shown: in IEEE doubles 23/40·100 is 57.49999999999999, so the page shows 57% where the model gives 58%. The 100% boundary is not affected: no count with completed ≤ total ≤ 1000 differs there.
- `alert` and `confirm` as blocking dialogs and their texts: an alert is a counter increment, and the answer to `confirm` is a parameter.
- `console` logging, and the global `window.pythonTracker`, which `OnKeyDown` takes as a nullable parameter.
- The initial contents of the fill and label elements: they are overwritten by the update in `init`, so the model starts them empty.
- Several tabs writing the same storage entry: a concurrency concern, out of scope.
