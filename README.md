# Mapty workouts: the record model and the controller's list operations

Mapty is a browser widget for logging workouts. The user clicks a spot on a
map and fills in a form: running (distance, duration, cadence) or cycling
(distance, duration, elevation gain). The app keeps the workouts in the
`App` controller's private `#workouts` array. It mirrors that array into
`localStorage` after every change and rebuilds it on page load.

This project models that core in Dafny:

- `text.dfy` (`Text`) holds the string pieces of a description: the
  upper-cased first letter and the decimal day, with a parser that reads the
  day back.
- `workout.dfy` (`Workouts`) holds the record: `Workout` is a tagged datatype,
  `Running(base, cadence, pace)` or `Cycling(base, elevationGain, speed)`.
  `Base` carries the shared fields (date, id, clicks, coords, distance,
  duration, description). This file also holds the constructors, `calcPace`,
  `calcSpeed`, `_setDescription`, `click()` and the field overwrite an edit
  performs. The derived fields are computed only by the constructors.
- `validation.dfy` (`Validation`) holds the check `_newWorkout` applies to
  the coerced form numbers. `Num` is a JavaScript number: finite, NaN or
  ±Infinity.
- `storage.dfy` (`Storage`) holds what is stored and how `_getLocalStorage`
  dispatches on the `type` tag. A stored entry is an abstract plain record;
  JSON text is not modelled.
- `app.dfy` (`Mapty`) holds the list operations as functions (`filter`,
  `find`) and the class `App`. `App` has the fields `workouts` (the array)
  and `stored` (the `workouts` key of `localStorage`). Its methods are the
  handlers: load, new workout, the popup lookup, edit, delete, reset and
  page reload. Every handler that changes the list or the storage ends with
  the stored list equal to the in-memory list (`Persisted()`). A handler that
  changes nothing, and a failed `Load`, leave both as they were.

The clock is a parameter: `Date.now()` gives the id and `new Date()` gives
the (month, day) pair. Both are inputs of the constructors.

## Model

| member | source | states |
|---|---|---|
| `Text.Capitalize` | script.js:18 | a lower-case ASCII first letter becomes the matching capital (code point minus 32); any other first character stays as it is; the rest of the string and its length are unchanged |
| `Text.NatToString` | script.js:20 | the day is written as at least one decimal digit, with no leading zero unless it is 0 |
| `Text.DecimalRoundTrip` | script.js:18-20 | reading the day's text back as a number gives the day, so different days give different text |
| `Workouts.Description` | script.js:14-21 | the description starts with the capitalised type, followed by " on ", and ends with the day in decimal |
| `Workouts.Pace` | script.js:37-40 | pace times distance equals duration; pace is positive when distance and duration are |
| `Workouts.Speed` | script.js:52-55 | speed times duration equals 60 times distance (km/h from minutes); speed is positive when distance and duration are |
| `Workouts.NewRunning` | script.js:28-35 | a new running workout has the given coords, distance, duration, cadence, id and date; zero clicks; the description of "running"; and a pace with pace × distance = duration, positive for positive inputs |
| `Workouts.NewCycling` | script.js:43-50 | a new cycling workout has the given fields and elevation gain; zero clicks; the description of "cycling"; and a speed with speed × duration = 60 × distance, positive for positive inputs |
| `Workouts.Click` | script.js:23-25 | `click()` raises `clicks` by exactly one and changes no other field |
| `Workouts.Overwrite` | script.js:376-384 | an edit keeps the variant; it sets distance and duration, plus cadence (running) or elevation gain (cycling); every other base field (description included) and the pace or speed keep their old values |
| `Workouts.DescriptionFormat` | script.js:14-21 | the description is "Running" or "Cycling", " on ", the month name at `getMonth()`, " ", the day |
| `Workouts.DescriptionExample` | script.js:14-21 | a run on 5 March is described as "Running on March 5" |
| `Workouts.DescriptionDetermines` | script.js:14-21 | two equal descriptions come from the same type, month and day |
| `Workouts.MetricExamples` | script.js:58-59 | the sample run (5.2 km, 24 min) has pace 60/13 ≈ 4.615; the sample ride (27 km, 95 min) has speed 324/19 ≈ 17.05 |
| `Workouts.EditLeavesPaceStale` | script.js:376-384 | after an edit the pace no longer matches the distance and duration: a 5 km / 25 min run edited to 10 km keeps pace 5 |
| `Validation.AllFinite` | script.js:151-152 | `validateInputs` holds exactly when no input is NaN or an infinity |
| `Validation.AllPositive` | script.js:154 | `allPositive` fails on NaN and on negative infinity; over finite inputs it holds exactly when every value is greater than zero |
| `Validation.RunningInputsValid` | script.js:151-154 | the running check passes exactly when distance, duration and cadence are all finite and all greater than zero |
| `Validation.CyclingInputsValid` | script.js:187-190 | the cycling check passes exactly when all three inputs are finite and distance and duration are greater than zero; elevation may be any finite number |
| `Validation.FormValid` | script.js:166-194 | a form that passes its type's check has finite, positive distance and duration |
| `Validation.ElevationNeedNotBePositive` | script.js:184-193 | a zero or negative elevation with positive distance and duration passes the cycling check; the same number as a cadence fails the running check |
| `Storage.ToRecord` | script.js:309 | a stored workout keeps its shared fields; the tag is "running" or "cycling" by variant; it also carries the cadence and pace, or the elevation gain and speed |
| `Storage.Serialize` | script.js:308-310 | the stored list has one record per workout, in list order |
| `Storage.Retag` | script.js:317-322 | a record becomes a workout exactly when its tag is "running" or "cycling"; the variant matches the tag and the workout stores back as the same record; any other tag gives `undefined` |
| `Storage.RetagAll` | script.js:316-323 | the `map` keeps the length and order; entry i is record i re-tagged |
| `Storage.Restore` | script.js:312-327 | loading yields a list exactly when every tag is known; storing that list again gives the records back |
| `Storage.RetagToRecord` | script.js:316-323 | re-tagging a stored workout gives the same workout |
| `Storage.RestoreSerialize` | script.js:308-323 | storing a list and loading it gives back the same list, entry for entry |
| `Mapty.Submit` | script.js:150-194 | a workout is built exactly when the form passes its type's check; it has the form's type and values, the given id, coords and date, zero clicks and the type's description; its pace or speed is positive and consistent with distance and duration |
| `Mapty.WithoutId` | script.js:401 | the kept entries are exactly the entries whose id differs from the target; the list never grows |
| `Mapty.WithoutIdSingle` | script.js:401 | a one-entry list keeps its entry exactly when the entry's id differs from the target |
| `Mapty.WithoutIdConcat` | script.js:401 | filtering a concatenation concatenates the filtered parts; with the one-entry case, this means every kept entry stays, as often as it occurs, in its original order, even when ids repeat |
| `Mapty.WithoutIdKeepsDuplicates` | script.js:401 | with a repeated entry, `[a, b, a]` without `b`'s id is `[a, a]`: both copies stay |
| `Mapty.FindById` | script.js:295 | the lookup finds nothing exactly when no entry has the id; otherwise it returns the first entry with that id |
| `Mapty.WithoutIdAbsent` | script.js:399-401 | deleting an id no entry has leaves the list unchanged |
| `Mapty.WithoutIdRemovesOne` | script.js:399-401 | with unique ids, deleting entry k's id removes entry k and keeps the others in their order |
| `Mapty.DeleteLength` | script.js:399-401 | with unique ids, a delete shortens the list by one when the id is present and leaves it unchanged when it is absent |
| `Mapty.App.constructor` | script.js:74 | the list starts empty; the storage holds what an earlier session left |
| `Mapty.App.Load` | script.js:312-323 | with nothing stored, nothing changes; otherwise the list becomes the re-tagged records when every tag is known (and then equals the stored list), and loading fails when a tag is unknown |
| `Mapty.App.NewWorkout` | script.js:150-211 | an invalid form leaves the list and the storage unchanged; a valid one appends exactly the built workout at the end, keeps earlier entries, and stores the new list |
| `Mapty.App.MoveToPopup` | script.js:287-302 | the map is re-centred exactly when some entry has the clicked id, on the coords of the first such entry |
| `Mapty.App.EditTargets` | script.js:343-365 | the `forEach` picks exactly the indices whose entry has the clicked id, in increasing order, and at most one when ids are unique |
| `Mapty.App.UpdateWorkout` | script.js:368-394 | the entry at the index is overwritten by the edit, every other entry is unchanged, and the list is stored |
| `Mapty.App.EditWorkout` | script.js:330-394 | every entry with the id gets the edit and entries with other ids are untouched; the list is stored when some entry matched, and the storage is unchanged otherwise |
| `Mapty.App.DeleteWorkout` | script.js:396-405 | the list becomes the filtered list, and it is stored |
| `Mapty.App.Reset` | script.js:407-412 | the list is empty and the stored key is removed |
| `Mapty.App.Reload` | script.js:76-81 | reloading the page loads what was stored: it succeeds exactly when nothing is stored or every stored tag is known, and the new list is then empty or the re-tagged records; when the storage equals the in-memory list, loading succeeds and gives back the same list |

## Left out

- The DOM is not modelled: form and list rendering, HTML templates, class toggling and the delayed re-display of the form (script.js:61-68, 122-148, 231-285). This is presentation with no state the list depends on.
- The Leaflet map calls and the geolocation callback are not modelled (script.js:92-120, 213-229, 297-302). These are foreign library calls and asynchronous I/O.
- `JSON.stringify`, `JSON.parse` and the `localStorage` calls themselves are not modelled. Storage is a field holding an abstract record list, and `location.reload` is modelled by `App.Reload`.
- `Date.now()` and `new Date()` are not modelled: the id string and the (month, day) pair are parameters.
- `toFixed` rounding and the `+value` string coercion are not modelled. Arithmetic is over `real`, and `Num` stands for a coerced number that is finite, NaN or infinite.
- The capture-phase submit listener that each edit adds and never removes is not modelled (script.js:369-393). Neither are the other handlers that the same submit event reaches.
- `Mapty.App.NewWorkout`: the form's type is one of the two values the selector offers. The source would push `undefined` for any other value and then throw while rendering; the model does not represent that.
- `Mapty.App.Load`: with an unknown tag the source puts `undefined` into the list and then throws while rendering it. The model reports failure and keeps the previous list.
- `Mapty.App.MoveToPopup`: the early returns for a missing map or a click outside a list item are DOM checks and are not modelled. When no entry has the id, the source throws on `workout.coords`; the model returns `None`.
- `Workouts.Overwrite`: the edit inputs are finite reals, so an edit that coerces to NaN or to an infinity is not represented. The `type` written back is the entry's own type (the disabled selector shows it), so the variant is kept. With colliding ids, the last match's type would be written to every match; the model does not capture that.
- `Workouts.NewRunning`: requires a non-zero distance and `Workouts.NewCycling` a non-zero duration, because division is over `real`. `_newWorkout` calls them only after its check passes. `_getLocalStorage` also calls `new Running()` and `new Cycling()` without arguments (script.js:319, 321), so pace or speed is first computed from `undefined` as NaN; `Object.assign` then overwrites every field from the stored record. `Storage.Retag` therefore builds the variant directly from the record and does not go through these constructors. Division by zero (an IEEE infinity) is not modelled.
- `Text.Capitalize`: models `toUpperCase` on ASCII letters only. Outside ASCII the source may change length (`'ß'.toUpperCase()` is `"SS"`); the type names it is applied to are "running" and "cycling".
- Aliasing is not modelled: workouts are values, and only the list refers to them.
