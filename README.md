# FitMapp workout records and their storage, in Dafny

FitMapp records runs and rides on a map. The browser script `script.js`
does three things with workouts:

- It builds workout records. `Running` and `Cycling` both extend `Workout`. They share an id, a date, coordinates, a distance in km and a duration in minutes. A run adds its cadence and a pace (`duration / distance`). A ride adds its elevation gain and a speed (`distance / (duration / 60)`). Each record also gets a description label such as "Running on April 14".
- It checks the submitted form before building anything (`_newWorkout`).
- It keeps the list of workouts in the `App` object and mirrors it into `localStorage` under the key `"workouts"`. It reads that key back on page load and removes it on reset.

The project models these three parts:

- `wrappers.dfy` (`Wrappers`): the `Option` type.
- `digits.dfy` (`Digits`): decimal strings of natural numbers, as `Date.now() + ''` produces them. Also `slice(-10)` on such a string, and the arithmetic that says what the last ten digits of a timestamp denote.
- `workout.dfy` (`Workouts`): the workout record as a tagged union, the two constructors, the description label and the id.
  - A parser, `ParseDescription`, reads a label back. It is the partner that shows the label fully determines the type, month and day.
- `validation.dfy` (`Validation`): numbers read from the form (`Finite(r)` or `NonFinite` for NaN and the infinities), `validInputs` and `allPositives`, and the per-type acceptance rule. `CreateFromForm` checks a form and builds the workout.
- `app.dfy` (`Application`): the class `App`. It has the field `workouts: seq<Workout>` and the field `storage: map<string, seq<Workout>>`, which stands for local storage. Its methods are `_newWorkout`, the `find` lookup in `_moveToPopup`, `_setLocalstorage`, `_getLocalStorage` and `reset`. A few client methods replay reload scenarios.

The clock is a parameter. `Instant(millis, month, day)` is what `Date.now()`, `getMonth()` and `getDate()` read when a workout is created. The JSON text in storage is abstracted to the records it encodes. Saving writes the list, and loading gives back exactly that list, field for field.

The model follows the code, including three behaviours a reader might not expect:

- **Ids are not unique.** An id is the last ten decimal digits of the creation time in milliseconds. So two workouts created 10^10 ms (about 115.7 days) apart get the same id. `IdsEqualIff` and `IdsRepeat` prove this. `find` then returns the older of the two (`FindById`).
- **Loading does not rebuild variants or recompute metrics.** `_getLocalStorage` assigns the parsed records directly (script.js:328). Stored pace and speed are therefore kept verbatim, even when they no longer match the stored distance and duration (`LoadKeepsEditedPace`). The variant is only the record's `type` field.
- **Corrupt storage is not recovered.** There is no `try`/`catch` around `JSON.parse`, so no recovery path is modelled. An absent key leaves the list as it was.

## Model

| member | source | states |
|---|---|---|
| `Digits.NatToString` | script.js:7 | `Date.now() + ''` is a non-empty string of decimal digits |
| `Digits.ValueOfNatToString` | script.js:7 | reading the decimal string of a timestamp back gives the timestamp |
| `Digits.NatToStringNoLeadingZero` | script.js:7 | the decimal string starts with '0' only for 0 |
| `Digits.NatToStringLength` | script.js:7 | a decimal string of length L denotes a number below 10^L and, when L > 1, at least 10^(L-1) |
| `Digits.AtLeastDigits` | script.js:7 | for k >= 2, a number has at least k digits exactly when it is at least 10^(k-1) |
| `Digits.Suffix` | script.js:7 | for k >= 1, `slice(-k)` keeps min(k, length) characters, and they are a suffix of the string |
| `Digits.SuffixOfNatToString` | script.js:7 | the last k characters of a decimal string are the last k digits of the number, zero-padded |
| `Digits.ValueOfPadDigits` | script.js:7 | the last k digits, zero-padded, denote the number modulo 10^k |
| `Digits.PadDigitsOfValue` | script.js:7 | a digit string of width k is the zero-padded last k digits of the number it denotes |
| `Digits.PadDigitsEqual` | script.js:7 | two numbers have the same last k digits exactly when they agree modulo 10^k |
| `Workouts.Workout.Type` | script.js:26-54 | the `type` field of the record (the datatype `Workout` with variants `Running` and `Cycling`) is "running" exactly for a run and "cycling" exactly for a ride |
| `Workouts.UpperCase` | script.js:19 | `toUpperCase` on one character: lower-case ASCII letters move to upper case, all else is kept |
| `Workouts.Capitalize` | script.js:19 | the first character is upper-cased when it is a lower-case letter and everything else is kept, length included |
| `Workouts.CapitalizedTypes` | script.js:19 | the capitalised type names are "Running" and "Cycling" |
| `Workouts.CalcPace` | script.js:35-38 | the pace times the distance is the duration |
| `Workouts.CalcSpeed` | script.js:50-53 | the speed times the duration in minutes is 60 times the distance |
| `Workouts.NewRunning` | script.js:26-38 | a run keeps its coordinates, distance, duration and cadence; its type is "running"; its pace is computed once, by `calcPace`; its id and label come from the creation time |
| `Workouts.NewCycling` | script.js:42-53 | a ride keeps its coordinates, distance, duration and elevation; its type is "cycling"; its speed is computed once, by `calcSpeed`; its id and label come from the creation time |
| `Workouts.DerivedMetricsPositive` | script.js:35-53 | with positive distance and duration, a derived pace or speed is positive |
| `Workouts.PaceTimesSpeed` | script.js:35-53 | for the same distance and duration, pace times speed is 60 |
| `Workouts.RunningExample` | script.js:57 | the run 5.2 km in 24 min has pace 60/13, between 4.615 and 4.616 |
| `Workouts.CyclingExample` | script.js:50-53 | the ride 20 km in 60 min has speed 20 |
| `Workouts.IdOf` | script.js:7 | the id has between one and ten characters, all digits, min(10, length) of them, and is a suffix of the timestamp's decimal string |
| `Workouts.IdOfLongTimestamp` | script.js:7 | for a timestamp of ten or more digits, the id is its last ten digits zero-padded and denotes the timestamp modulo 10^10 |
| `Workouts.IdOfShortTimestamp` | script.js:7 | for a timestamp below 10^9, the id is its whole decimal string and reads back as the timestamp |
| `Workouts.IdsEqualIff` | script.js:7 | two timestamps of ten or more digits give the same id exactly when they agree modulo 10^10 |
| `Workouts.IdsRepeat` | script.js:7 | timestamps 10^10 ms apart give the same id |
| `Workouts.MonthIndex` | script.js:17 | partner definition that reads back the label built at script.js:19-21: a month name maps to its zero-based position in the 12-entry table, and a non-name maps to nothing |
| `Workouts.MonthNamesHaveNoSpace` | script.js:17 | no month name in the table contains a space, which lets the partner parser split the label |
| `Workouts.FirstSpace` | script.js:19-21 | partner definition that reads back the label built at script.js:19-21: finds the first space in a string, or reports that there is none |
| `Workouts.FirstSpaceAfter` | script.js:19-21 | partner lemma for reading back the label built at script.js:19-21: in `a + " " + b` with no space in `a`, the first space is right after `a` |
| `Workouts.ParseDateOfRest` | script.js:19-21 | partner lemma for reading back the label built at script.js:19-21: "<Month> <day>" reads back as the zero-based month and the day |
| `Workouts.Describe` | script.js:15-22 | the label starts with the capitalised type and " on ", and ends with a space followed by the plain decimal digits of the day of the month, unpadded; `DescribeParses` states that it determines type, month and day |
| `Workouts.DescribeParses` | script.js:15-22 | the label "<Type> on <Month> <day>" reads back as exactly the type, the zero-based month and the day it was built from |
| `Workouts.PaddedDayRejected` | script.js:21 | partner lemma for the label built at script.js:19-21: after any month name, a day string of two or more characters starting with '0' (such as "April 014") is not read back, since `getDate()` is written without padding |
| `Workouts.DescribeExample` | script.js:15-22 | a run on day 14 of month 3 is labelled "Running on April 14" |
| `Validation.AllFinite` | script.js:158-159 | `validInputs` holds exactly when every input is finite |
| `Validation.AllPositive` | script.js:162 | on finite inputs, `allPositives` holds exactly when every input is > 0 |
| `Validation.Accepts` | script.js:184-202 | a running form is accepted exactly when distance, duration and cadence are finite and > 0; a cycling form exactly when distance and duration are finite and > 0 and the elevation is finite, whatever its sign |
| `Validation.RunningFormBuilds` | script.js:172-190 | a running form with positive numbers builds exactly `new Running` of those numbers at the clicked coordinates |
| `Validation.CyclingFormBuilds` | script.js:195-203 | a cycling form with positive distance and duration and a finite elevation builds exactly `new Cycling` of those numbers at the clicked coordinates |
| `Validation.NegativeElevationAccepted` | script.js:198-202 | a ride with negative elevation and positive distance and duration is accepted |
| `Validation.NonPositiveCadenceRejected` | script.js:184-188 | a run with cadence <= 0 is rejected |
| `Validation.CreateFromForm` | script.js:165-204 | a workout is built exactly when the form is accepted; it has the form's type, numbers and coordinates, positive distance and duration, derived metrics, and the creation time's id and its label |
| `Application.App.constructor` | script.js:73-81 | a new App holds the stored list when the key is present and an empty list otherwise; storage is untouched |
| `Application.App.NewWorkout` | script.js:154-227 | a rejected form leaves list and storage unchanged; an accepted one appends the built workout after the unchanged earlier entries, and the key then holds exactly the whole list |
| `Application.App.FindById` | script.js:303-305 | returns nothing exactly when no workout has the id, and otherwise the first workout in list order that has it |
| `Application.App.MoveToPopup` | script.js:297-308 | a click outside every entry gives nothing; a click on an entry gives the coordinates of the first workout with that id |
| `Application.App.SetLocalStorage` | script.js:318-320 | the key "workouts" is overwritten with the whole list and other keys are kept |
| `Application.App.GetLocalStorage` | script.js:322-329 | with the key absent the list is unchanged; otherwise the list becomes the stored records verbatim |
| `Application.App.Reset` | script.js:337-340 | the key is removed, other keys are kept, and the list is empty |
| `Application.SaveAndReload` | script.js:318-328 | save then reload gives back the same list field for field, pace and speed included |
| `Application.ResetAndReload` | script.js:337-339 | after reset and reload the key is absent and the list is empty |
| `Application.RunAndRideScenario` | script.js:172-226 | a run (5.2 km, 24 min) and a ride (20 km, 60 min) entered and reloaded come back in order, with pace 60/13 and speed 20 |
| `Application.LoadKeepsEditedPace` | script.js:328 | a stored run whose pace was edited is loaded with the edited pace, not a recomputed one |

## Left out

- The map (Leaflet map, tile layer, markers, popups and `setView` panning): these are calls into a foreign library. `MoveToPopup` returns the coordinates it would pan to.
- The geolocation lookup and its `alert`: browser I/O. The rejection `alert` in `_newWorkout` is a `false` result.
- Form handling and HTML rendering (`_showForm`, `_hideForm`, `_toggleElevationField`, `_renderWorkout`, `toFixed(1)`): UI only. `Form` is what the form yields after unary `+`.
- JSON text and the `Date` to ISO-string conversion that `JSON.stringify` applies to `date`: storage holds the records themselves. The only assumption is that parsing the saved text gives back the saved fields.
- `location.reload()`: `Reset` empties the list, which is what the reloaded page holds. `ResetAndReload` replays the reload itself.
- `console.log` calls and the top-level test instance at script.js:57-58. The latter is covered by `RunningExample`.
- IEEE-754 rounding, NaN and Infinity arithmetic: numbers are `real`. Non-finiteness only exists in form input (`Num`).
- `Workouts.CalcPace` and `Workouts.NewRunning` require a non-zero distance. JavaScript would give Infinity or NaN there. Their callers, `_newWorkout` and, for Running, the instance at script.js:57, pass a non-zero distance.
- `Workouts.CalcSpeed` and `Workouts.NewCycling` require a non-zero duration, for the same reason.
- A form type other than running or cycling, where `_newWorkout` pushes `undefined`: `Form` has only the two kinds the form offers.
- `Workouts.UpperCase` upper-cases ASCII letters only, not all of Unicode. The type names it is applied to are ASCII.
- `Date.now()` and `new Date()` are two clock reads, normally in the same millisecond. Nothing bounds the gap between them, and near midnight they can fall on different days. The model takes one reading, `Instant`, whose month and day are not tied to `millis`, so it covers any gap.
- `Digits.Suffix` takes k = 0 to the empty string, where JavaScript's `slice(-0)` gives the whole string. The source only ever takes `slice(-10)`.
- `Digits.NatToString` is the decimal form of a whole number. JavaScript switches to exponent notation from 10^21 on, which a millisecond clock does not reach.
- `Application.App.MoveToPopup`: when no workout has the clicked id, JavaScript throws a TypeError at script.js:308. The model returns nothing instead. Every rendered entry carries the id of a listed workout, so this case does not arise.
