# Mapty workout log: a verified model of its core

Mapty is a single-page browser app. The user clicks a point on a map and fills in a small form.
The app then records a running or cycling workout, shows it as a map marker and a list row,
and saves the list in the browser's local storage. This project models the deterministic core
of `script.js` in Dafny and proves properties of it:

- **Workout records** (`Workouts.dfy`). A record stores coordinates, distance (km) and duration (min).
  It derives a pace (running, min/km) or a speed (cycling, km/h) and builds the description
  "<Type> on <Month> <day>". Its id is the last ten digits of the creation timestamp.
  Records never change after construction, so they are datatype values. The clock is an input:
  `Date.now()` in milliseconds, and the month index and day of `new Date()`.
  All numbers are exact `real`s.
- **Number to text** (`Decimal.dfy`). This module gives the decimal text of an integral Number,
  as `n + ""` and `${n}` print it, and the tail slice `slice(-10)`.
- **Submission validator** (`Validation.dfy`). A form field arrives as the JavaScript Number it
  converts to: a finite real, NaN or an infinity. `Number.isFinite` and `> 0` are modelled
  on that tagged value. `Submit` is the outcome of `_newWorkout`: either the new record, or why
  there is none.
- **Controller state** (`App.dfy`). The `App` class holds the workout list and the pending map
  click. It references two other classes. `Form` is the form's hidden flag, its selected
  workout type and its four numeric inputs. `LocalStore` is the `"workouts"` storage key. Methods model `_showForm`,
  `_hideForm`, `_newWorkout`, `_moveToPopup`, `_getLocalStorage` and `_setLocalStorage`.
  `FindIndex` is the `find` used in the lookup.
- **Sessions** (`Scenarios.dfy`). These methods run the app from page load to a saved workout:
  a run followed by a refused second submission of the emptied form, a page load that restores
  a stored run and locates it, a ride with negative elevation, a run with an empty cadence field,
  and a submission before any map click.

In three places the code behaves differently from what its state-machine reading suggests, and the model follows the code:

- `_hideForm` does not clear the pending map click. After a successful submission, the old click
  stays pending (the form is hidden, not returned to an empty state).
- `_newWorkout` reads the pending click's coordinates before it validates anything. With no click,
  it throws before the validation alert, so `NoPendingClick` takes precedence over
  `InvalidInput`.
- The form is hidden at once. Only its `display` style is restored after four seconds.

## Model

| member | source | states |
|---|---|---|
| `Decimal.NatToDecimal` | script.js:13 | the text of a timestamp is non-empty, all digits, has no leading zero, and has enough digits to hold the number |
| `Decimal.Suffix` | script.js:13 | for k ≥ 1 (the source uses k = 10), `slice(-k)` keeps the last k characters, or the whole string when it is shorter |
| `Decimal.DecimalRoundTrip` | script.js:28 | reading back the decimal text of a number gives that number |
| `Decimal.SuffixValue` | script.js:13 | the last k characters of a number's decimal text are digits and spell the number modulo 10^k |
| `Workouts.Upper` | script.js:26 | `toUpperCase` on one character maps a-z to A-Z and keeps every other character |
| `Workouts.Capitalize` | script.js:26 | the capitalised type keeps its length and its tail, and upper-cases its first character |
| `Workouts.Pace` | script.js:46-50 | pace times distance gives back the duration |
| `Workouts.Speed` | script.js:62-65 | speed times duration gives back 60 times the distance |
| `Workouts.NewRunning` | script.js:36-44 | a constructed running record is of type running, stores the given coords, distance, duration and cadence, takes id and date from the clock, and is well formed: its pace is `Pace` of its distance and duration, its description is built from its type and date, and clicks is 0 |
| `Workouts.NewCycling` | script.js:53-60 | a constructed cycling record is of type cycling, stores the given coords, distance, duration and elevation gain, takes id and date from the clock, and is well formed: its speed is `Speed` of its distance and duration, its description is built from its type and date, and clicks is 0 |
| `Workouts.CalcPaceAgrees` | script.js:46-50 | calling `calcPace` on a well-formed running record returns the pace it already stores, and that pace times the distance is the duration |
| `Workouts.CalcSpeedAgrees` | script.js:62-65 | calling `calcSpeed` on a well-formed cycling record returns the speed it already stores, and that speed times the duration is 60 times the distance |
| `Workouts.DescriptionText` | script.js:22-29 | `Description` (`_setDescription`): the description is "Running" or "Cycling", then " on ", then the month name from the table, then " ", then the day |
| `Workouts.MonthNamesDistinct` | script.js:24 | no two entries of the month table `Months` are equal |
| `Workouts.MonthRoundTrip` | script.js:24-27 | `MonthName` (`months[getMonth()]`) is invertible: looking a month's name up in the table gives back its index |
| `Workouts.DescriptionRoundTrip` | script.js:22-29 | `Description` loses nothing: parsing a description gives back exactly the type and calendar date it was built from |
| `Workouts.DescriptionInjective` | script.js:22-29 | two equal descriptions have the same type, month and day |
| `Workouts.IdShape` | script.js:13 | `WorkoutId`: an id is 1 to 10 decimal digits, and exactly 10 once the timestamp reaches 10^9 |
| `Workouts.IdValue` | script.js:13 | `WorkoutId`: an id spells the creation timestamp modulo 10^10 |
| `Workouts.IdsDistinct` | script.js:13 | `WorkoutId`: records created less than 10^10 ms apart get different ids |
| `Validation.ValidInputs` | script.js:148-149 | `validInputs` holds exactly when every input is finite (`Number.isFinite`) |
| `Validation.AllPositive` | script.js:151-152 | `allPositive` holds exactly when every input compares greater than zero |
| `Validation.NumberTests` | script.js:148-152 | NaN is neither finite nor positive; +Infinity is positive but not finite; -Infinity is neither; a Number passes both tests exactly when it is a finite real above zero |
| `Validation.RunningInputAccepted` | script.js:171-172 | the running guard passes exactly when distance, duration and cadence are all finite and all above zero |
| `Validation.CyclingInputAccepted` | script.js:189-190 | the cycling guard passes exactly when all three fields are finite and distance and duration are above zero; elevation may be zero or negative |
| `Validation.Submit` | script.js:146-198 | with no pending click the submission fails before any check; otherwise it succeeds exactly under the branch's guard; a new record carries the pending click's coordinates, the submitted numbers, the kind's metric and the clock's id and date, and is well formed |
| `Validation.ClearedInputsRefused` | script.js:133-140 | once `_hideForm` has emptied the inputs, submitting again (the old click still pending) is refused for either type |
| `Mapty.Form.constructor` | script.js:3-9 | the form shows the given type with every input empty, so each input reads as 0 |
| `Mapty.LocalStore.constructor` | script.js:304-311 | the `"workouts"` key holds exactly the given saved list, or nothing |
| `Mapty.FindIndex` | script.js:289-291 | the result is the first position whose id matches, and None exactly when no record has that id |
| `Mapty.FindIndexOfDistinct` | script.js:289-291 | when ids are distinct, looking a record up by its own id finds that record |
| `Mapty.FindIndexAppend` | script.js:289-291 | after an append, a lookup still finds the earlier first match; otherwise it finds the new record if its id matches |
| `Mapty.App.constructor` | script.js:79-90 | a new app has no pending click, and its list is what is stored, or empty when nothing is stored |
| `Mapty.App.GetLocalStorage` | script.js:308-318 | with nothing stored the list is kept; otherwise the stored list replaces it wholesale |
| `Mapty.App.SetLocalStorage` | script.js:304-306 | the stored list becomes the current list |
| `Mapty.App.ShowForm` | script.js:127-131 | the click replaces any earlier pending click and the form becomes visible; the list is unchanged |
| `Mapty.App.HideForm` | script.js:133-140 | all four inputs become empty (each then reads as 0) and the form is hidden; the selected type and the pending click are untouched |
| `Mapty.App.NewWorkout` | script.js:146-211 | the outcome is `Submit` on the pending click, the form's selected type, its distance and duration, and its cadence (running) or elevation (cycling) input; success appends exactly that record at the end and leaves the earlier records unchanged, clears and hides the form, and saves the list; failure changes neither the list, the form nor the store; the well-formedness of every record is preserved |
| `Mapty.App.MoveToPopup` | script.js:283-302 | a click outside a row gives no re-centring; a click on a row centres on the coordinates of the first record with the row's id, and on nothing when no record has it |
| `Scenarios.April3Description` | script.js:22-29 | a run created on April 3 is described "Running on April 3" |

## Left out

- The map widget (map creation, tile layer, markers, popups, `setView` and the zoom level) is a foreign library. `MoveToPopup` returns the coordinates the map would centre on.
- Geolocation and its failure alert are an asynchronous browser API.
- DOM rendering (`_renderWorkout`, `_renderWorkoutMarker`, `_toggleElevationField`, focusing the distance input, `toFixed(1)`) is presentation only.
- The timer that restores the form's `display` style after four seconds is timer-driven UI.
- JSON serialisation is treated as identity. The stored list is an `Option<seq<Workout>>`. `JSON.parse` turning the `Date` into a string, and records losing their prototype, are not modelled.
- `reset` (removing the key and reloading the page) is a developer console utility that reloads the browser.
- Converting field text to a Number with unary `+` is JavaScript semantics. The text of an input is not modelled: each `Form` input holds the tagged Number it converts to, and an empty input is `Finite(0.0)`.
- The workout type comes from a two-option selector, so it is a two-valued datatype. A third value, which would push `undefined`, cannot arise from the form.
- `Workout.click()` increments the method instead of `clicks`, and its only call is commented out. Records keep `clicks` at 0.
- Numbers are exact reals. IEEE rounding, negative zero, and numbers of 10^21 and above (which JavaScript prints in exponent form) are not modelled.
- `Workouts.Upper` handles the letters a-z only. The only types it is applied to are "running" and "cycling".
- `Workouts.NewRunning` requires a non-zero distance and `Workouts.NewCycling` a non-zero duration, because real division by zero is undefined. JavaScript would give Infinity or NaN, but the only caller passes positive values.
- The commented-out starter code is not modelled.
