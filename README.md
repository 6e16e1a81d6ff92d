# Fitness voice diary: list and validation core in Dafny

This project models the logic under the views of a workout-logging web app. The app has
three pieces of non-view logic:

- **The workout editor dialog** (`VoiceRecorder`). It holds a working list of exercise sets.
  Rows can be added, edited field by field and deleted. A voice-extraction result can replace
  the list. On save, the title and the rows are validated and a workout draft is handed over.
  Two flags, `isRecording` and `isProcessing`, drive the recording lifecycle
  (idle, recording, processing, back to idle).
- **The main page's workout list** (`Index`). Workouts are kept in insertion order. The page
  adds a saved draft under a new id and timestamp and deletes by id. It lists the workouts of
  the selected date, counts them all, and counts those newer than a one-week cutoff.
- **The recording clock label** (`formatTime`). It shows whole seconds as `m:ss`. The same
  definition appears twice, in `src/components/VoiceRecordingControls.tsx:23-27` and in
  `src/components/VoiceRecorder.tsx:219-223`; one Dafny function models both.

Modules:

- `Seqs` holds JavaScript's `Array.prototype.filter`, proved once. Every `.filter` of the app
  uses it: deleting a row, the valid-set filter, deleting a workout, the date filter and the
  weekly count.
- `Text` holds `String.prototype.trim` over the code points ECMAScript calls WhiteSpace or
  LineTerminator.
- `WorkoutTypes` holds the records.
- `VoiceRecorder` holds the editor: pure list functions plus the class `Recorder`.
- `IndexPage` holds the workout list: pure queries plus the class `WorkoutLog`.
- `VoiceRecordingControls` holds `formatTime`.

Inputs the app draws from the outside world are parameters here:

- new ids (`crypto.randomUUID`), with a freshness precondition;
- timestamps (`Date.now`);
- the one-week cutoff, as a millisecond number;
- whether the microphone was granted;
- the extraction service's response, whose sets are taken to carry distinct ids (each is made
  with `crypto.randomUUID`); the editor's unique-id invariant rests on this.

Dates are the opaque `yyyy-MM-dd` strings the page compares.

Behaviours of the code a reader might not expect:

- Deleting a row does not itself refuse to delete the last row. Only the view hides the delete
  button when there is one row. `WithoutSetRemovesOne` and `Recorder.DeleteSet` prove that,
  under that guard and with unique ids, a row always remains.
- A successful extraction installs the returned sets with the ids they carry. They are not
  re-identified.
- A successful response whose `sets` is an empty array still replaces the list, because an
  empty array is truthy in JavaScript. A later save then fails with `NoExerciseSets`.
- An error text that is empty counts as missing, because `error || "Enter Valid query"`
  treats `""` as falsy.
- Saving requires a non-blank title. There is no title derived from the date.
- `reps` is an `int`, not a `nat`. `parseInt(value) || 0` can produce a negative count, and
  such a set is simply invalid.

## Model

| member | source | states |
|---|---|---|
| `Seqs.Filter` | src/pages/Index.tsx:56 | `filter` keeps at most the input's length and only elements that pass the predicate |
| `Seqs.FilterCounts` | src/pages/Index.tsx:48 | `filter` keeps every occurrence of a passing element and no occurrence of a failing one, so membership is exactly "in the input and passes" |
| `Seqs.FilterIsSubseq` | src/pages/Index.tsx:56 | `filter` never reorders: its result is a subsequence of its input |
| `Seqs.FilterAppend` | src/pages/Index.tsx:56 | filtering a concatenation is the concatenation of the filtered parts |
| `Seqs.FilterKeepsAll` | src/pages/Index.tsx:48 | when every element passes, `filter` returns its input unchanged |
| `Seqs.FilterEmptyIff` | src/components/VoiceRecorder.tsx:197-201 | the filtered list is empty exactly when no element passes |
| `Seqs.FilterRemovesOne` | src/components/VoiceRecorder.tsx:58 | when only the element at `i` fails, `filter` removes exactly that element |
| `Seqs.FilterMonotone` | src/pages/Index.tsx:62 | a weaker predicate keeps at least as many elements |
| `Seqs.FilterUniqueKeys` | src/pages/Index.tsx:48 | filtering a list whose ids are unique leaves the ids unique |
| `Text.Trim` | src/components/VoiceRecorder.tsx:179-212 | `s.trim()` is never longer than `s`, and a non-empty result starts and ends with a non-whitespace character |
| `Text.BlankIff` | src/components/VoiceRecorder.tsx:198 | a field is blank (its trim is falsy) exactly when it holds no non-whitespace character |
| `Text.TrimEmptyIff` | src/components/VoiceRecorder.tsx:179 | `s.trim()` is empty (falsy) exactly when every character of `s` is JavaScript whitespace |
| `Text.TrimSlice` | src/components/VoiceRecorder.tsx:212 | `s.trim()` is a contiguous slice of `s`, and everything cut off before and after it is whitespace |
| `Text.TrimIdempotent` | src/components/VoiceRecorder.tsx:212 | trimming an already trimmed title changes nothing, so the saved title is blank-free at both ends |
| `WorkoutTypes.ValidSetIff` | src/components/VoiceRecorder.tsx:197-198 | the set validity check holds exactly when name, muscle group and weight each contain a non-whitespace character and reps > 0 |
| `VoiceRecorder.CreateEmptySet` | src/components/VoiceRecorder.tsx:39-45 | a new row carries the given id, empty name, muscle group and weight and zero reps, and therefore never passes the save filter |
| `VoiceRecorder.ApplyEdit` | src/components/VoiceRecorder.tsx:53 | `{ ...set, [field]: value }` sets the edited field to the value and leaves the id and every other field as they were |
| `VoiceRecorder.UpdatedSets` | src/components/VoiceRecorder.tsx:51-55 | `updateSet` keeps the length, the order and every id; rows with another id are untouched; rows with that id get the edit |
| `VoiceRecorder.UpdatedSetsAbsent` | src/components/VoiceRecorder.tsx:51-55 | an edit for an id that no row has is a no-op |
| `VoiceRecorder.WithoutSet` | src/components/VoiceRecorder.tsx:57-59 | `deleteSet` removes every row with that id and keeps every other row, as often as before and in order |
| `VoiceRecorder.WithoutSetAbsent` | src/components/VoiceRecorder.tsx:57-59 | deleting an id that no row has is a no-op |
| `VoiceRecorder.WithoutSetRemovesOne` | src/components/VoiceRecorder.tsx:341-350 | with unique ids, deleting a row's id removes exactly that row; when the delete button is shown (more than one row), a row remains |
| `VoiceRecorder.ValidSets` | src/components/VoiceRecorder.tsx:197-199 | the valid-set filter keeps exactly the rows with non-blank name, muscle group and weight and reps > 0, in order; it is empty exactly when no row is valid |
| `VoiceRecorder.Finalize` | src/components/VoiceRecorder.tsx:178-217 | `handleSave` fails in its order of checks: blank title, then empty list, then no valid row; otherwise the draft carries the date, the trimmed non-blank title and exactly the valid rows in their order |
| `VoiceRecorder.FailureMessage` | src/components/VoiceRecorder.tsx:158 | the shown error is never empty: it is the response's error text when that is non-empty, and "Enter Valid query" otherwise |
| `VoiceRecorder.Recorder.StartEnabled` | src/components/VoiceRecorder.tsx:257-261 | the record button is rendered and enabled exactly in the idle phase (neither recording nor processing) |
| `VoiceRecorder.Recorder.SaveEnabled` | src/components/VoiceRecorder.tsx:411-414 | while the two flags are not both set, the save button is enabled exactly when the dialog is not in the processing phase |
| `VoiceRecorder.Recorder.DeleteOffered` | src/components/VoiceRecorder.tsx:341 | when the delete buttons are rendered and row ids are unique, deleting any row leaves the list non-empty |
| `VoiceRecorder.Recorder.constructor` | src/components/VoiceRecorder.tsx:225-230 | a freshly opened dialog is idle, shows one blank row, an empty title, a zero clock and no error |
| `VoiceRecorder.Recorder.AddNewSet` | src/components/VoiceRecorder.tsx:47-49 | appends exactly one blank row with a fresh id; earlier rows are unchanged and in order; row ids stay unique |
| `VoiceRecorder.Recorder.UpdateSet` | src/components/VoiceRecorder.tsx:51-55 | the list becomes `UpdatedSets` of the old list; it is unchanged when no row has the id; ids stay unique |
| `VoiceRecorder.Recorder.DeleteSet` | src/components/VoiceRecorder.tsx:57-59 | the list becomes `WithoutSet` of the old list; if the delete button was shown, the list is not empty afterwards |
| `VoiceRecorder.Recorder.EditTitle` | src/components/VoiceRecorder.tsx:317 | the title input replaces the title and nothing else |
| `VoiceRecorder.Recorder.StartRecording` | src/components/VoiceRecorder.tsx:61-97 | from idle, with the microphone granted, it enters recording with the clock at 0 and the error cleared; when the microphone is refused, nothing changes |
| `VoiceRecorder.Recorder.Tick` | src/components/VoiceRecorder.tsx:82-84 | while recording, each interval firing adds one second to the clock |
| `VoiceRecorder.Recorder.StopRecording` | src/components/VoiceRecorder.tsx:99-112 | acts only while recording: recording ends, processing starts and the error is cleared; otherwise nothing changes |
| `VoiceRecorder.Recorder.CompleteProcessing` | src/components/VoiceRecorder.tsx:150-166 | a success carrying sets replaces the whole list and sets the title "Voice Workout Session"; anything else keeps list and title and shows a non-empty error; processing always ends (idle) |
| `VoiceRecorder.Recorder.HandleSave` | src/components/VoiceRecorder.tsx:411-416 | saving is reachable only while not processing; its outcome is `Finalize` of the current date, title and rows |
| `IndexPage.NewWorkout` | src/pages/Index.tsx:34-38 | the stored workout carries exactly the draft's date, title and sets, plus the given id and timestamp |
| `IndexPage.TotalWorkouts` | src/pages/Index.tsx:58 | the total counts every stored workout, each as often as it is stored, and is 0 exactly for an empty list |
| `IndexPage.WithoutWorkout` | src/pages/Index.tsx:47-49 | `deleteWorkout` removes every workout with that id and keeps every other workout, as often as before and in stored order |
| `IndexPage.WithoutWorkoutAbsent` | src/pages/Index.tsx:47-49 | deleting an id that no workout has is a no-op |
| `IndexPage.WithoutWorkoutRemovesOne` | src/pages/Index.tsx:47-49 | with unique ids, deleting a stored workout's id removes exactly that workout, and the total drops by one |
| `IndexPage.TodaysWorkouts` | src/pages/Index.tsx:55-56 | the day's list is exactly the workouts whose date equals the selected date string, each as often as stored, in stored order |
| `IndexPage.RecentWorkouts` | src/pages/Index.tsx:59-63 | the weekly filter keeps exactly the workouts with timestamp >= cutoff |
| `IndexPage.ThisWeekWorkouts` | src/pages/Index.tsx:58-63 | the weekly count never exceeds the total count |
| `IndexPage.ThisWeekMonotone` | src/pages/Index.tsx:59-63 | a later cutoff never yields a larger weekly count |
| `IndexPage.AddThenDeleteRestores` | src/pages/Index.tsx:33-49 | adding a workout under a fresh id and then deleting that id restores the previous list |
| `IndexPage.AddWorkoutCounts` | src/pages/Index.tsx:33-58 | adding raises the total by one; the new workout is appended to its own date's list; every other date's list is unchanged |
| `IndexPage.SavedWorkoutIsListed` | src/pages/Index.tsx:173-178 | a workout saved from the editor appears last in its date's list, and each of its sets is valid |
| `IndexPage.WorkoutLog.constructor` | src/pages/Index.tsx:16-18 | the page starts with no workouts, the given day selected and the editor closed |
| `IndexPage.WorkoutLog.SelectDate` | src/pages/Index.tsx:123 | a picked day becomes the selected date; a cleared pick leaves the selection as it was |
| `IndexPage.WorkoutLog.SetEditorOpen` | src/pages/Index.tsx:135 | the add button opens the editor and its close handler closes it |
| `IndexPage.WorkoutLog.AddWorkout` | src/pages/Index.tsx:33-45 | appends exactly one workout with the draft's fields, the fresh id and the given timestamp; earlier workouts are unchanged; the total rises by one; ids stay unique; the editor closes |
| `IndexPage.WorkoutLog.DeleteWorkout` | src/pages/Index.tsx:47-53 | the list becomes `WithoutWorkout` of the old list; it is unchanged when the id is absent; ids stay unique |
| `VoiceRecordingControls.NatToString` | src/components/VoiceRecordingControls.tsx:26 | `toString` of a non-negative integer below 10^21 (above which JavaScript switches to exponent notation) gives decimal digits without leading zeros ("0" is the only result starting with '0') that denote the number; below 10 it is one digit, below 100 at most two |
| `VoiceRecordingControls.PadStart` | src/components/VoiceRecordingControls.tsx:26 | `padStart` reaches the width (or keeps a longer string), ends with the original string and fills the front with the pad character |
| `VoiceRecordingControls.TwoDigitSeconds` | src/components/VoiceRecordingControls.tsx:25-26 | a seconds value below 60 is shown as exactly two digits that denote it, with a leading '0' exactly when it is below 10 |
| `VoiceRecordingControls.FormatTime` | src/components/VoiceRecordingControls.tsx:23-27 | the label is `<minutes>:<ss>` with a single ':'; the minutes are written without leading zeros ("0" is the only numeral starting with '0') and denote `seconds / 60`; `ss` is two digits denoting `seconds % 60` (< 60), with a leading '0' below 10 |
| `VoiceRecordingControls.FormatTimeRoundTrip` | src/components/VoiceRecordingControls.tsx:24-25 | reading the label back, minutes * 60 + seconds equals the input |
| `VoiceRecordingControls.FormatTimeInjective` | src/components/VoiceRecordingControls.tsx:23-27 | two different elapsed times never show the same label |

## Left out

- Rendering, styling, icons and `toast` notifications in every file. They are presentation.
- `src/components/WorkoutCard.tsx` and `src/components/ExerciseSetForm.tsx`. They only render
  props and forward callbacks whose logic is modelled above. `WorkoutCard` reads
  `workout.exercises.length` unguarded (`src/components/WorkoutCard.tsx:38` and `:101`), a field of
  the older type that a workout made by `addWorkout` from a saved draft does not carry; read as
  text, the card of every saved workout would fail when the day's list shows it.
- Loading and saving the workout list in `localStorage` with `JSON.parse`/`JSON.stringify`
  (`src/pages/Index.tsx:21-31`). This is browser I/O. `WorkoutLog.constructor` starts from an
  empty list.
- Microphone and `MediaRecorder` handling, the recorded `Blob`, `playAudio` and the teardown
  effect. This is device I/O. `StartRecording` takes "the microphone was granted" as a boolean.
- `StartRecording`: the click and the resolution of the awaited `getUserMedia` are one atomic
  step here. In the code (`src/components/VoiceRecorder.tsx:61-97`) nothing guards the await:
  the record button stays enabled while permission is pending, so a second click runs the
  handler twice. That makes a second `MediaRecorder` and a second interval, of which
  `stopRecording` clears only the one stored last, so the clock keeps counting after a stop; and
  a grant resolving after a stop sets `isRecording` while `isProcessing` is still set. The model
  has no pending-permission state, so `Recorder.Valid`'s "never recording and processing at once"
  holds for the atomic model only, not for these interleavings.
- The one-second `setInterval` and the two-second `setTimeout`. These are timers. `Tick` and
  `CompleteProcessing` are the callbacks themselves, and the model does not measure time.
- `Math.random` and the hard-coded mock sets. `CompleteProcessing` takes the response as a
  parameter.
- `crypto.randomUUID`, `Date.now`, the date-fns `format` of the selected `Date`, and the
  `Date` arithmetic for "one week ago". Ids, timestamps, the date string and the cutoff are
  parameters.
- The `parseInt(...) || 0` conversion of the reps input. An edit carries the resulting integer.
- Updating the `id` field through `updateSet`. The view never does this, so `Edit` covers only
  the four editable fields.
- The older `Workout` type declared in `src/types/workout.ts`, with free-text description,
  duration and exercise lists. The code modelled here does not use it.
- `FormatTime`: seconds are a `nat`. The clock only ever counts up from 0, so the JavaScript
  results for negative or fractional seconds are not modelled. Nor are values at or above 2^53
  seconds, where JavaScript numbers lose integer precision in `seconds % 60` and
  `Math.floor(seconds / 60)` (and `toString` uses exponent notation from 10^21); the clock cannot
  reach them.
- UTF-16 code units. Strings are sequences of Unicode scalar values, which agrees with
  JavaScript for every whitespace code point `trim` removes.
