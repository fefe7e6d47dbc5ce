# Training tracker — a Dafny model of its data core

The training tracker is a small React application for planning and logging strength training.
It keeps two collections in the browser's local storage: the exercise backlog and the training
sessions. A session is planned for a date with a list of exercises and their sets. It is then
started (status `in-progress`), worked through set by set, and completed with notes.

This project models the data logic behind those screens as pure Dafny functions over immutable
values, and proves properties about them:

- `storage.dfy` (`Storage`): the prefixed key/value store with its three operations and its
  fixed German error messages. A storage failure is an explicit `fault` input.
- `collection.dfy` (`Collection`): the discipline both data hooks share. The whole collection
  sits under one key. Every change builds the new array, writes all of it, and adopts it only
  after a successful write. Records are JSON objects (`map<string, Json>`), so `{...a, ...b}` is
  the map union `a + b`.
- `exercises.dfy` (`Exercises`) and `sessions.dfy` (`Sessions`): the two hooks, plus the session
  queries by date and for the active (in-progress) session.
- `domain.dfy` (`Domain`): the typed view of the records (sessions, session exercises, sets,
  backlog exercises). Each type has an encoding to a record and a decoding back, with round-trip
  lemmas.
- `active_training.dfy` (`ActiveTraining`): the set edits, the progress counts and percentage,
  and the completion step.
- `training_plan.dfy` (`TrainingPlan`): the planning form. It covers choosing exercises, resizing
  set lists, editing target reps and saving the plan.
- `exercise_backlog.dfy` (`ExerciseBacklog`): the muscle-group toggle, the search, the submit
  guard and the edit form.
- `app.dfy` (`App`): the shell's wiring. It starts a session, commits the working session, and
  hands a saved plan to `addSession`.
- `text.dfy` (`Text`): the JavaScript string built-ins the views rely on. These are `parseInt`,
  `toLowerCase` and `includes`. `parseInt` follows the ECMAScript algorithm for decimal and `0x`
  inputs: leading white space, an optional sign, and the longest digit prefix. A result of `NaN`
  is `None`.
- `wrappers.dfy`, `seqs.dfy`, `json.dfy`: `Option`/`Result`, sequence helpers (`Filter`,
  `Traverse`, `FindFirst`) and the JSON value type.

Randomness and user dialogs become parameters:

- the generated id is `freshId`;
- an answered `window.confirm` is `confirmed`;
- a failing storage call is `fault`.

## Model

| member | source | states |
|---|---|---|
| Storage.StorageKey | src/utils/storage.js:6 | a logical key is stored as the prefix `training-tracker-` followed by the key, nothing else |
| Storage.StorageKeyInjective | src/utils/storage.js:6-12 | two different logical keys never share a storage slot |
| Storage.Set | src/utils/storage.js:9-18 | a successful write resolves to `true` and adds exactly the prefixed key; a failing one leaves the store untouched and throws "Fehler beim Speichern der Daten"; other slots are unchanged either way |
| Storage.Get | src/utils/storage.js:20-31 | a read fails exactly when the underlying read fails, with "Fehler beim Laden der Daten" |
| Storage.Remove | src/utils/storage.js:33-41 | a successful removal drops exactly the prefixed key and resolves to `true`; a failing one leaves the store and throws "Fehler beim Löschen der Daten" |
| Storage.GetUnwritten | src/utils/storage.js:22-25 | a key never written reads as `null` |
| Storage.SetThenGet | src/utils/storage.js:9-31 | after `set(k, v)`, `get(k)` gives `v` back |
| Storage.RemoveThenGet | src/utils/storage.js:20-41 | after `remove(k)`, `get(k)` gives `null` |
| Storage.OtherKeysUnchanged | src/utils/storage.js:9-41 | writing or removing one logical key leaves every other logical key reading as before |
| Storage.SetKeepsOtherKeys | src/utils/storage.js:12 | the same for all other keys at once |
| Collection.FromJsonToJson | src/hooks/useExercises.js:17-32 | the array a hook writes is read back by `data \|\| []` as the same records |
| Collection.Load | src/hooks/useExercises.js:12-27 | after loading, `loading` is false; the error is set exactly when the read failed, with the collection left empty; a missing key gives an empty collection |
| Collection.Save | src/hooks/useExercises.js:30-40 | a failed write keeps the hook's collection and the store and records the save message; a successful one adopts the new collection, clears the error, and a fresh load returns it; other keys are unchanged |
| Collection.WithId | src/hooks/useExercises.js:44-47 | the new record carries the generated id and every other field of the caller's record |
| Collection.Add | src/hooks/useExercises.js:43-50 | on success the collection is the old one with the new record appended and returned; on failure the collection and the store are unchanged and the hook's error holds the save message; other keys are unchanged |
| Collection.MergeById | src/hooks/useExercises.js:54-56 | records with the id gain the updates' fields (updates win) and keep the rest; every other record is unchanged; the length is kept |
| Collection.MergeAbsentId | src/hooks/useExercises.js:54-56 | an update for an id nobody has changes no record |
| Collection.Update | src/hooks/useExercises.js:53-58 | on success the collection is the merged one; on failure the collection and the store are unchanged and the hook's error holds the save message; other keys are unchanged |
| Collection.RemoveById | src/hooks/useExercises.js:62 | the result keeps, in order, exactly the records without that id, every copy of each, and no record with it |
| Collection.RemoveAbsentId | src/hooks/useExercises.js:62 | deleting an id nobody has changes nothing |
| Collection.Delete | src/hooks/useExercises.js:61-64 | on success the collection is the filtered one; on failure the collection and the store are unchanged and the hook's error holds the save message; other keys are unchanged |
| Collection.AddThenLoad | src/hooks/useExercises.js:12-50 | after an add, a new hook instance loads the old records plus the new one |
| Domain.StatusNamed | src/hooks/useTrainingSessions.js:47 | each status string names exactly one lifecycle status |
| Domain.SetRoundTrip | src/components/TrainingPlan.jsx:40 | a set record decodes back to the set it encodes |
| Domain.SessionExerciseRoundTrip | src/components/TrainingPlan.jsx:38-41 | a session exercise record decodes back to the same exercise id and sets |
| Domain.SessionExercisesRoundTrip | src/components/TrainingPlan.jsx:81 | the exercise array of a session decodes back element for element |
| Domain.DecodeSessionReadsOnlyItsFields | src/hooks/useTrainingSessions.js:55-57 | two records that agree on the five session fields read as the same session, whatever other fields they carry |
| Domain.SessionRoundTrip | src/hooks/useTrainingSessions.js:43-51 | a session record decodes back to the session |
| Domain.StatusChangeDecodes | src/App.jsx:34 | overwriting only `status` of a session record gives the same session with the new status |
| Domain.MergedSessionDecodes | src/hooks/useTrainingSessions.js:55-57 | merging a whole session into any stored record gives a record that reads as exactly that session |
| Domain.StringsRoundTrip | src/components/ExerciseBacklog.jsx:9 | a list of muscle groups decodes back unchanged |
| Domain.ExerciseRoundTrip | src/hooks/useExercises.js:43-50 | a backlog exercise record decodes back to the exercise, missing optional fields included |
| Sessions.AddSession | src/hooks/useTrainingSessions.js:43-51 | the stored record has the generated id and status `planned` whatever the caller passed, and keeps the caller's other fields; on failure the collection and the store are unchanged and the hook's error holds the save message |
| Sessions.SessionsByDate | src/hooks/useTrainingSessions.js:68-70 | exactly the sessions on that date, every copy of each, in collection order |
| Sessions.ActiveSession | src/hooks/useTrainingSessions.js:73-75 | none exactly when no session is in progress; otherwise the first in-progress session |
| Sessions.AddedSessionNotActive | src/hooks/useTrainingSessions.js:43-75 | adding a session never changes which session is active |
| Sessions.FirstAppend | src/hooks/useTrainingSessions.js:73-75 | appending a session that is not in progress leaves the first in-progress one where it was |
| ActiveTraining.WithSet | src/components/ActiveTraining.jsx:30-31 | replacing one set changes that set and nothing else of the session |
| ActiveTraining.SetComplete | src/components/ActiveTraining.jsx:29-33 | ticking a set changes only its `completed` flag |
| ActiveTraining.SetUpdate | src/components/ActiveTraining.jsx:35-40 | reps and weight are stored as `parseInt(value) \|\| 0`, equipment as typed; nothing else changes |
| ActiveTraining.SetUpdateShownNumber | src/components/ActiveTraining.jsx:38 | a number typed in decimal is stored as that number |
| ActiveTraining.WeightInputTruncated | src/components/ActiveTraining.jsx:38 | a weight typed as an integer `n` followed by a point and anything is stored as `n` |
| ActiveTraining.HalfKiloDropped | src/components/ActiveTraining.jsx:38 | a weight typed as "12.5" is stored as 12 |
| ActiveTraining.GetProgress | src/components/ActiveTraining.jsx:67-73 | completed sets never exceed total sets |
| ActiveTraining.DoneAtMostTotal | src/components/ActiveTraining.jsx:68-71 | the completed-set sum is at most the set sum |
| ActiveTraining.AllDoneIffCountsMeet | src/components/ActiveTraining.jsx:43-73 | the two sums are equal exactly when every set of every exercise is completed |
| ActiveTraining.AllCompletedIffProgressFull | src/components/ActiveTraining.jsx:43-73 | the completion check passes exactly when the progress shows all sets done |
| ActiveTraining.ProgressPercent | src/components/ActiveTraining.jsx:76 | the bar width lies between 0 and 100, is 0 without sets, and is 100 exactly when there is at least one set and every set is done |
| ActiveTraining.DoneSetsUpdate | src/components/ActiveTraining.jsx:68-71 | replacing one exercise changes the completed sum by the difference of its counts and keeps the total when its set count is kept |
| ActiveTraining.SetCompleteProgress | src/components/ActiveTraining.jsx:29-73 | ticking an open set adds one completed set, unticking a done one removes one, the total stays |
| ActiveTraining.CompleteTraining | src/components/ActiveTraining.jsx:42-57 | the session is completed exactly when all sets are done or the user confirms; it then has status completed and the typed notes, and keeps id, date and exercises |
| TrainingPlan.AddExercise | src/components/TrainingPlan.jsx:36-43 | an exercise already chosen is not added again; a new one is appended with one default set; no exercise id appears twice |
| TrainingPlan.RemoveExercise | src/components/TrainingPlan.jsx:45-47 | the entries with that id are gone; all others stay, every copy of each, in order |
| Seqs.FilterNoDupBy | src/components/TrainingPlan.jsx:46 | filtering a list free of duplicate keys keeps it free of them; this keeps selected exercise ids and chosen muscle groups distinct |
| TrainingPlan.ResizeSets | src/components/TrainingPlan.jsx:52-54 | a length of 2^32 or more throws; otherwise the list has exactly the requested length (none for a negative one), existing sets first, then default sets |
| TrainingPlan.ResizeSetsBack | src/components/TrainingPlan.jsx:52-54 | resizing to the current length changes nothing; growing and shrinking back restores the sets |
| TrainingPlan.SetCountInput | src/components/TrainingPlan.jsx:221 | the typed set count is never 0: it is the parsed number or the fallback 1 (see `SetCountInputDefaults`) |
| TrainingPlan.SetCountInputDefaults | src/components/TrainingPlan.jsx:221 | an empty or zero set count means one set; any other decimal number is taken as is |
| TrainingPlan.UpdateSets | src/components/TrainingPlan.jsx:49-59 | only the chosen exercise's set list is resized; a count the resize rejects leaves the selection as it was; ids stay distinct |
| TrainingPlan.HugeSetCountIgnored | src/components/TrainingPlan.jsx:221 | typing 4294967296 as the set count leaves the selection as it was |
| TrainingPlan.UpdateTargetReps | src/components/TrainingPlan.jsx:61-70 | only the one set's target reps change, to `parseInt(value) \|\| 0` |
| TrainingPlan.SaveSession | src/components/TrainingPlan.jsx:72-89 | saving is refused exactly without a date or without exercises; otherwise the record, once given an id, reads as a planned session with that date and those exercises and empty notes |
| ExerciseBacklog.ToggleMuscleGroup | src/components/ExerciseBacklog.jsx:58-65 | an unchosen group is appended; a chosen one is removed wherever it occurs and the others stay in order with every copy; no group is chosen twice |
| ExerciseBacklog.Matches | src/components/ExerciseBacklog.jsx:67-69 | the search predicate; its meaning is fixed by `FilteredExercises`, `EmptySearchListsAll`, `NameContainingTermMatches` and `LowerCaseTermUnchanged` |
| ExerciseBacklog.AppendKeepsDistinct | src/components/ExerciseBacklog.jsx:63 | appending an unchosen group keeps them distinct |
| ExerciseBacklog.ToggleTwiceRestores | src/components/ExerciseBacklog.jsx:58-65 | toggling an unchosen group twice restores the list |
| ExerciseBacklog.ToggleStaysWithinOptions | src/components/ExerciseBacklog.jsx:14-65 | toggling offered groups only ever chooses offered groups |
| ExerciseBacklog.FilteredExercises | src/components/ExerciseBacklog.jsx:67-70 | exactly the exercises whose name or a muscle group contains the term, ignoring case, every copy of each, in list order |
| ExerciseBacklog.EmptySearchListsAll | src/components/ExerciseBacklog.jsx:67-70 | an empty search lists every exercise |
| ExerciseBacklog.NameContainingTermMatches | src/components/ExerciseBacklog.jsx:68 | an exercise whose name contains the term is found whatever the letter case |
| ExerciseBacklog.LowerCaseTermUnchanged | src/components/ExerciseBacklog.jsx:68-69 | the search gives the same result for a term and its lower-case form |
| ExerciseBacklog.EditForm | src/components/ExerciseBacklog.jsx:37-46 | the edit form; `EditFormRoundTrip` states that saving it unchanged stores the same exercise, and `SubmittedFormDecodes` that it reopens a stored form unchanged |
| ExerciseBacklog.Submit | src/components/ExerciseBacklog.jsx:17-29 | the submission request; `SubmitEditStores` and `SubmitAddStores` state what it does to the exercise store |
| ExerciseBacklog.SubmitDisabled | src/components/ExerciseBacklog.jsx:156 | the button guard; `SubmittedFormDecodes` states that an enabled button stores a named exercise with a muscle group |
| ExerciseBacklog.EditFormRoundTrip | src/components/ExerciseBacklog.jsx:37-46 | opening an exercise for editing and saving unchanged stores the same exercise, with a missing muscle-group list, equipment or note now stored empty |
| ExerciseBacklog.SubmitEditStores | src/components/ExerciseBacklog.jsx:17-29 | submitting while editing an exercise stores the form's fields in that exercise's record and leaves every other record |
| ExerciseBacklog.SubmitAddStores | src/components/ExerciseBacklog.jsx:17-29 | submitting a new exercise appends a record that reads as an exercise with the generated id and the form's fields |
| ExerciseBacklog.SubmittedFormDecodes | src/components/ExerciseBacklog.jsx:17-46 | a submitted form is stored as an exercise with all the form's fields, re-opening it shows the same form, and an enabled button stores a name and a muscle group |
| App.StartSession | src/App.jsx:32-39 | the session with the id becomes in progress and keeps every other field; other sessions are unchanged; on failure the collection and the store are unchanged and the hook's error holds the save message |
| App.StartedSessionDecodes | src/App.jsx:34 | a started session reads as the same session with status in progress |
| App.StartMakesActive | src/App.jsx:30-34 | after starting a stored session there is an active session |
| App.StartedIsShown | src/App.jsx:30 | starting the first record with an id, when no earlier record is in progress, makes it the session the active-training view is given |
| App.DecodedStatusStored | src/hooks/useTrainingSessions.js:73-75 | a record that reads as a session stores that session's status name, which is what `getActiveSession` compares |
| App.CompleteThenCommit | src/components/ActiveTraining.jsx:42-60 | a completed and committed session reads back as completed with the typed notes, and is neither offered for starting nor active |
| TrainingPlan.StartOffered | src/components/TrainingPlan.jsx:287-294 | the Start button guard; `App.PlannedToCompleted` states that starting removes it and completing never brings it back |
| App.PlannedToCompleted | src/components/TrainingPlan.jsx:287-294 | a session offered the Start button (planned) is no longer offered once started, and once completed and committed it reads as completed and is not active |
| App.CommitSession | src/components/ActiveTraining.jsx:29-60 | after committing the working session, its stored record reads as exactly that session; other sessions are unchanged; on failure the collection and the store are unchanged and the hook's error holds the save message |
| App.PlanThenAdd | src/components/TrainingPlan.jsx:79-84 | a saved plan is stored as a planned session with the generated id, the date, the exercises and empty notes |
| App.CollectionsIndependent | src/hooks/useExercises.js:4 | any change to the exercises leaves the stored sessions as they were, and the other way round |
| Text.ToLower | src/components/ExerciseBacklog.jsx:68-69 | lower-casing keeps the length and maps each character on its own |
| Text.ToLowerIdempotent | src/components/ExerciseBacklog.jsx:68-69 | lower-casing twice is lower-casing once |
| Text.EmptyIsSubstring | src/components/ExerciseBacklog.jsx:68 | every string includes the empty string |
| Text.HasSubstringToLower | src/components/ExerciseBacklog.jsx:68 | a substring stays a substring once both sides are lower-cased |
| Text.ParseInt | src/components/ActiveTraining.jsx:38 | one-argument `parseInt`; `ParseIntDecimalPrefix`, `ParseIntDecimalString`, `ParseIntDropsFraction` and `ParseIntEmpty` state what it reads |
| Text.ParseIntOr | src/components/ActiveTraining.jsx:38 | `parseInt(s) \|\| d` is `d` exactly when the parse gives NaN, 0 or `d`, and otherwise the parsed number |
| Text.ParseIntDecimalPrefix | src/components/ActiveTraining.jsx:38 | `parseInt` reads a decimal numeral followed by a non-digit (other than a hex `x`) as the numeral's value |
| Text.ParseIntDecimalString | src/components/TrainingPlan.jsx:65 | `parseInt` reads any decimal numeral, signed or not, back as its number |
| Text.ParseIntEmpty | src/components/TrainingPlan.jsx:221 | `parseInt("")` is NaN |
| Text.ParseIntDropsFraction | src/components/ActiveTraining.jsx:38 | `parseInt` of an integer numeral followed by a point and anything is the integer |
| Text.ParseIntTwelveAndAHalf | src/components/ActiveTraining.jsx:38 | `parseInt("12.5")` is 12 |

## Left out

- Login, Firebase configuration and the tab switching of the shell: they carry no data logic.
- The week navigation and date formatting (`dateUtils.js`, TrainingPlan.jsx:16-29): they are calendar arithmetic over `Date`, which is not part of this model.
- The session list's display in TrainingPlan.jsx (grouping by day, status colours, exercise names): presentation only.
- Weight is a whole number in the model. The code stores it as `parseInt(value) || 0`, which drops any fractional part, although the weight input offers half-kilo steps (`step="0.5"`, src/components/ActiveTraining.jsx:156). The model follows the code, and `ActiveTraining.WeightInputTruncated` states the consequence.
- ActiveTraining.ProgressPercent: uses exact real division; the floating-point rounding of `completed / total * 100` is not modelled.
- Text.ToLower: maps ASCII and Latin-1 letters only (enough for the German option lists); the rest of Unicode case mapping is not modelled.
- Text.ParseIntOr: `parseInt` is modelled on unbounded integers; the loss of precision of very long numerals in a double is not modelled.
- Storage: `JSON.stringify`/`JSON.parse` are taken as inverse, so the store holds parsed values; a stored value that does not parse is the `fault` case of `Storage.Get`.
- Collection.Load: requires a stored value that is falsy or an array of objects, which is what the hooks write. A hand-edited stored value the hook would adopt as is, such as a truthy non-array or an array holding a non-object like `[1]`, is not modelled.
- The `window.storage` alias (storage.js:47-50) and the console logging: side effects with no effect on the data.
- `alert` and `window.confirm`: an answered confirm dialog is the `confirmed` input of `ActiveTraining.CompleteTraining`. The confirm dialogs that guard deleting an exercise or a session only decide whether `Exercises.DeleteExercise` / `Sessions.DeleteSession` run.
- Exercises.LoadExercises, Exercises.AddExercise, Exercises.UpdateExercise, Exercises.DeleteExercise, Sessions.LoadSessions, Sessions.UpdateSession, Sessions.DeleteSession: these apply the `Collection` operations to their storage key, so their contracts are those of `Collection.Load`, `Collection.Add`, `Collection.Update` and `Collection.Delete`.
- Concurrency: React state updates and the un-awaited updates from set edits are taken one at a time, in order. Two racing saves that both start from the same collection are not modelled.
- The deep copy of the working session (ActiveTraining.jsx:7) has no counterpart: sessions are values here, so an edit cannot change the session passed in.
- A remote storage backend: the code ships only the local-storage implementation.
- A failed save also sets the hook's error, and the shell then shows its error screen instead of the views (src/App.jsx:52-61). The screen itself is presentation and is not modelled; the error message is, in `Collection.Save`.
