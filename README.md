# Gym-Tracker front end: a Dafny model

Gym-Tracker is a workout planner. A user schedules workouts ("daily tasks") for a
day. Each workout has exercises ("task items"), and each exercise has a
prescription: series, RIR, tempo, method and target reps. As the user trains they
record the reps and weight they actually did. A workout can be saved as a
reusable routine (a "template"). A routine can be applied to a day, duplicated,
edited or deleted. A task can be duplicated onto the selected day.

The application is a React front end over a hosted Postgres backend. This model
covers the list and record logic of its five stateful components. Each
component is a Dafny class whose fields are the component's state, and each
handler is a method. The methods run the backend calls in the source's order
against an in-memory `Store`. Every backend call takes an explicit `ok: bool`
outcome, so that every success/failure path of every handler is covered.

Modules:

- `Rows`: the table rows (`daily_tasks`, `task_items`, `routines`,
  `routine_items`) and the insert payloads ("drafts").
- `Seqs`: `Filter` (JavaScript's `Array.filter`) and `RemoveAt`.
- `ScheduleOrder`: the ascending `scheduled_for` order of the day listing.
- `NameOrder`: the ascending name order of the routine listing.
- `Backend`:
  - the store, its invariant, the two listing queries and one method per
    query the components issue;
  - `AddTask`/`AddRoutine`, the header-then-items write sequence as a function
    of the tables, and its lemmas.
- `Expansion`: the row builders, which turn an exercise list, a routine or a
  task into child-row payloads. Also the `" (Copia)"` suffix, and round trips
  between them.
- `ExerciseLibrary`: the grouping of the exercise catalogue by category.
- `ExerciseEditor`: the exercise-list editor shared by both editor modals.
- `CreateTask`, `CreateRoutine`, `Dashboard`, `TaskCard`, `RoutineLibrary`: the
  five components.

The component methods are specified by functions of the old state and the old
tables (`SubmitWrites`, `ResaveWrites`, `AddTask`, `AddRoutine`, `WithoutTask`,
`SetCompleted`, …). The source's promises are proved as lemmas about those
functions.

## Model

| member | source | states |
|---|---|---|
| Seqs.RemoveAt | components/CreateTaskModal.tsx:108 | Removing position i keeps every other element in order (length one less); an index past the end removes nothing |
| ScheduleOrder.SortByScheduleCorrect | app/dashboard/page.tsx:73 | The listing's sort yields ascending `scheduled_for` and is a permutation of its input |
| ScheduleOrder.InsertBySchedulePreserves | app/dashboard/page.tsx:73 | Inserting one row into a sorted list keeps it sorted and adds exactly that row |
| NameOrder.NameLeTotal | components/RoutineLibraryModal.tsx:47 | Any two names are ordered one way or the other |
| NameOrder.NameLeTrans | components/RoutineLibraryModal.tsx:47 | The name order is transitive |
| NameOrder.PrefixComesFirst | components/RoutineLibraryModal.tsx:47 | A name comes no later than any name that extends it, such as its copy's name |
| NameOrder.InsertByNamePreserves | components/RoutineLibraryModal.tsx:47 | Inserting one routine into a name-sorted list keeps it sorted and adds exactly that routine |
| NameOrder.SortByNameCorrect | components/RoutineLibraryModal.tsx:47 | The listing's sort yields ascending names and is a permutation of its input |
| Backend.NewTaskRow | components/CreateTaskModal.tsx:135-143 | A newly inserted task has the issued id, is not completed and has no completion time |
| Backend.NewTaskItemRows | components/CreateTaskModal.tsx:153-166 | A batch of item rows: one row per payload, ids issued in order, the payload's fields, not completed, no performed values |
| Backend.NewRoutineItemRows | components/CreateTaskModal.tsx:178-189 | One routine-item row per payload, ids issued in order, the payload's fields |
| Backend.Renamed | components/CreateRoutineModal.tsx:98 | Only the routine with that id changes, and only its name |
| Backend.WithCompletion | app/dashboard/page.tsx:183-189 | Only the task with that id changes: its flag becomes `state`, and it has a completion time exactly when `state` is true |
| Backend.WithProgress | components/TaskItem.tsx:62-69 | Only the item with that id changes: completed, with the given reps and weight |
| Backend.DayListing | app/dashboard/page.tsx:62-73 | A task is listed iff it is the user's and `start <= scheduled_for < start + 1 day`, with exactly its items; the list is in ascending `scheduled_for` |
| Backend.RoutineListing | components/RoutineLibraryModal.tsx:44-47 | One entry per stored routine, in ascending name order; an entry is listed exactly when its row is stored and its items are exactly that routine's items |
| Backend.Store.InsertTask | components/CreateTaskModal.tsx:133-145 | On success the header row is appended with a fresh id and returned; on failure nothing changes and nothing is returned |
| Backend.Store.InsertTaskItems | components/CreateTaskModal.tsx:153-166 | The whole batch is appended, or nothing is when the call fails or the parent task is missing |
| Backend.Store.UpdateTaskCompletion | app/dashboard/page.tsx:183-189 | On success the tasks become `WithCompletion`; every other table is unchanged |
| Backend.Store.DeleteTask | app/dashboard/page.tsx:82-85 | On success the task and its items are removed, everything else kept in order; on failure nothing changes |
| Backend.Store.UpdateItemProgress | components/TaskItem.tsx:62-69 | On success the items become `WithProgress`; every other table is unchanged |
| Backend.Store.InsertRoutine | components/CreateTaskModal.tsx:171-175 | On success the routine row is appended with a fresh id and returned; on failure nothing changes |
| Backend.Store.UpdateRoutineName | components/CreateRoutineModal.tsx:98 | On success the routines become `Renamed` of the old ones; on failure nothing changes; every other table is unchanged |
| Backend.Store.DeleteRoutineItems | components/CreateRoutineModal.tsx:99 | On success every item of that routine is removed and the others keep their order |
| Backend.Store.InsertRoutineItems | components/CreateRoutineModal.tsx:107-118 | The whole batch is appended, or nothing is when the call fails or the routine is missing |
| Backend.Store.DeleteRoutine | components/RoutineLibraryModal.tsx:62 | On success the routine and its items are removed; on failure nothing changes |
| Backend.AddTask | app/dashboard/page.tsx:97-134 | The header-then-items sequence never reuses ids; a failed header writes nothing |
| Backend.AddRoutine | components/RoutineLibraryModal.tsx:70-88 | The same sequence for a routine |
| Backend.NoItemsOfNextId | components/CreateTaskModal.tsx:147-157 | In a valid store no item belongs to the id issued next, so a new header starts with no items |
| Backend.AddedTaskItems | components/CreateTaskModal.tsx:147-166 | After the sequence the new task has exactly the submitted items, or none when their insert failed |
| Backend.AddTaskKeepsOtherItems | components/CreateTaskModal.tsx:153-166 | Every other task keeps exactly the items it had |
| Backend.AddedTaskIsListed | app/dashboard/page.tsx:62-73 | A new task scheduled inside the listed day is in that day's listing with exactly its items |
| Backend.AddedRoutineItems | components/RoutineLibraryModal.tsx:76-88 | The new routine has exactly the submitted items, or none when their insert failed |
| Backend.ListingIgnoresOtherItems | components/RoutineLibraryModal.tsx:44-47 | Items added for a routine that is not listed do not change the listing |
| Backend.ListingWithNewRoutine | components/RoutineLibraryModal.tsx:44-47 | Listing one more routine, whose id had no items, with its new items: one entry more, and the entries are the old ones plus the new routine with exactly those items |
| Backend.AddedRoutineListing | components/RoutineLibraryModal.tsx:68-90 | After the sequence the listing has one entry more; its entries are the old entries and the new routine with exactly its items, and nothing else |
| Backend.AddedRoutineIsListed | components/RoutineLibraryModal.tsx:68-90 | After the sequence the new routine, under the issued id, is listed with its stored items |
| Backend.AddTaskKeepsValid | components/CreateTaskModal.tsx:133-166 | The header-then-items sequence keeps the store invariant (fresh ids, items point at existing tasks, completion consistent) |
| Backend.AddRoutineKeepsValid | components/RoutineLibraryModal.tsx:68-90 | The same for routines |
| Backend.InsertTaskWithItems | components/CreateTaskModal.tsx:133-166 | The two calls in order leave the store equal to `AddTask` of the old tables and return the header exactly when it was written |
| Backend.InsertRoutineWithItems | components/RoutineLibraryModal.tsx:68-88 | The two calls in order leave the store equal to `AddRoutine` of the old tables |
| Expansion.CopyName | components/RoutineLibraryModal.tsx:72 | The copy's name is the original name followed by `" (Copia)"` |
| Expansion.CreatedTaskHeader | components/CreateTaskModal.tsx:136-142 | A task made in the editor is a workout for the user with the typed title at the given time |
| Expansion.DuplicateHeader | app/dashboard/page.tsx:99-105 | The duplicate keeps the task type, takes the copy suffix and the selected date |
| Expansion.AppliedRoutineHeader | app/dashboard/page.tsx:145-151 | A task made from a routine is a workout titled with the routine's name on the selected date |
| Expansion.TaskItemsFromExercises | components/CreateTaskModal.tsx:156-165 | One payload per exercise: the name as title, the prescription copied, `sort_order` its position |
| Expansion.RoutineItemsFromExercises | components/CreateTaskModal.tsx:179-188 | One payload per exercise: the name as `exercise_name`, the prescription copied, `sort_order` its position |
| Expansion.CopiedTaskItems | app/dashboard/page.tsx:119-129 | One payload per item: same title and prescription, `sort_order` its position (performed values not copied) |
| Expansion.TaskItemsFromRoutine | app/dashboard/page.tsx:163-172 | One payload per routine item: `exercise_name` as title, same prescription, `sort_order` its position |
| Expansion.CopiedRoutineItems | components/RoutineLibraryModal.tsx:78-87 | One payload per routine item: same name and prescription, `sort_order` its position |
| Expansion.ExercisesFromRoutine | components/CreateRoutineModal.tsx:48-55 | One exercise per routine item: `exercise_name` as name, the prescription copied |
| Expansion.TemplateMirrorsTaskItems | components/CreateTaskModal.tsx:156-188 | The template's rows equal the task's rows field for field, with `exercise_name` in the place of `title` |
| Expansion.SaveThenLoadRoutine | components/CreateRoutineModal.tsx:48-55 | Saving an editor list as routine rows and loading them into the editor gives the list back |
| Expansion.LoadThenSaveRoutine | components/CreateRoutineModal.tsx:107-118 | Loading a routine and saving it writes the same ordered rows, renumbered 0..n-1, and exactly its own rows when they were already numbered that way |
| Expansion.ApplyingSavedRoutineMatchesCreate | app/dashboard/page.tsx:163-172 | Applying a routine saved from a list writes the same item payloads as creating the task from that list |
| Expansion.DuplicateReproducesNumberedItems | app/dashboard/page.tsx:119-129 | Duplicating a task whose items are numbered by position reproduces their payloads exactly |
| Expansion.DuplicateOfDuplicateRoutine | components/RoutineLibraryModal.tsx:78-87 | Duplicating a duplicate gives the same item payloads as the first duplicate |
| ExerciseLibrary.CategoryOf | components/CreateTaskModal.tsx:61 | An entry's bucket is never empty-named, and it is `'Otros'` exactly when the category is missing, empty or `'Otros'` |
| ExerciseLibrary.GroupByCategory | components/CreateTaskModal.tsx:59-66 | The keys are exactly the categories that occur, and each bucket holds the names of that category in catalogue order |
| ExerciseLibrary.BucketOfAbsentCategory | components/CreateTaskModal.tsx:60-65 | A category no entry has gets an empty bucket |
| ExerciseLibrary.BucketAppend | components/CreateTaskModal.tsx:60-65 | Grouping a concatenation concatenates the buckets, so names keep their input order |
| ExerciseLibrary.EntryLandsInOneBucket | components/CreateTaskModal.tsx:60-65 | Each entry's name is in its own category's bucket and in no other |
| ExerciseEditor.AddOrUpdate | components/CreateTaskModal.tsx:80-100 | An empty name changes nothing; otherwise it appends when not editing, or replaces only the edited position (same length); then the form is reset to the defaults and nothing is under edit |
| ExerciseEditor.OpenForEdit | components/CreateTaskModal.tsx:102-105 | The chosen exercise is loaded into the form and is the one under edit |
| ExerciseEditor.Remove | components/CreateTaskModal.tsx:107-120 | Removes exactly position i; removing the edited exercise clears the form; otherwise the same exercise stays under edit (corrected, see Findings) |
| ExerciseEditor.Replace | components/CreateRoutineModal.tsx:46-59 | The list is replaced as a whole and the form is kept; the edit ends with the old list, so nothing stays under edit (corrected, see Findings) |
| ExerciseEditor.SaveUnchangedEdit | components/CreateTaskModal.tsx:83-87 | Opening an exercise and saving it unchanged leaves the list as it was |
| ExerciseEditor.AddThenRemoveLast | components/CreateTaskModal.tsx:88-90 | Adding an exercise and removing it again restores the list |
| ExerciseEditor.UpdateAfterRemovingAnother | components/CreateTaskModal.tsx:107-120 | Editing one exercise, removing another and saving replaces the edited exercise and nothing else |
| ExerciseEditor.ListEditor.constructor | components/CreateTaskModal.tsx:41-50 | The editor starts with an empty list, nothing under edit and the default form |
| ExerciseEditor.ListEditor.SetForm | components/CreateRoutineModal.tsx:157 | Typing changes only the form |
| ExerciseEditor.ListEditor.AddOrUpdateExercise | components/CreateRoutineModal.tsx:76-87 | The editor state becomes `AddOrUpdate` of the old state |
| ExerciseEditor.ListEditor.StartEditing | components/CreateRoutineModal.tsx:184 | The editor state becomes `OpenForEdit` of the old state |
| ExerciseEditor.ListEditor.RemoveExercise | components/CreateRoutineModal.tsx:188 | The editor state becomes `Remove` of the old state (corrected, see Findings) |
| ExerciseEditor.ListEditor.ReplaceList | components/CreateRoutineModal.tsx:49-56 | The editor state becomes `Replace` of the old state, so the editor stays valid (corrected, see Findings) |
| ExerciseEditor.RemoveInTaskEditorAsWritten | components/CreateTaskModal.tsx:107-120 | As written: the index is reset only when it is the removed position, and is never shifted |
| ExerciseEditor.RemoveInRoutineEditorAsWritten | components/CreateRoutineModal.tsx:188 | As written: only the list changes |
| ExerciseEditor.ReplaceAsWritten | components/CreateRoutineModal.tsx:46-59 | As written: only the list changes; the result is a valid editor exactly when the old position under edit, if any, exists in the new list |
| ExerciseEditor.AddOrUpdateAsWritten | components/CreateTaskModal.tsx:83-87 | As written: agrees with `AddOrUpdate` on a valid index, and an index equal to the length appends |
| ExerciseEditor.StaleIndexAfterRemovingEarlierExercise | components/CreateTaskModal.tsx:107-120 | Edit the second of two exercises, remove the first, save: as written, with either editor's remove, two rows remain (the old one and the edit); corrected, only the edit |
| ExerciseEditor.EditedExerciseRemovedInRoutineEditor | components/CreateRoutineModal.tsx:188 | Edit the first of two, remove it, save: as written the form overwrites the kept exercise; corrected, the kept exercise survives |
| ExerciseEditor.ReopenedEditorOverwritesAsWritten | components/CreateRoutineModal.tsx:46-59 | Click a routine's second exercise, then open another routine and save: as written the clicked exercise overwrites the new routine's second one, and a clicked position past the new list's end leaves the editor invalid; corrected, the exercise is appended |
| CreateTask.ResetEffectAsWritten | components/CreateTaskModal.tsx:70-78 | As written: with the modal open and nothing under edit, the title and the list are emptied |
| CreateTask.SavingAnEditEmptiesTheListAsWritten | components/CreateTaskModal.tsx:70-87 | As written, saving an edit produces a non-empty list, which the effect then empties |
| CreateTask.RemovingTheEditedExerciseEmptiesTheListAsWritten | components/CreateTaskModal.tsx:70-78 | As written, removing the edited exercise from a longer list empties the whole list |
| CreateTask.SubmitWrites | components/CreateTaskModal.tsx:133-191 | A failed header writes nothing; ids are never reused |
| CreateTask.SubmittedTaskIsListed | components/CreateTaskModal.tsx:133-166 | After a submit whose header was written, the day holding `scheduledFor` lists the new task with one item per exercise (none if the item insert failed) |
| CreateTask.TemplateItemsMirrorTaskItems | components/CreateTaskModal.tsx:170-190 | With every write succeeding, the template's stored items repeat the task's stored items row for row, one per exercise, with `exercise_name` in the place of `title` |
| CreateTask.TemplateMirrorsSubmittedTask | components/CreateTaskModal.tsx:170-190 | With every write succeeding, the routine listing gains one entry, the template named like the task under the id issued after the task's items, with its stored items |
| CreateTask.WriteSubmission | components/CreateTaskModal.tsx:133-191 | The store calls in order leave the store equal to `SubmitWrites` of the old tables |
| CreateTask.CreateTaskModal.constructor | components/CreateTaskModal.tsx:34-50 | Closed, empty title and list, not loading, template switch off |
| CreateTask.CreateTaskModal.Open | components/CreateTaskModal.tsx:52-78 | Opening groups the catalogue when it arrives, and empties the title and list only when nothing is under edit (corrected, see Findings) |
| CreateTask.CreateTaskModal.SetTitle | components/CreateTaskModal.tsx:34 | Only the title changes |
| CreateTask.CreateTaskModal.SetSaveAsTemplate | components/CreateTaskModal.tsx:38 | Only the template switch changes |
| CreateTask.CreateTaskModal.HandleSubmit | components/CreateTaskModal.tsx:122-198 | An empty list changes nothing; otherwise the store becomes `SubmitWrites`; a failed header ends loading and keeps the modal; success returns the header, clears the title and list (ending any edit) and closes (corrected, see Findings) |
| CreateRoutine.ResaveWrites | components/CreateRoutineModal.tsx:96-119 | The edit path touches only routine tables, issues no reused id and never adds or removes a routine |
| CreateRoutine.NoItemsAfterDelete | components/CreateRoutineModal.tsx:99 | After the delete no item of that routine is left |
| CreateRoutine.ResavedRoutineHoldsExactlyTheList | components/CreateRoutineModal.tsx:96-119 | With the delete and insert succeeding, the routine's items are exactly the submitted list in order, with nothing merged from the old items; other routines keep theirs |
| CreateRoutine.FilterSwap | components/CreateRoutineModal.tsx:99 | Deleting one routine's items leaves every other routine's items as they were |
| CreateRoutine.FailedDeleteMergesOldAndNewItems | components/CreateRoutineModal.tsx:96-119 | With the delete failing (unchecked) and the insert succeeding, the routine holds its old items followed by the new list |
| CreateRoutine.ResaveUnchangedRoutine | components/CreateRoutineModal.tsx:46-59 | Opening a stored routine and saving it unchanged leaves it with the same ordered rows, renumbered 0..n-1 |
| CreateRoutine.WriteResave | components/CreateRoutineModal.tsx:96-119 | The three store calls in order leave the store equal to `ResaveWrites` of the old tables |
| CreateRoutine.CreateRoutineModal.constructor | components/CreateRoutineModal.tsx:28-41 | Closed, empty name and list, not loading |
| CreateRoutine.CreateRoutineModal.Open | components/CreateRoutineModal.tsx:43-61 | A routine to edit loads its name and its items as exercises; otherwise both start empty; replacing the list ends any edit; the catalogue is grouped when it arrives (corrected, see Findings) |
| CreateRoutine.CreateRoutineModal.SetName | components/CreateRoutineModal.tsx:149 | Only the name changes |
| CreateRoutine.CreateRoutineModal.HandleSubmit | components/CreateRoutineModal.tsx:89-124 | An empty list or name changes nothing; editing runs `ResaveWrites`; creating runs `AddRoutine`, and a missing routine row aborts with loading still set |
| Dashboard.WithoutTask | app/dashboard/page.tsx:88 | The remaining tasks are exactly those with another id |
| Dashboard.WithoutTaskKeepsOrder | app/dashboard/page.tsx:88 | Removal distributes over concatenation, so the rest keep their order |
| Dashboard.WithoutAbsentTask | app/dashboard/page.tsx:88 | Removing an absent id changes nothing, so removal is idempotent |
| Dashboard.SetCompleted | app/dashboard/page.tsx:181 | Only the task with that id changes, and only its flag |
| Dashboard.SetCompletedTwice | app/dashboard/page.tsx:181-192 | The revert overrides the optimistic write |
| Dashboard.RevertRestoresFlippedTask | app/dashboard/page.tsx:180-193 | Writing `state` then `!state` restores the list when the task held `!state` before |
| Dashboard.CompletedCount | app/dashboard/page.tsx:201 | Between 0 and the number of tasks, and 0 on an empty list |
| Dashboard.CompletedCountMonotone | app/dashboard/page.tsx:181-201 | Completing a task never lowers the count; clearing never raises it |
| Dashboard.DuplicateIsListed | app/dashboard/page.tsx:92-136 | After a duplicate the selected day lists the copy with one item per original item: same title and prescription, position as order, not completed, no performed values |
| Dashboard.AppliedRoutineIsListed | app/dashboard/page.tsx:139-177 | After applying a routine the selected day lists the workout with one item per routine item |
| Dashboard.DashboardPage.constructor | app/dashboard/page.tsx:38-43 | Loading, no user, empty list, library closed |
| Dashboard.DashboardPage.FetchTasks | app/dashboard/page.tsx:60-79 | The day listing replaces the list when the query succeeds; loading ends either way |
| Dashboard.DashboardPage.HandleDelete | app/dashboard/page.tsx:81-90 | On success the store deletes the task and the list loses exactly that id; on failure neither changes |
| Dashboard.DashboardPage.HandleDuplicateRoutine | app/dashboard/page.tsx:92-137 | Without a user nothing changes; otherwise the store becomes `AddTask` of the duplicate, and the list is refetched only if the header was written |
| Dashboard.DashboardPage.HandleApplyRoutine | app/dashboard/page.tsx:139-178 | The same for a routine, and the library closes only when the header was written |
| Dashboard.DashboardPage.HandleToggle | app/dashboard/page.tsx:180-194 | The list ends as `SetCompleted` with `state`, or `!state` when the store call failed; the store records the flag and completion time only on success |
| TaskCard.IntToStringReadsBack | components/TaskItem.tsx:43-44 | The text an integer is shown as reads back as that integer |
| TaskCard.NatToStringReadsBack | components/TaskItem.tsx:43-44 | The decimal digits of a natural number read back as that number |
| TaskCard.TextOf | components/TaskItem.tsx:43-44 | A value's text is empty exactly when there is no value |
| TaskCard.InitialItemDataKeys | components/TaskItem.tsx:39-47 | The initial inputs have one entry per item id, and no other |
| TaskCard.InitialItemDataLastWins | components/TaskItem.tsx:39-47 | An id's entry holds the text of the last item with that id |
| TaskCard.InitialInputsShowRecordedValues | components/TaskItem.tsx:39-47 | At start an item's save button is enabled exactly when it has both performed values, and its inputs read back as them |
| TaskCard.ClearCompleted | components/TaskItem.tsx:72 | Only the item with that id changes, and only its completed flag, to false |
| TaskCard.FailedSaveKeepsAttemptedValues | components/TaskItem.tsx:60-74 | After a failed save the item is not completed but keeps the attempted values; every other item is as before |
| TaskCard.CompletedItems | components/TaskItem.tsx:78 | Between 0 and the number of items, and 0 on an empty list |
| TaskCard.SavedItemIsCounted | components/TaskItem.tsx:60-78 | A save never lowers the completed count, and raises it when it completes an item that was not completed |
| TaskCard.TaskItem.constructor | components/TaskItem.tsx:35-47 | The card copies the task's items and flag, fills the inputs from the recorded values and starts collapsed |
| TaskCard.TaskItem.CompletedItemsCount | components/TaskItem.tsx:77-78 | Between 0 and the number of items, and 0 when the card has no items |
| TaskCard.TaskItem.ToggleMainTask | components/TaskItem.tsx:49-53 | The local flag flips, and the task id and the new value are passed on |
| TaskCard.TaskItem.ClickHeader | components/TaskItem.tsx:90 | The card expands or collapses only when it has items |
| TaskCard.TaskItem.SetWeightText | components/TaskItem.tsx:183-186 | Only that item's weight text changes |
| TaskCard.TaskItem.SetRepsText | components/TaskItem.tsx:195-198 | Only that item's reps text changes |
| TaskCard.TaskItem.SaveItemProgress | components/TaskItem.tsx:55-75 | The item is completed with the values; on success the store records them; on failure only the completed flag is reset, and the inputs are untouched |
| RoutineLibrary.WithoutRoutine | components/RoutineLibraryModal.tsx:64 | The remaining routines are exactly those with another id |
| RoutineLibrary.WithoutRoutineKeepsOrder | components/RoutineLibraryModal.tsx:64 | Removal distributes over concatenation, so the rest keep their order |
| RoutineLibrary.WithoutAbsentRoutine | components/RoutineLibraryModal.tsx:64 | Removing an absent id changes nothing, so removal is idempotent |
| RoutineLibrary.DuplicateIsListed | components/RoutineLibraryModal.tsx:68-90 | After a duplicate the listing has one entry more: the old entries and the copy, nothing else; the copy has the same user, the suffixed name and, when its items were written, one item per original item with the same name and prescription at the same position |
| RoutineLibrary.RoutineLibraryModal.constructor | components/RoutineLibraryModal.tsx:37-38 | Loading, with an empty list |
| RoutineLibrary.RoutineLibraryModal.FetchRoutines | components/RoutineLibraryModal.tsx:42-53 | The listing replaces the list when the query succeeds; loading ends either way |
| RoutineLibrary.RoutineLibraryModal.HandleDelete | components/RoutineLibraryModal.tsx:61-66 | On success the store deletes the routine and the list loses exactly that id; on failure neither changes |
| RoutineLibrary.RoutineLibraryModal.HandleDuplicate | components/RoutineLibraryModal.tsx:68-91 | The store becomes `AddRoutine` of the copy; without a header row there is no refetch and loading stays set |

## Left out

- Authentication, routing and the landing page (`app/auth/page.tsx`, `app/page.tsx`). The dashboard's user is a field that starts empty; `next.config.ts` is build configuration.
- Rendering, animation, icons, date formatting and `alert` calls. The dashboard's `focusedTaskId` and the modals' `onClose` prop only drive rendering.
- The editors' `onSuccess` callbacks: the task editor's refetches the day listing (app/dashboard/page.tsx:385) and the routine editor's refetches the routine listing (components/RoutineLibraryModal.tsx:207). That refetch is not composed with `CreateTask.CreateTaskModal.HandleSubmit` or `CreateRoutine.CreateRoutineModal.HandleSubmit`; it is modelled on its own as `Dashboard.DashboardPage.FetchTasks` and `RoutineLibrary.RoutineLibraryModal.FetchRoutines`, and `CreateTask.SubmittedTaskIsListed` and `Backend.AddedRoutineListing` state what it then shows.
- The backend client. It is an in-memory store with a given outcome per call. Its tables are sequences in insertion order, not maps keyed by id, so that listings have a definite order.
- Cascading deletes of a task's or a routine's items are taken as a property of the database schema. The components do not issue them.
- The server-side `order('category')`, `order('name')` of the catalogue: the catalogue is grouped in the order it arrives.
- NameOrder.NameLe: routine names are compared character by character by code point; the database's locale collation is not modelled.
- ExerciseLibrary.GroupByCategory: the source groups into a plain object, so a category named after an `Object.prototype` property (`constructor`, `toString`, `__proto__`) finds an inherited value, `push` throws and the library is never set (components/CreateTaskModal.tsx:60-65, components/CreateRoutineModal.tsx:66-71); the map model has no such path.
- Rows.TaskItemRow: `actual_weight` is an integer. The source stores `parseFloat` values and shows them with `toString()` (components/TaskItem.tsx:43-44, 58); decimal weights and their text are not modelled.
- Wall-clock time. `new Date()`, the local midnight of the selected date and the `setHours` of the editor's schedule time are parameters: `selectedDate` is already the day's start, and `now` and `scheduledFor` are given.
- TaskCard.TaskItem.SaveItemProgress: takes reps and weight as given integers. `parseInt`/`parseFloat` of the typed text (`NaN`, leading digits, decimal weights) is not modelled. `TaskCard.ParseInt` reads back only the canonical decimal form.
- Dashboard.CompletedCount: the progress percentage derived from it is floating point and is not modelled; only the count and its bounds are.
- Interleaving of asynchronous handlers and React's deferred state updates: each handler runs as one sequential method. The optimistic update is written before the store call and the revert after it, as in the source.
- TaskCard.TaskItem.ToggleMainTask: the card's own flag is not re-synchronised when the page reverts a failed toggle. The page's revert is modelled in `Dashboard.DashboardPage.HandleToggle`, and the card keeps its own copy, as in the source.
- TaskCard.InitialItemDataLastWins: items are assumed to have distinct ids in practice; for a repeated id only the last item's text is stated.
- ExerciseEditor.AddOrUpdateAsWritten: an edit index beyond the list's length (which leaves a hole in a JavaScript array) is not modelled.
- The library's buttons that open the routine editor (`templateToEdit`, `isCreateModalOpen`) are modelled as the routine editor's `Open`, with or without a routine.

## Findings

| source | as written | input that shows it | evidently intended | confidence | as-written member | corrected member |
|---|---|---|---|---|---|---|
| components/CreateTaskModal.tsx:107-120 | Removing an exercise before the one under edit leaves `editingIndex` unchanged, so it now points at the next exercise | List [Sentadilla, Zancada], edit position 1, rename it, remove position 0, save: the list becomes [Zancada, Zancada lateral] instead of [Zancada lateral]; in the routine editor, whose remove also keeps the index, that is what is shown; in the task editor the save then sets `editingIndex` to null and the effect of the third row empties the list. The task editor's defects belong to the component: this dashboard never opens it, since its open flag is only ever set to false (app/dashboard/page.tsx:41, 383-384) | The index follows the edited exercise (shifted down by one) | not executed | ExerciseEditor.StaleIndexAfterRemovingEarlierExercise | ExerciseEditor.Remove |
| components/CreateRoutineModal.tsx:188 | The inline remove changes only the list; the form and `editingIndex` stay on the removed exercise | List [Sentadilla, Zancada], edit position 0, remove position 0, press the button: the list becomes [Sentadilla], and Zancada is lost | Removing the edited exercise clears the form and the index | not executed | ExerciseEditor.EditedExerciseRemovedInRoutineEditor | ExerciseEditor.Remove |
| components/CreateTaskModal.tsx:70-78 | The opening effect depends on `editingIndex` and resets the title and list whenever it becomes null while open, which saving or removing an edited exercise does | Open, add two exercises, edit one, save: the title and the whole list are emptied. The defect belongs to the component: this dashboard never opens it, since its open flag is only ever set to false (app/dashboard/page.tsx:41, 383-384) | The title and list are reset only when the modal opens | not executed | CreateTask.SavingAnEditEmptiesTheListAsWritten | CreateTask.CreateTaskModal.Open |
| components/CreateRoutineModal.tsx:46-59 | Opening the routine editor replaces the name and the list but keeps `editingIndex` and the form; the editor stays mounted inside the library (components/RoutineLibraryModal.tsx:204-210), so a position clicked in one routine is still under edit in the next; the task editor's submit clears its list the same way (components/CreateTaskModal.tsx:194-195) | Click position 1 of [Sentadilla, Zancada], close, open [Press banca, Sentadilla, Remo], press the button: the list becomes [Press banca, Zancada, Remo], overwriting Sentadilla; a clicked position past the new list's end leaves a hole | Opening a list ends any edit, so the form is appended: [Press banca, Sentadilla, Remo, Zancada] | not executed | ExerciseEditor.ReopenedEditorOverwritesAsWritten | ExerciseEditor.ListEditor.ReplaceList |
