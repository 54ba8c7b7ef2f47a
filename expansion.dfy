/**
 * The row builders: how an editor list, a routine or an existing task is turned
 * into the payload of a header insert and of an item batch insert. Every item
 * builder numbers its rows by position (`sort_order: idx`).
 */
module Expansion {
  import opened Rows
  import opened Backend

  /** The suffix a duplicated task title or routine name receives. */
  const CopySuffix: string := " (Copia)"

  function CopyName(s: string): (r: string)
    ensures |r| == |s| + |CopySuffix| && r[..|s|] == s && r[|s|..] == CopySuffix
  {
    s + CopySuffix
  }

  /** The `daily_tasks` payload of a task created in the editor: a workout with the typed title. */
  function CreatedTaskHeader(user: UserId, title: string, scheduledFor: Time): (d: TaskDraft)
    ensures d.userId == user && d.title == title && d.taskType == Workout && d.scheduledFor == scheduledFor
  {
    TaskDraft(user, title, Workout, scheduledFor)
  }

  /** The header of a duplicated task: same type, suffixed title, scheduled at the selected date. */
  function DuplicateHeader(source: TaskRow, user: UserId, selectedDate: Time): (d: TaskDraft)
    ensures d.userId == user && d.title == CopyName(source.title)
    ensures d.taskType == source.taskType && d.scheduledFor == selectedDate
  {
    TaskDraft(user, CopyName(source.title), source.taskType, selectedDate)
  }

  /** The header of a task made from a routine: a workout titled with the routine's name. */
  function AppliedRoutineHeader(routine: RoutineRow, user: UserId, selectedDate: Time): (d: TaskDraft)
    ensures d.userId == user && d.title == routine.name
    ensures d.taskType == Workout && d.scheduledFor == selectedDate
  {
    TaskDraft(user, routine.name, Workout, selectedDate)
  }

  /** `task_items` rows for an editor list: the exercise's name becomes the title. */
  function TaskItemsFromExercises(exs: seq<Exercise>): (r: seq<TaskItemDraft>)
    ensures |r| == |exs| && NumberedTaskItems(r)
    ensures forall k :: 0 <= k < |r| ==> r[k].title == exs[k].name && r[k].rx == exs[k].rx
  {
    seq(|exs|, k requires 0 <= k < |exs| => TaskItemDraft(exs[k].name, exs[k].rx, k))
  }

  /** `routine_items` rows for an editor list: the exercise's name becomes `exercise_name`. */
  function RoutineItemsFromExercises(exs: seq<Exercise>): (r: seq<RoutineItemDraft>)
    ensures |r| == |exs| && NumberedRoutineItems(r)
    ensures forall k :: 0 <= k < |r| ==> r[k].exerciseName == exs[k].name && r[k].rx == exs[k].rx
  {
    seq(|exs|, k requires 0 <= k < |exs| => RoutineItemDraft(exs[k].name, exs[k].rx, k))
  }

  /** Items of a duplicated task: title and prescription copied; progress is not copied. */
  function CopiedTaskItems(items: seq<TaskItemRow>): (r: seq<TaskItemDraft>)
    ensures |r| == |items| && NumberedTaskItems(r)
    ensures forall k :: 0 <= k < |r| ==> r[k].title == items[k].title && r[k].rx == items[k].rx
  {
    seq(|items|, k requires 0 <= k < |items| => TaskItemDraft(items[k].title, items[k].rx, k))
  }

  /** Items of a task made from a routine: `exercise_name` becomes the title. */
  function TaskItemsFromRoutine(items: seq<RoutineItemRow>): (r: seq<TaskItemDraft>)
    ensures |r| == |items| && NumberedTaskItems(r)
    ensures forall k :: 0 <= k < |r| ==> r[k].title == items[k].exerciseName && r[k].rx == items[k].rx
  {
    seq(|items|, k requires 0 <= k < |items| => TaskItemDraft(items[k].exerciseName, items[k].rx, k))
  }

  /** Items of a duplicated routine: name and prescription copied, positions renumbered. */
  function CopiedRoutineItems(items: seq<RoutineItemRow>): (r: seq<RoutineItemDraft>)
    ensures |r| == |items| && NumberedRoutineItems(r)
    ensures forall k :: 0 <= k < |r| ==> r[k].exerciseName == items[k].exerciseName && r[k].rx == items[k].rx
  {
    seq(|items|, k requires 0 <= k < |items| => RoutineItemDraft(items[k].exerciseName, items[k].rx, k))
  }

  /** A routine's items loaded into the routine editor: `exercise_name` becomes the name. */
  function ExercisesFromRoutine(items: seq<RoutineItemRow>): (r: seq<Exercise>)
    ensures |r| == |items|
    ensures forall k :: 0 <= k < |r| ==> r[k].name == items[k].exerciseName && r[k].rx == items[k].rx
  {
    seq(|items|, k requires 0 <= k < |items| => Exercise(items[k].exerciseName, items[k].rx))
  }

  /**
   * The template saved beside a task holds the same rows as the task itself,
   * with `exercise_name` in the place of `title`.
   */
  lemma TemplateMirrorsTaskItems(exs: seq<Exercise>)
    ensures |RoutineItemsFromExercises(exs)| == |TaskItemsFromExercises(exs)|
    ensures forall k :: 0 <= k < |exs| ==>
      var t := TaskItemsFromExercises(exs)[k];
      RoutineItemsFromExercises(exs)[k] == RoutineItemDraft(t.title, t.rx, t.sortOrder)
  {
  }

  /** Saving an editor list as a routine and loading that routine gives the list back. */
  lemma SaveThenLoadRoutine(exs: seq<Exercise>, routineId: Id, firstId: Id)
    ensures ExercisesFromRoutine(NewRoutineItemRows(routineId, firstId, RoutineItemsFromExercises(exs))) == exs
  {
  }

  /**
   * Loading a routine into the editor and submitting it unchanged writes the same
   * ordered (exercise_name, prescription) rows, renumbered 0..n-1; when the routine
   * was already numbered that way the rows are exactly its own.
   */
  lemma LoadThenSaveRoutine(items: seq<RoutineItemRow>)
    ensures RoutineItemsFromExercises(ExercisesFromRoutine(items)) == CopiedRoutineItems(items)
    ensures (forall k :: 0 <= k < |items| ==> items[k].sortOrder == k) ==>
      RoutineItemsFromExercises(ExercisesFromRoutine(items)) == seq(|items|, k requires 0 <= k < |items| => items[k].Draft())
  {
  }

  /**
   * Applying a routine saved from an editor list creates the same item rows as
   * creating the task from that list directly.
   */
  lemma ApplyingSavedRoutineMatchesCreate(exs: seq<Exercise>, routineId: Id, firstId: Id)
    ensures TaskItemsFromRoutine(NewRoutineItemRows(routineId, firstId, RoutineItemsFromExercises(exs)))
         == TaskItemsFromExercises(exs)
  {
  }

  /** Duplicating a task whose items were numbered by position reproduces their rows exactly. */
  lemma DuplicateReproducesNumberedItems(items: seq<TaskItemRow>)
    requires forall k :: 0 <= k < |items| ==> items[k].sortOrder == k
    ensures CopiedTaskItems(items) == seq(|items|, k requires 0 <= k < |items| => items[k].Draft())
  {
  }

  /** A duplicate of a duplicated routine has the same item rows as the first duplicate. */
  lemma DuplicateOfDuplicateRoutine(items: seq<RoutineItemRow>, routineId: Id, firstId: Id)
    ensures CopiedRoutineItems(NewRoutineItemRows(routineId, firstId, CopiedRoutineItems(items)))
         == CopiedRoutineItems(items)
  {
  }
}
