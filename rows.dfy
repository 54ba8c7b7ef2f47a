/**
 * The records the application exchanges with its backend: daily tasks and their
 * items, routines and their items, the exercise catalogue, and the payloads the
 * components send when they insert rows.
 */
module Rows {

  datatype Option<T> = None | Some(value: T)

  /** Row identifiers issued by the backend. */
  type Id = nat

  /** The id of the signed-in user that owns tasks and routines. */
  type UserId = string

  /** A timestamp in milliseconds; every reading of the wall clock is a parameter. */
  type Time = int

  datatype TaskType = Meal | Workout

  /** The five prescription columns every exercise row carries. */
  datatype Prescription = Prescription(
    series: int,
    rir: int,
    tempo: string,
    trainingMethod: string,  // the `method` column: NORMAL, AMRAP, REST PAUSE or DROP SET
    prescribedReps: string)

  /** An exercise in an editor's form or list (`ExerciseItem`). */
  datatype Exercise = Exercise(name: string, rx: Prescription)

  /** One row of the exercise catalogue; an absent category is `None`. */
  datatype LibraryEntry = LibraryEntry(name: string, category: Option<string>)

  /** A row of `daily_tasks`. */
  datatype TaskRow = TaskRow(
    id: Id,
    userId: UserId,
    title: string,
    taskType: TaskType,
    isCompleted: bool,
    completedAt: Option<Time>,
    scheduledFor: Time)

  /** A row of `task_items`; `actualReps`/`actualWeight` are null until progress is recorded. */
  datatype TaskItemRow = TaskItemRow(
    id: Id,
    taskId: Id,
    title: string,
    rx: Prescription,
    sortOrder: int,
    isCompleted: bool,
    actualReps: Option<int>,
    actualWeight: Option<int>)
  {
    /** The columns a component sends when it inserts this row. */
    function Draft(): TaskItemDraft {
      TaskItemDraft(title, rx, sortOrder)
    }
  }

  /** A row of `routines`. */
  datatype RoutineRow = RoutineRow(id: Id, userId: UserId, name: string)

  /** A row of `routine_items`. */
  datatype RoutineItemRow = RoutineItemRow(
    id: Id,
    routineId: Id,
    exerciseName: string,
    rx: Prescription,
    sortOrder: int)
  {
    function Draft(): RoutineItemDraft {
      RoutineItemDraft(exerciseName, rx, sortOrder)
    }
  }

  /** The payload of a `daily_tasks` insert; every caller sends `is_completed: false`. */
  datatype TaskDraft = TaskDraft(userId: UserId, title: string, taskType: TaskType, scheduledFor: Time)

  /** The payload of one `task_items` row; `task_id` is added by the insert. */
  datatype TaskItemDraft = TaskItemDraft(title: string, rx: Prescription, sortOrder: int)

  /** The payload of one `routine_items` row; `routine_id` is added by the insert. */
  datatype RoutineItemDraft = RoutineItemDraft(exerciseName: string, rx: Prescription, sortOrder: int)

  /** A daily task as the dashboard fetches it, with its items nested (`*, task_items(*)`). */
  datatype Task = Task(row: TaskRow, items: seq<TaskItemRow>)

  /** A routine as the library fetches it, with its items nested (`*, routine_items(*)`). */
  datatype Routine = Routine(row: RoutineRow, items: seq<RoutineItemRow>)

  /** Every row's `sort_order` is its position in the sequence. */
  predicate NumberedTaskItems(ds: seq<TaskItemDraft>) {
    forall k :: 0 <= k < |ds| ==> ds[k].sortOrder == k
  }

  predicate NumberedRoutineItems(ds: seq<RoutineItemDraft>) {
    forall k :: 0 <= k < |ds| ==> ds[k].sortOrder == k
  }
}
