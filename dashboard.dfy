/**
 * The dashboard page: the tasks listed for the selected day, the handlers that
 * delete, duplicate, create-from-routine and toggle tasks, and the completed count.
 */
module Dashboard {
  import opened Rows
  import opened Seqs
  import opened Backend
  import opened Expansion

  /** `prev.filter(t => t.id !== id)`. */
  function WithoutTask(ts: seq<Task>, id: Id): (r: seq<Task>)
    ensures |r| <= |ts|
    ensures forall t :: t in r <==> t in ts && t.row.id != id
  {
    Filter(ts, (t: Task) => t.row.id != id)
  }

  /** The other tasks keep their relative order: removal distributes over concatenation. */
  lemma WithoutTaskKeepsOrder(a: seq<Task>, b: seq<Task>, id: Id)
    ensures WithoutTask(a + b, id) == WithoutTask(a, id) + WithoutTask(b, id)
  {
    FilterAppend(a, b, (t: Task) => t.row.id != id);
  }

  /** Removing an id that is not listed changes nothing, so removing twice is removing once. */
  lemma WithoutAbsentTask(ts: seq<Task>, id: Id)
    requires forall k :: 0 <= k < |ts| ==> ts[k].row.id != id
    ensures WithoutTask(ts, id) == ts
    ensures WithoutTask(WithoutTask(ts, id), id) == WithoutTask(ts, id)
  {
    FilterKeepsAll(ts, (t: Task) => t.row.id != id);
  }

  /** `prev.map(t => t.id === id ? { ...t, is_completed: state } : t)`: only the local flag changes. */
  function SetCompleted(ts: seq<Task>, id: Id, state: bool): (r: seq<Task>)
    ensures |r| == |ts|
    ensures forall k :: 0 <= k < |r| ==>
      if ts[k].row.id == id then r[k] == ts[k].(row := ts[k].row.(isCompleted := state)) else r[k] == ts[k]
  {
    seq(|ts|, k requires 0 <= k < |ts| =>
      if ts[k].row.id == id then ts[k].(row := ts[k].row.(isCompleted := state)) else ts[k])
  }

  /** The revert overrides the optimistic write: the last value set wins. */
  lemma SetCompletedTwice(ts: seq<Task>, id: Id, first: bool, second: bool)
    ensures SetCompleted(SetCompleted(ts, id, first), id, second) == SetCompleted(ts, id, second)
  {
  }

  /**
   * The revert writes `!state`, not the earlier value: the list is restored only
   * when the toggled task held `!state` before, which is the case for a toggle
   * that flips the flag.
   */
  lemma RevertRestoresFlippedTask(ts: seq<Task>, id: Id, state: bool)
    requires forall k :: 0 <= k < |ts| && ts[k].row.id == id ==> ts[k].row.isCompleted == !state
    ensures SetCompleted(SetCompleted(ts, id, state), id, !state) == ts
  {
    SetCompletedTwice(ts, id, state, !state);
    var r := SetCompleted(ts, id, !state);
    forall k | 0 <= k < |ts| ensures r[k] == ts[k] {
    }
  }

  /** `tasks.filter(t => t.is_completed).length`. */
  function CompletedCount(ts: seq<Task>): (n: nat)
    ensures n <= |ts|
    ensures ts == [] ==> n == 0
  {
    |Filter(ts, (t: Task) => t.row.isCompleted)|
  }

  /** Marking a task completed never lowers the count, and clearing it never raises it. */
  lemma {:induction false} CompletedCountMonotone(ts: seq<Task>, id: Id, state: bool)
    ensures state ==> CompletedCount(SetCompleted(ts, id, state)) >= CompletedCount(ts)
    ensures !state ==> CompletedCount(SetCompleted(ts, id, state)) <= CompletedCount(ts)
    decreases |ts|
  {
    if ts != [] {
      var r := SetCompleted(ts, id, state);
      assert r[1..] == SetCompleted(ts[1..], id, state);
      CompletedCountMonotone(ts[1..], id, state);
    }
  }

  /**
   * A duplicate scheduled on the selected day is listed for that day after the
   * refetch, not completed, with one item per original item: same title and
   * prescription, `sort_order` its position, not completed and without progress.
   */
  lemma DuplicateIsListed(t: Tables, source: Task, user: UserId, selectedDate: Time, okItems: bool)
    requires ValidTables(t)
    ensures var header := DuplicateHeader(source.row, user, selectedDate);
      var r := AddTask(t, header, CopiedTaskItems(source.items), true, okItems);
      var items := if okItems then NewTaskItemRows(t.nextId, t.nextId + 1, CopiedTaskItems(source.items)) else [];
      && Task(NewTaskRow(t.nextId, header), items) in DayListing(r.tasks, r.taskItems, user, selectedDate)
      && (okItems ==> |items| == |source.items|)
      && forall k :: 0 <= k < |items| ==>
           && items[k].title == source.items[k].title && items[k].rx == source.items[k].rx && items[k].sortOrder == k
           && !items[k].isCompleted && items[k].actualReps == None && items[k].actualWeight == None
  {
    AddedTaskIsListed(t, DuplicateHeader(source.row, user, selectedDate), CopiedTaskItems(source.items), okItems, selectedDate);
  }

  /**
   * A task made from a routine is listed for the selected day after the refetch,
   * as a workout titled with the routine's name, with one item per routine item.
   */
  lemma AppliedRoutineIsListed(t: Tables, routine: Routine, user: UserId, selectedDate: Time, okItems: bool)
    requires ValidTables(t)
    ensures var header := AppliedRoutineHeader(routine.row, user, selectedDate);
      var r := AddTask(t, header, TaskItemsFromRoutine(routine.items), true, okItems);
      var items := if okItems then NewTaskItemRows(t.nextId, t.nextId + 1, TaskItemsFromRoutine(routine.items)) else [];
      && Task(NewTaskRow(t.nextId, header), items) in DayListing(r.tasks, r.taskItems, user, selectedDate)
      && (okItems ==> |items| == |routine.items|)
      && forall k :: 0 <= k < |items| ==>
           items[k].title == routine.items[k].exerciseName && items[k].rx == routine.items[k].rx && items[k].sortOrder == k
  {
    var header := AppliedRoutineHeader(routine.row, user, selectedDate);
    var ds := TaskItemsFromRoutine(routine.items);
    var items := if okItems then NewTaskItemRows(t.nextId, t.nextId + 1, ds) else [];
    var r := AddTask(t, header, ds, true, okItems);
    assert Task(NewTaskRow(t.nextId, header), items) in DayListing(r.tasks, r.taskItems, user, selectedDate) by {
      AddedTaskIsListed(t, header, ds, okItems, selectedDate);
    }
    forall k | 0 <= k < |items|
      ensures items[k].title == routine.items[k].exerciseName && items[k].rx == routine.items[k].rx && items[k].sortOrder == k
    {
      assert items[k].Draft() == ds[k];
    }
  }

  class DashboardPage {
    var tasks: seq<Task>
    var loading: bool
    var user: Option<UserId>
    var selectedDate: Time
    var isLibraryOpen: bool

    /** The page starts loading, with no user and an empty list, on the given day. */
    constructor (today: Time)
      ensures tasks == [] && loading && user == None && selectedDate == today && !isLibraryOpen
    {
      tasks, loading, user, selectedDate, isLibraryOpen := [], true, None, today, false;
    }

    /** `fetchTasks`: the listing replaces the list when the query succeeds; loading ends either way. */
    method FetchTasks(store: Store, userId: UserId, date: Time, ok: bool)
      modifies this
      ensures tasks == if ok then DayListing(store.tasks, store.taskItems, userId, date) else old(tasks)
      ensures !loading && user == old(user) && selectedDate == old(selectedDate) && isLibraryOpen == old(isLibraryOpen)
    {
      loading := true;
      if ok {
        tasks := store.TasksForDay(userId, date);
      }
      loading := false;
    }

    /** `handleDelete`: the store delete, then, only if it succeeded, the same removal from the list. */
    method HandleDelete(store: Store, id: Id, ok: bool)
      requires store.Valid()
      modifies this, store
      ensures store.Valid()
      ensures tasks == if ok then WithoutTask(old(tasks), id) else old(tasks)
      ensures store.tasks == if ok then Filter(old(store.tasks), (t: TaskRow) => t.id != id) else old(store.tasks)
      ensures store.taskItems == if ok then Filter(old(store.taskItems), (it: TaskItemRow) => it.taskId != id) else old(store.taskItems)
      ensures store.routines == old(store.routines) && store.routineItems == old(store.routineItems)
      ensures loading == old(loading) && user == old(user) && selectedDate == old(selectedDate) && isLibraryOpen == old(isLibraryOpen)
    {
      var success := store.DeleteTask(id, ok);
      if success {
        tasks := WithoutTask(tasks, id);
      }
    }

    /**
     * `handleDuplicateRoutine`: nothing without a user; otherwise the copy's header,
     * its items only if the header came back, then the refetch. A failed header
     * ends loading and leaves the list as it was.
     */
    method HandleDuplicateRoutine(store: Store, task: Task, okHeader: bool, okItems: bool, okFetch: bool)
      requires store.Valid()
      modifies this, store
      ensures store.Valid()
      ensures user == old(user) && selectedDate == old(selectedDate) && isLibraryOpen == old(isLibraryOpen)
      ensures user.None? ==> unchanged(this) && store.Contents() == old(store.Contents())
      ensures user.Some? ==>
        && store.Contents() == AddTask(old(store.Contents()), DuplicateHeader(task.row, user.value, selectedDate),
                                       CopiedTaskItems(task.items), okHeader, okItems)
        && tasks == (if okHeader && okFetch then DayListing(store.tasks, store.taskItems, user.value, selectedDate) else old(tasks))
        && !loading
    {
      if user.None? {
        return;
      }
      loading := true;
      var created := InsertTaskWithItems(store, DuplicateHeader(task.row, user.value, selectedDate), CopiedTaskItems(task.items), okHeader, okItems);
      if created.None? {
        loading := false;
        return;
      }
      FetchTasks(store, user.value, selectedDate, okFetch);
    }

    /**
     * `handleApplyRoutine`: nothing without a user; otherwise a workout named like
     * the routine, its items only if the header came back, the refetch, and the
     * library closes. A failed header ends loading and leaves the library open.
     */
    method HandleApplyRoutine(store: Store, routine: Routine, okHeader: bool, okItems: bool, okFetch: bool)
      requires store.Valid()
      modifies this, store
      ensures store.Valid()
      ensures user == old(user) && selectedDate == old(selectedDate)
      ensures user.None? ==> unchanged(this) && store.Contents() == old(store.Contents())
      ensures user.Some? ==>
        && store.Contents() == AddTask(old(store.Contents()), AppliedRoutineHeader(routine.row, user.value, selectedDate),
                                       TaskItemsFromRoutine(routine.items), okHeader, okItems)
        && tasks == (if okHeader && okFetch then DayListing(store.tasks, store.taskItems, user.value, selectedDate) else old(tasks))
        && !loading
        && isLibraryOpen == (old(isLibraryOpen) && !okHeader)
    {
      if user.None? {
        return;
      }
      loading := true;
      var created := InsertTaskWithItems(store, AppliedRoutineHeader(routine.row, user.value, selectedDate), TaskItemsFromRoutine(routine.items), okHeader, okItems);
      if created.None? {
        loading := false;
        return;
      }
      FetchTasks(store, user.value, selectedDate, okFetch);
      isLibraryOpen := false;
    }

    /**
     * `handleToggle`: the flag is set in the list first; the store records the flag
     * and the completion time; on failure the flag is set to `!state`.
     */
    method HandleToggle(store: Store, id: Id, state: bool, now: Time, ok: bool)
      requires store.Valid()
      modifies this, store
      ensures store.Valid()
      ensures tasks == SetCompleted(old(tasks), id, if ok then state else !state)
      ensures store.tasks == if ok then WithCompletion(old(store.tasks), id, state, now) else old(store.tasks)
      ensures store.taskItems == old(store.taskItems) && store.routines == old(store.routines)
      ensures store.routineItems == old(store.routineItems)
      ensures loading == old(loading) && user == old(user) && selectedDate == old(selectedDate) && isLibraryOpen == old(isLibraryOpen)
    {
      tasks := SetCompleted(tasks, id, state);
      var success := store.UpdateTaskCompletion(id, state, now, ok);
      if !success {
        SetCompletedTwice(old(tasks), id, state, !state);
        tasks := SetCompleted(tasks, id, !state);
      }
    }
  }
}
