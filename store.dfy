/**
 * The hosted backend, as an in-memory store: four tables kept in insertion order,
 * a counter that issues fresh ids, and an explicit outcome `ok` for every call
 * (the backend answering with an error is `ok == false`).
 *
 * The store's own guarantees that the components rely on are modelled here: a
 * batch insert writes all of its rows or none, an insert whose parent row is
 * missing fails (foreign key), deleting a task or a routine deletes its items,
 * and the day listing is filtered and ordered as the query asks.
 */
module Backend {
  import opened Rows
  import opened Seqs
  import opened ScheduleOrder
  import opened NameOrder

  /** Length of the day window of the task listing. */
  const DayMillis: int := 86_400_000

  /** `start <= scheduled_for < start + 1 day`, the listing's half-open window. */
  predicate InDay(t: TaskRow, dayStart: Time) {
    dayStart <= t.scheduledFor < dayStart + DayMillis
  }

  /** A task is completed exactly when it carries a completion time. */
  predicate CompletionConsistent(t: TaskRow) {
    t.isCompleted <==> t.completedAt.Some?
  }

  /** An item is never completed without both performed values. */
  predicate ProgressConsistent(it: TaskItemRow) {
    it.isCompleted ==> it.actualReps.Some? && it.actualWeight.Some?
  }

  function TaskIds(ts: seq<TaskRow>): set<Id> {
    set t | t in ts :: t.id
  }

  function RoutineIds(rs: seq<RoutineRow>): set<Id> {
    set r | r in rs :: r.id
  }

  /** The row a successful `daily_tasks` insert stores for `d`. */
  function NewTaskRow(id: Id, d: TaskDraft): (t: TaskRow)
    ensures t.id == id && !t.isCompleted && CompletionConsistent(t)
  {
    TaskRow(id, d.userId, d.title, d.taskType, false, None, d.scheduledFor)
  }

  /** The rows a successful `task_items` batch insert stores; ids are issued in order from `firstId`. */
  function NewTaskItemRows(taskId: Id, firstId: Id, ds: seq<TaskItemDraft>): (r: seq<TaskItemRow>)
    ensures |r| == |ds|
    ensures forall k :: 0 <= k < |r| ==>
      && r[k].id == firstId + k && r[k].taskId == taskId && r[k].Draft() == ds[k]
      && !r[k].isCompleted && r[k].actualReps == None && r[k].actualWeight == None
  {
    seq(|ds|, k requires 0 <= k < |ds| =>
      TaskItemRow(firstId + k, taskId, ds[k].title, ds[k].rx, ds[k].sortOrder, false, None, None))
  }

  /** The rows a successful `routine_items` batch insert stores. */
  function NewRoutineItemRows(routineId: Id, firstId: Id, ds: seq<RoutineItemDraft>): (r: seq<RoutineItemRow>)
    ensures |r| == |ds|
    ensures forall k :: 0 <= k < |r| ==>
      r[k].id == firstId + k && r[k].routineId == routineId && r[k].Draft() == ds[k]
  {
    seq(|ds|, k requires 0 <= k < |ds| =>
      RoutineItemRow(firstId + k, routineId, ds[k].exerciseName, ds[k].rx, ds[k].sortOrder))
  }

  function ItemsOfTask(items: seq<TaskItemRow>, taskId: Id): seq<TaskItemRow> {
    Filter(items, (it: TaskItemRow) => it.taskId == taskId)
  }

  function ItemsOfRoutine(items: seq<RoutineItemRow>, routineId: Id): seq<RoutineItemRow> {
    Filter(items, (it: RoutineItemRow) => it.routineId == routineId)
  }

  /** `update({ is_completed, completed_at }).eq('id', id)` on the task table. */
  function WithCompletion(ts: seq<TaskRow>, id: Id, state: bool, now: Time): (r: seq<TaskRow>)
    ensures |r| == |ts|
    ensures forall k :: 0 <= k < |r| ==>
      if ts[k].id == id
      then r[k] == ts[k].(isCompleted := state, completedAt := if state then Some(now) else None)
      else r[k] == ts[k]
  {
    seq(|ts|, k requires 0 <= k < |ts| =>
      if ts[k].id == id
      then ts[k].(isCompleted := state, completedAt := if state then Some(now) else None)
      else ts[k])
  }

  /** `update({ name }).eq('id', id)` on `routines`: the routine with that id takes the new name. */
  function Renamed(rs: seq<RoutineRow>, id: Id, name: string): (r: seq<RoutineRow>)
    ensures |r| == |rs|
    ensures forall k :: 0 <= k < |r| ==> r[k] == if rs[k].id == id then rs[k].(name := name) else rs[k]
  {
    seq(|rs|, k requires 0 <= k < |rs| => if rs[k].id == id then rs[k].(name := name) else rs[k])
  }

  /** `update({ is_completed: true, actual_reps, actual_weight }).eq('id', itemId)`. */
  function WithProgress(items: seq<TaskItemRow>, itemId: Id, reps: int, weight: int): (r: seq<TaskItemRow>)
    ensures |r| == |items|
    ensures forall k :: 0 <= k < |r| ==>
      if items[k].id == itemId
      then r[k] == items[k].(isCompleted := true, actualReps := Some(reps), actualWeight := Some(weight))
      else r[k] == items[k]
  {
    seq(|items|, k requires 0 <= k < |items| =>
      if items[k].id == itemId
      then items[k].(isCompleted := true, actualReps := Some(reps), actualWeight := Some(weight))
      else items[k])
  }

  /**
   * The answer to `select('*, task_items(*)').eq('user_id', user)
   * .gte('scheduled_for', start).lt('scheduled_for', end).order('scheduled_for')`.
   */
  function DayListing(tasks: seq<TaskRow>, items: seq<TaskItemRow>, user: UserId, dayStart: Time): (r: seq<Task>)
    ensures forall i, j :: 0 <= i < j < |r| ==> r[i].row.scheduledFor <= r[j].row.scheduledFor
    ensures forall t :: t in r <==>
      t.row in tasks && t.row.userId == user && InDay(t.row, dayStart) && t.items == ItemsOfTask(items, t.row.id)
  {
    var chosen := Filter(tasks, (t: TaskRow) => t.userId == user && InDay(t, dayStart));
    var rows := SortBySchedule(chosen);
    SortByScheduleCorrect(chosen);
    SameMembers(rows, chosen);
    WithItemsMembers(rows, items);
    WithItems(rows, items)
  }

  /** Each row with its items nested. */
  function WithItems(rows: seq<TaskRow>, items: seq<TaskItemRow>): (r: seq<Task>)
    ensures |r| == |rows|
    ensures forall k :: 0 <= k < |r| ==> r[k].row == rows[k]
  {
    seq(|rows|, k requires 0 <= k < |rows| => Task(rows[k], ItemsOfTask(items, rows[k].id)))
  }

  lemma WithItemsMembers(rows: seq<TaskRow>, items: seq<TaskItemRow>)
    ensures forall t :: t in WithItems(rows, items) <==> t.row in rows && t.items == ItemsOfTask(items, t.row.id)
  {
    var r := WithItems(rows, items);
    forall t: Task | t.row in rows && t.items == ItemsOfTask(items, t.row.id) ensures t in r {
      var k :| 0 <= k < |rows| && rows[k] == t.row;
      assert r[k] == t;
    }
  }

  lemma SameMembers<T>(a: seq<T>, b: seq<T>)
    requires multiset(a) == multiset(b)
    ensures |a| == |b|
    ensures forall x :: x in a <==> x in b
  {
    assert |multiset(a)| == |multiset(b)|;
    forall x ensures x in a <==> x in b {
      assert x in a <==> x in multiset(a);
      assert x in b <==> x in multiset(b);
    }
  }

  /** The answer to `select('*, routine_items(*)').order('name', { ascending: true })`. */
  function RoutineListing(routines: seq<RoutineRow>, items: seq<RoutineItemRow>): (r: seq<Routine>)
    ensures |r| == |routines|
    ensures forall i, j :: 0 <= i < j < |r| ==> NameLe(r[i].row.name, r[j].row.name)
    ensures forall x :: x in r <==> x.row in routines && x.items == ItemsOfRoutine(items, x.row.id)
  {
    var rows := SortByName(routines);
    SortByNameCorrect(routines);
    SameMembers(rows, routines);
    WithRoutineItemsMembers(rows, items);
    WithRoutineItems(rows, items)
  }

  /** Each routine row with its items nested. */
  function WithRoutineItems(rows: seq<RoutineRow>, items: seq<RoutineItemRow>): (r: seq<Routine>)
    ensures |r| == |rows|
    ensures forall k :: 0 <= k < |r| ==> r[k].row == rows[k]
  {
    seq(|rows|, k requires 0 <= k < |rows| => Routine(rows[k], ItemsOfRoutine(items, rows[k].id)))
  }

  lemma WithRoutineItemsMembers(rows: seq<RoutineRow>, items: seq<RoutineItemRow>)
    ensures forall x :: x in WithRoutineItems(rows, items) <==> x.row in rows && x.items == ItemsOfRoutine(items, x.row.id)
  {
    var r := WithRoutineItems(rows, items);
    forall x: Routine | x.row in rows && x.items == ItemsOfRoutine(items, x.row.id) ensures x in r {
      var k :| 0 <= k < |rows| && rows[k] == x.row;
      assert r[k] == x;
    }
  }

  /** The contents of every table, and the id counter. */
  datatype Tables = Tables(
    tasks: seq<TaskRow>, taskItems: seq<TaskItemRow>,
    routines: seq<RoutineRow>, routineItems: seq<RoutineItemRow>, nextId: Id)

  /**
   * Every id was issued before `nextId`, every item belongs to an existing
   * parent, tasks are completed exactly when they carry a completion time,
   * and completed items carry both performed values.
   */
  predicate ValidTables(t: Tables) {
    && (forall r :: r in t.tasks ==> r.id < t.nextId && CompletionConsistent(r))
    && (forall it :: it in t.taskItems ==> it.id < t.nextId && it.taskId in TaskIds(t.tasks) && ProgressConsistent(it))
    && (forall r :: r in t.routines ==> r.id < t.nextId)
    && (forall it :: it in t.routineItems ==> it.id < t.nextId && it.routineId in RoutineIds(t.routines))
  }

  class Store {
    var tasks: seq<TaskRow>
    var taskItems: seq<TaskItemRow>
    var routines: seq<RoutineRow>
    var routineItems: seq<RoutineItemRow>
    var nextId: Id

    ghost predicate Valid()
      reads this
    {
      ValidTables(Contents())
    }

    function Contents(): Tables
      reads this
    {
      Tables(tasks, taskItems, routines, routineItems, nextId)
    }

    constructor ()
      ensures Valid()
      ensures tasks == [] && taskItems == [] && routines == [] && routineItems == []
    {
      tasks, taskItems, routines, routineItems := [], [], [], [];
      nextId := 0;
    }

    /** The tasks of `user` listed for the day starting at `dayStart`. */
    function TasksForDay(user: UserId, dayStart: Time): seq<Task>
      reads this
    {
      DayListing(tasks, taskItems, user, dayStart)
    }

    function AllRoutines(): seq<Routine>
      reads this
    {
      RoutineListing(routines, routineItems)
    }

    /** `insert([d]).select().single()` on `daily_tasks`: the stored row, or nothing on failure. */
    method InsertTask(d: TaskDraft, ok: bool) returns (r: Option<TaskRow>)
      requires Valid()
      modifies this
      ensures Valid()
      ensures r == if ok then Some(NewTaskRow(old(nextId), d)) else None
      ensures tasks == if ok then old(tasks) + [r.value] else old(tasks)
      ensures ok ==> r.value.id in TaskIds(tasks)
      ensures nextId == if ok then old(nextId) + 1 else old(nextId)
      ensures taskItems == old(taskItems) && routines == old(routines) && routineItems == old(routineItems)
    {
      if !ok {
        return None;
      }
      var row := NewTaskRow(nextId, d);
      tasks := tasks + [row];
      nextId := nextId + 1;
      r := Some(row);
    }

    /** A batch insert into `task_items`: all rows or none; it fails when the task does not exist. */
    method InsertTaskItems(taskId: Id, ds: seq<TaskItemDraft>, ok: bool) returns (success: bool)
      requires Valid()
      modifies this
      ensures Valid()
      ensures success == (ok && taskId in TaskIds(tasks))
      ensures taskItems == if success then old(taskItems) + NewTaskItemRows(taskId, old(nextId), ds) else old(taskItems)
      ensures nextId == if success then old(nextId) + |ds| else old(nextId)
      ensures tasks == old(tasks) && routines == old(routines) && routineItems == old(routineItems)
    {
      success := ok && taskId in TaskIds(tasks);
      if success {
        var added := NewTaskItemRows(taskId, nextId, ds);
        taskItems := taskItems + added;
        nextId := nextId + |ds|;
      }
    }

    /** Sets `is_completed` and `completed_at` together on the task with that id. */
    method UpdateTaskCompletion(id: Id, state: bool, now: Time, ok: bool) returns (success: bool)
      requires Valid()
      modifies this
      ensures Valid()
      ensures success == ok
      ensures tasks == if ok then WithCompletion(old(tasks), id, state, now) else old(tasks)
      ensures taskItems == old(taskItems) && routines == old(routines) && routineItems == old(routineItems)
      ensures nextId == old(nextId)
    {
      success := ok;
      if ok {
        var before := tasks;
        tasks := WithCompletion(tasks, id, state, now);
        assert TaskIds(tasks) == TaskIds(before) by {
          forall x | x in TaskIds(before) ensures x in TaskIds(tasks) {
            var k :| 0 <= k < |before| && before[k].id == x;
            assert tasks[k].id == x;
          }
        }
      }
    }

    /** `delete().eq('id', id)` on `daily_tasks`; the task's items go with it. */
    method DeleteTask(id: Id, ok: bool) returns (success: bool)
      requires Valid()
      modifies this
      ensures Valid()
      ensures success == ok
      ensures tasks == if ok then Filter(old(tasks), (t: TaskRow) => t.id != id) else old(tasks)
      ensures taskItems == if ok then Filter(old(taskItems), (it: TaskItemRow) => it.taskId != id) else old(taskItems)
      ensures routines == old(routines) && routineItems == old(routineItems) && nextId == old(nextId)
    {
      success := ok;
      if ok {
        var before := tasks;
        tasks := Filter(tasks, (t: TaskRow) => t.id != id);
        taskItems := Filter(taskItems, (it: TaskItemRow) => it.taskId != id);
        forall it | it in taskItems ensures it.taskId in TaskIds(tasks) {
          var t :| t in before && t.id == it.taskId;
          assert t in tasks;
        }
      }
    }

    /** Records performed reps and weight on an item and marks it completed. */
    method UpdateItemProgress(itemId: Id, reps: int, weight: int, ok: bool) returns (success: bool)
      requires Valid()
      modifies this
      ensures Valid()
      ensures success == ok
      ensures taskItems == if ok then WithProgress(old(taskItems), itemId, reps, weight) else old(taskItems)
      ensures tasks == old(tasks) && routines == old(routines) && routineItems == old(routineItems)
      ensures nextId == old(nextId)
    {
      success := ok;
      if ok {
        taskItems := WithProgress(taskItems, itemId, reps, weight);
      }
    }

    /** `insert([{ user_id, name }]).select().single()` on `routines`. */
    method InsertRoutine(user: UserId, name: string, ok: bool) returns (r: Option<RoutineRow>)
      requires Valid()
      modifies this
      ensures Valid()
      ensures r == if ok then Some(RoutineRow(old(nextId), user, name)) else None
      ensures routines == if ok then old(routines) + [r.value] else old(routines)
      ensures ok ==> r.value.id in RoutineIds(routines)
      ensures nextId == if ok then old(nextId) + 1 else old(nextId)
      ensures tasks == old(tasks) && taskItems == old(taskItems) && routineItems == old(routineItems)
    {
      if !ok {
        return None;
      }
      var row := RoutineRow(nextId, user, name);
      routines := routines + [row];
      nextId := nextId + 1;
      r := Some(row);
    }

    /** `update({ name }).eq('id', id)` on `routines`. */
    method UpdateRoutineName(id: Id, name: string, ok: bool) returns (success: bool)
      requires Valid()
      modifies this
      ensures Valid()
      ensures success == ok
      ensures routines == if ok then Renamed(old(routines), id, name) else old(routines)
      ensures tasks == old(tasks) && taskItems == old(taskItems) && routineItems == old(routineItems)
      ensures nextId == old(nextId)
    {
      success := ok;
      if ok {
        var before := routines;
        routines := Renamed(before, id, name);
        assert RoutineIds(routines) == RoutineIds(before) by {
          forall x | x in RoutineIds(before) ensures x in RoutineIds(routines) {
            var k :| 0 <= k < |before| && before[k].id == x;
            assert routines[k].id == x;
          }
        }
      }
    }

    /** `delete().eq('routine_id', routineId)` on `routine_items`. */
    method DeleteRoutineItems(routineId: Id, ok: bool) returns (success: bool)
      requires Valid()
      modifies this
      ensures Valid()
      ensures success == ok
      ensures routineItems == if ok then Filter(old(routineItems), (it: RoutineItemRow) => it.routineId != routineId) else old(routineItems)
      ensures tasks == old(tasks) && taskItems == old(taskItems) && routines == old(routines)
      ensures nextId == old(nextId)
    {
      success := ok;
      if ok {
        routineItems := Filter(routineItems, (it: RoutineItemRow) => it.routineId != routineId);
      }
    }

    /** A batch insert into `routine_items`: all rows or none; it fails when the routine does not exist. */
    method InsertRoutineItems(routineId: Id, ds: seq<RoutineItemDraft>, ok: bool) returns (success: bool)
      requires Valid()
      modifies this
      ensures Valid()
      ensures success == (ok && routineId in RoutineIds(routines))
      ensures routineItems == if success then old(routineItems) + NewRoutineItemRows(routineId, old(nextId), ds) else old(routineItems)
      ensures nextId == if success then old(nextId) + |ds| else old(nextId)
      ensures tasks == old(tasks) && taskItems == old(taskItems) && routines == old(routines)
    {
      success := ok && routineId in RoutineIds(routines);
      if success {
        var added := NewRoutineItemRows(routineId, nextId, ds);
        routineItems := routineItems + added;
        nextId := nextId + |ds|;
      }
    }

    /** `delete().eq('id', id)` on `routines`; the routine's items go with it. */
    method DeleteRoutine(id: Id, ok: bool) returns (success: bool)
      requires Valid()
      modifies this
      ensures Valid()
      ensures success == ok
      ensures routines == if ok then Filter(old(routines), (r: RoutineRow) => r.id != id) else old(routines)
      ensures routineItems == if ok then Filter(old(routineItems), (it: RoutineItemRow) => it.routineId != id) else old(routineItems)
      ensures tasks == old(tasks) && taskItems == old(taskItems) && nextId == old(nextId)
    {
      success := ok;
      if ok {
        var before := routines;
        routines := Filter(routines, (r: RoutineRow) => r.id != id);
        routineItems := Filter(routineItems, (it: RoutineItemRow) => it.routineId != id);
        forall it | it in routineItems ensures it.routineId in RoutineIds(routines) {
          var r :| r in before && r.id == it.routineId;
          assert r in routines;
        }
      }
    }
  }

  // ---- Header-then-items sequences ----

  /**
   * The tables after a task header insert followed, only when the header came
   * back, by the batch insert of its items. Ids are issued in call order.
   */
  function AddTask(t: Tables, d: TaskDraft, items: seq<TaskItemDraft>, okTask: bool, okItems: bool): (r: Tables)
    ensures r.nextId >= t.nextId
  {
    if !okTask then t
    else
      var id := t.nextId;
      t.(tasks := t.tasks + [NewTaskRow(id, d)],
         taskItems := t.taskItems + (if okItems then NewTaskItemRows(id, id + 1, items) else []),
         nextId := id + 1 + (if okItems then |items| else 0))
  }

  /** The same for a routine header and its items. */
  function AddRoutine(t: Tables, user: UserId, name: string, items: seq<RoutineItemDraft>, okRoutine: bool, okItems: bool): (r: Tables)
    ensures r.nextId >= t.nextId
  {
    if !okRoutine then t
    else
      var id := t.nextId;
      t.(routines := t.routines + [RoutineRow(id, user, name)],
         routineItems := t.routineItems + (if okItems then NewRoutineItemRows(id, id + 1, items) else []),
         nextId := id + 1 + (if okItems then |items| else 0))
  }

  /** No stored item belongs to the id the counter issues next. */
  lemma NoItemsOfNextId(t: Tables)
    requires ValidTables(t)
    ensures ItemsOfTask(t.taskItems, t.nextId) == []
    ensures ItemsOfRoutine(t.routineItems, t.nextId) == []
  {
    forall i | 0 <= i < |t.taskItems| ensures t.taskItems[i].taskId != t.nextId {
      assert t.taskItems[i] in t.taskItems;
    }
    FilterNone(t.taskItems, (it: TaskItemRow) => it.taskId == t.nextId);
    forall i | 0 <= i < |t.routineItems| ensures t.routineItems[i].routineId != t.nextId {
      assert t.routineItems[i] in t.routineItems;
    }
    FilterNone(t.routineItems, (it: RoutineItemRow) => it.routineId == t.nextId);
  }

  /** No stored routine item belongs to an id the counter has not issued yet. */
  lemma NoRoutineItemsBeyond(t: Tables, id: Id)
    requires ValidTables(t) && id >= t.nextId
    ensures ItemsOfRoutine(t.routineItems, id) == []
  {
    forall i | 0 <= i < |t.routineItems| ensures t.routineItems[i].routineId != id {
      assert t.routineItems[i] in t.routineItems;
    }
    FilterNone(t.routineItems, (it: RoutineItemRow) => it.routineId == id);
  }

  /** Items appended for a new id leave the items of every other id as they were. */
  lemma OtherTaskItemsKept(items: seq<TaskItemRow>, added: seq<TaskItemRow>, id: Id, other: Id)
    requires forall i :: 0 <= i < |added| ==> added[i].taskId == id
    requires other != id
    ensures ItemsOfTask(items + added, other) == ItemsOfTask(items, other)
  {
    FilterAppend(items, added, (it: TaskItemRow) => it.taskId == other);
    FilterNone(added, (it: TaskItemRow) => it.taskId == other);
  }

  /** Items appended for an id no stored item has are exactly that id's items. */
  lemma NewTaskItemsOnly(items: seq<TaskItemRow>, added: seq<TaskItemRow>, id: Id)
    requires ItemsOfTask(items, id) == []
    requires forall i :: 0 <= i < |added| ==> added[i].taskId == id
    ensures ItemsOfTask(items + added, id) == added
  {
    FilterAppend(items, added, (it: TaskItemRow) => it.taskId == id);
    FilterKeepsAll(added, (it: TaskItemRow) => it.taskId == id);
  }

  /** A task written by `AddTask` has exactly the submitted items, or none if their insert failed. */
  lemma AddedTaskItems(t: Tables, d: TaskDraft, items: seq<TaskItemDraft>, okItems: bool)
    requires ValidTables(t)
    ensures var r := AddTask(t, d, items, true, okItems);
      ItemsOfTask(r.taskItems, t.nextId) == (if okItems then NewTaskItemRows(t.nextId, t.nextId + 1, items) else [])
  {
    var id := t.nextId;
    var added := if okItems then NewTaskItemRows(id, id + 1, items) else [];
    assert AddTask(t, d, items, true, okItems).taskItems == t.taskItems + added;
    NoItemsOfNextId(t);
    NewTaskItemsOnly(t.taskItems, added, id);
  }

  /** Every other task keeps the items it had. */
  lemma AddTaskKeepsOtherItems(t: Tables, d: TaskDraft, items: seq<TaskItemDraft>, okTask: bool, okItems: bool, other: Id)
    requires other != t.nextId
    ensures ItemsOfTask(AddTask(t, d, items, okTask, okItems).taskItems, other) == ItemsOfTask(t.taskItems, other)
  {
    if okTask {
      var added := if okItems then NewTaskItemRows(t.nextId, t.nextId + 1, items) else [];
      OtherTaskItemsKept(t.taskItems, added, t.nextId, other);
    }
  }

  /**
   * When the header is written for the user and scheduled inside the listed day,
   * the day listing holds the new task with exactly its submitted items.
   */
  lemma AddedTaskIsListed(t: Tables, d: TaskDraft, items: seq<TaskItemDraft>, okItems: bool, dayStart: Time)
    requires ValidTables(t) && dayStart <= d.scheduledFor < dayStart + DayMillis
    ensures var r := AddTask(t, d, items, true, okItems);
      Task(NewTaskRow(t.nextId, d), if okItems then NewTaskItemRows(t.nextId, t.nextId + 1, items) else [])
        in DayListing(r.tasks, r.taskItems, d.userId, dayStart)
  {
    AddedTaskItems(t, d, items, okItems);
  }

  /** Items appended for a new routine leave the items of every other routine as they were. */
  lemma OtherRoutineItemsKept(items: seq<RoutineItemRow>, added: seq<RoutineItemRow>, id: Id, other: Id)
    requires forall i :: 0 <= i < |added| ==> added[i].routineId == id
    requires other != id
    ensures ItemsOfRoutine(items + added, other) == ItemsOfRoutine(items, other)
  {
    FilterAppend(items, added, (it: RoutineItemRow) => it.routineId == other);
    FilterNone(added, (it: RoutineItemRow) => it.routineId == other);
  }

  lemma NewRoutineItemsOnly(items: seq<RoutineItemRow>, added: seq<RoutineItemRow>, id: Id)
    requires ItemsOfRoutine(items, id) == []
    requires forall i :: 0 <= i < |added| ==> added[i].routineId == id
    ensures ItemsOfRoutine(items + added, id) == added
  {
    FilterAppend(items, added, (it: RoutineItemRow) => it.routineId == id);
    FilterKeepsAll(added, (it: RoutineItemRow) => it.routineId == id);
  }

  /** The routine written by `AddRoutine` has exactly the submitted items (none if their insert failed). */
  lemma AddedRoutineItems(t: Tables, user: UserId, name: string, items: seq<RoutineItemDraft>, okItems: bool)
    requires ValidTables(t)
    ensures var r := AddRoutine(t, user, name, items, true, okItems);
      ItemsOfRoutine(r.routineItems, t.nextId) == (if okItems then NewRoutineItemRows(t.nextId, t.nextId + 1, items) else [])
  {
    var id := t.nextId;
    var added := if okItems then NewRoutineItemRows(id, id + 1, items) else [];
    assert AddRoutine(t, user, name, items, true, okItems).routineItems == t.routineItems + added;
    NoItemsOfNextId(t);
    NewRoutineItemsOnly(t.routineItems, added, id);
  }

  /** Items appended for a routine that is not listed leave the listing as it was. */
  lemma ListingIgnoresOtherItems(routines: seq<RoutineRow>, items: seq<RoutineItemRow>, added: seq<RoutineItemRow>, id: Id)
    requires forall x :: x in routines ==> x.id != id
    requires forall i :: 0 <= i < |added| ==> added[i].routineId == id
    ensures RoutineListing(routines, items + added) == RoutineListing(routines, items)
  {
    var rows := SortByName(routines);
    SortByNameCorrect(routines);
    SameMembers(rows, routines);
    var before := WithRoutineItems(rows, items);
    var after := WithRoutineItems(rows, items + added);
    forall k | 0 <= k < |rows| ensures after[k] == before[k] {
      assert rows[k] in routines;
      OtherRoutineItemsKept(items, added, id, rows[k].id);
    }
  }

  /**
   * Listing a new routine, none of whose id's items were stored before, beside
   * the others: the old entries, and the new routine with exactly the added items.
   */
  lemma ListingWithNewRoutine(routines: seq<RoutineRow>, items: seq<RoutineItemRow>, added: seq<RoutineItemRow>, row: RoutineRow)
    requires forall x :: x in routines ==> x.id != row.id
    requires ItemsOfRoutine(items, row.id) == []
    requires forall i :: 0 <= i < |added| ==> added[i].routineId == row.id
    ensures var after := RoutineListing(routines + [row], items + added);
      && |after| == |routines| + 1
      && forall x :: x in after <==> x in RoutineListing(routines, items) || x == Routine(row, added)
  {
    var before := RoutineListing(routines, items);
    var after := RoutineListing(routines + [row], items + added);
    NewRoutineItemsOnly(items, added, row.id);
    forall x ensures x in after <==> x in before || x == Routine(row, added) {
      if x.row.id == row.id {
        assert x.row !in routines;
      } else {
        OtherRoutineItemsKept(items, added, row.id, x.row.id);
      }
    }
  }

  /**
   * The routine listing after `AddRoutine`: one entry more, the old entries and
   * the new routine with exactly its items, all in name order.
   */
  lemma AddedRoutineListing(t: Tables, user: UserId, name: string, items: seq<RoutineItemDraft>, okItems: bool)
    requires ValidTables(t)
    ensures var r := AddRoutine(t, user, name, items, true, okItems);
      var listing := RoutineListing(r.routines, r.routineItems);
      && |listing| == |t.routines| + 1
      && forall x :: x in listing <==> (x in RoutineListing(t.routines, t.routineItems)
           || x == Routine(RoutineRow(t.nextId, user, name), if okItems then NewRoutineItemRows(t.nextId, t.nextId + 1, items) else []))
  {
    var id := t.nextId;
    var added := if okItems then NewRoutineItemRows(id, id + 1, items) else [];
    assert AddRoutine(t, user, name, items, true, okItems).routineItems == t.routineItems + added;
    NoItemsOfNextId(t);
    ListingWithNewRoutine(t.routines, t.routineItems, added, RoutineRow(id, user, name));
  }

  /** The routine written by `AddRoutine` is listed, under its new id, with exactly its stored items. */
  lemma AddedRoutineIsListed(t: Tables, user: UserId, name: string, items: seq<RoutineItemDraft>, okItems: bool)
    requires ValidTables(t)
    ensures var r := AddRoutine(t, user, name, items, true, okItems);
      var listing := RoutineListing(r.routines, r.routineItems);
      && |listing| == |t.routines| + 1
      && Routine(RoutineRow(t.nextId, user, name), ItemsOfRoutine(r.routineItems, t.nextId)) in listing
  {
    AddedRoutineItems(t, user, name, items, okItems);
    AddedRoutineListing(t, user, name, items, okItems);
  }

  /** The header-then-items sequence keeps the store's invariant. */
  lemma AddTaskKeepsValid(t: Tables, d: TaskDraft, items: seq<TaskItemDraft>, okTask: bool, okItems: bool)
    requires ValidTables(t)
    ensures ValidTables(AddTask(t, d, items, okTask, okItems))
  {
    if okTask {
      var r := AddTask(t, d, items, okTask, okItems);
      assert TaskIds(r.tasks) == TaskIds(t.tasks) + {t.nextId};
    }
  }

  lemma AddRoutineKeepsValid(t: Tables, user: UserId, name: string, items: seq<RoutineItemDraft>, okRoutine: bool, okItems: bool)
    requires ValidTables(t)
    ensures ValidTables(AddRoutine(t, user, name, items, okRoutine, okItems))
  {
    if okRoutine {
      var r := AddRoutine(t, user, name, items, okRoutine, okItems);
      assert RoutineIds(r.routines) == RoutineIds(t.routines) + {t.nextId};
    }
  }

  /** `AddTask` as the components run it: the header insert, then the items if a row came back. */
  method InsertTaskWithItems(store: Store, d: TaskDraft, items: seq<TaskItemDraft>, okTask: bool, okItems: bool)
    returns (task: Option<TaskRow>)
    requires store.Valid()
    modifies store
    ensures store.Valid()
    ensures task == if okTask then Some(NewTaskRow(old(store.nextId), d)) else None
    ensures store.Contents() == AddTask(old(store.Contents()), d, items, okTask, okItems)
  {
    task := store.InsertTask(d, okTask);
    if task.Some? {
      var _ := store.InsertTaskItems(task.value.id, items, okItems);
    }
  }

  /** `AddRoutine` as the components run it. */
  method InsertRoutineWithItems(store: Store, user: UserId, name: string, items: seq<RoutineItemDraft>, okRoutine: bool, okItems: bool)
    returns (routine: Option<RoutineRow>)
    requires store.Valid()
    modifies store
    ensures store.Valid()
    ensures routine == if okRoutine then Some(RoutineRow(old(store.nextId), user, name)) else None
    ensures store.Contents() == AddRoutine(old(store.Contents()), user, name, items, okRoutine, okItems)
  {
    routine := store.InsertRoutine(user, name, okRoutine);
    if routine.Some? {
      var _ := store.InsertRoutineItems(routine.value.id, items, okItems);
    }
  }
}
