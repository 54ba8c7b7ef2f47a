/**
 * The task editor (`CreateTaskModal`): a title, the exercise-list editor, the
 * "save as template" switch, and the submit sequence that writes the task
 * header, its items and, optionally, a routine copy.
 */
module CreateTask {
  import opened Rows
  import opened Seqs
  import opened Backend
  import opened Expansion
  import opened ExerciseLibrary
  import opened ExerciseEditor

  /**
   * The effect at lines 70-78 as written: it runs whenever `isOpen` or
   * `editingIndex` changes, and with the modal open and nothing under edit it
   * empties the title and the list.
   */
  function ResetEffectAsWritten(title: string, e: Editor, isOpen: bool): (r: (string, Editor))
    ensures isOpen && e.editingIndex == None ==> r.0 == "" && r.1.exercises == []
    ensures !(isOpen && e.editingIndex == None) ==> r == (title, e)
  {
    if isOpen && e.editingIndex == None then ("", e.(exercises := [])) else (title, e)
  }

  /**
   * Saving an edited exercise sets `editingIndex` back to null, so the effect runs
   * again and empties the list the update just produced, and the title with it.
   */
  lemma SavingAnEditEmptiesTheListAsWritten(title: string, e: Editor)
    requires ValidEditor(e) && e.editingIndex.Some? && e.form.name != ""
    ensures |AddOrUpdate(e).exercises| == |e.exercises| > 0
    ensures ResetEffectAsWritten(title, AddOrUpdate(e), true) == ("", AddOrUpdate(e).(exercises := []))
  {
  }

  /** Removing the exercise under edit also sets the index back to null, with the same result. */
  lemma RemovingTheEditedExerciseEmptiesTheListAsWritten(title: string, e: Editor)
    requires e.editingIndex.Some? && e.editingIndex.value < |e.exercises| && |e.exercises| > 1
    ensures |RemoveInTaskEditorAsWritten(e, e.editingIndex.value).exercises| == |e.exercises| - 1 > 0
    ensures ResetEffectAsWritten(title, RemoveInTaskEditorAsWritten(e, e.editingIndex.value), true).1.exercises == []
  {
  }

  /**
   * The writes of `handleSubmit` once the list is not empty: the task header and,
   * only if it came back, its items, then, when the template switch is on, a
   * routine named like the task and, only if that came back, its items. Item
   * failures are not checked.
   */
  function SubmitWrites(t: Tables, user: UserId, title: string, scheduledFor: Time, exs: seq<Exercise>,
                        asTemplate: bool, okTask: bool, okItems: bool, okRoutine: bool, okRoutineItems: bool): (r: Tables)
    ensures !okTask ==> r == t
    ensures r.nextId >= t.nextId
  {
    var t1 := AddTask(t, CreatedTaskHeader(user, title, scheduledFor), TaskItemsFromExercises(exs), okTask, okItems);
    if okTask && asTemplate then AddRoutine(t1, user, title, RoutineItemsFromExercises(exs), okRoutine, okRoutineItems)
    else t1
  }

  /**
   * After a submit whose header was written, the day that holds `scheduledFor`
   * lists the new task with one item per exercise (none if the item insert failed).
   */
  lemma SubmittedTaskIsListed(t: Tables, user: UserId, title: string, scheduledFor: Time, exs: seq<Exercise>,
                              asTemplate: bool, okItems: bool, okRoutine: bool, okRoutineItems: bool, dayStart: Time)
    requires ValidTables(t) && dayStart <= scheduledFor < dayStart + DayMillis
    ensures var r := SubmitWrites(t, user, title, scheduledFor, exs, asTemplate, true, okItems, okRoutine, okRoutineItems);
      Task(NewTaskRow(t.nextId, CreatedTaskHeader(user, title, scheduledFor)),
           if okItems then NewTaskItemRows(t.nextId, t.nextId + 1, TaskItemsFromExercises(exs)) else [])
        in DayListing(r.tasks, r.taskItems, user, dayStart)
  {
    AddedTaskIsListed(t, CreatedTaskHeader(user, title, scheduledFor), TaskItemsFromExercises(exs), okItems, dayStart);
  }

  /**
   * When every write succeeds and the template switch is on, the template's
   * items repeat the task's items row for row, with `exercise_name` in the place
   * of `title`.
   */
  lemma TemplateItemsMirrorTaskItems(t: Tables, user: UserId, title: string, scheduledFor: Time, exs: seq<Exercise>)
    requires ValidTables(t)
    ensures var r := SubmitWrites(t, user, title, scheduledFor, exs, true, true, true, true, true);
      var taskItems := ItemsOfTask(r.taskItems, t.nextId);
      var template := ItemsOfRoutine(r.routineItems, t.nextId + 1 + |exs|);
      && |template| == |taskItems| == |exs|
      && forall k :: 0 <= k < |exs| ==>
           template[k].Draft() == RoutineItemDraft(taskItems[k].title, taskItems[k].rx, taskItems[k].sortOrder)
  {
    var header := CreatedTaskHeader(user, title, scheduledFor);
    var t1 := AddTask(t, header, TaskItemsFromExercises(exs), true, true);
    var r := SubmitWrites(t, user, title, scheduledFor, exs, true, true, true, true, true);
    var templateId := t.nextId + 1 + |exs|;
    var template := NewRoutineItemRows(templateId, templateId + 1, RoutineItemsFromExercises(exs));
    var taskItems := NewTaskItemRows(t.nextId, t.nextId + 1, TaskItemsFromExercises(exs));
    assert ItemsOfTask(r.taskItems, t.nextId) == taskItems by {
      assert r.taskItems == t1.taskItems;
      AddedTaskItems(t, header, TaskItemsFromExercises(exs), true);
    }
    assert ItemsOfRoutine(r.routineItems, templateId) == template by {
      assert r.routineItems == t.routineItems + template;
      NoRoutineItemsBeyond(t, templateId);
      NewRoutineItemsOnly(t.routineItems, template, templateId);
    }
    forall k | 0 <= k < |exs|
      ensures template[k].Draft() == RoutineItemDraft(taskItems[k].title, taskItems[k].rx, taskItems[k].sortOrder)
    {
      assert template[k].Draft() == RoutineItemsFromExercises(exs)[k];
      assert taskItems[k].Draft() == TaskItemsFromExercises(exs)[k];
    }
  }

  /**
   * When every write succeeds and the template switch is on, the routine listing
   * gains exactly one entry, the template, under the id issued after the task's
   * items, with its own stored items (which mirror the task's, as above).
   */
  lemma TemplateMirrorsSubmittedTask(t: Tables, user: UserId, title: string, scheduledFor: Time, exs: seq<Exercise>)
    requires ValidTables(t)
    ensures var r := SubmitWrites(t, user, title, scheduledFor, exs, true, true, true, true, true);
      var listing := RoutineListing(r.routines, r.routineItems);
      var templateId := t.nextId + 1 + |exs|;
      && |listing| == |t.routines| + 1
      && Routine(RoutineRow(templateId, user, title), ItemsOfRoutine(r.routineItems, templateId)) in listing
  {
    var header := CreatedTaskHeader(user, title, scheduledFor);
    var t1 := AddTask(t, header, TaskItemsFromExercises(exs), true, true);
    AddTaskKeepsValid(t, header, TaskItemsFromExercises(exs), true, true);
    AddedRoutineIsListed(t1, user, title, RoutineItemsFromExercises(exs), true);
  }

  /** The store calls of `handleSubmit` on a non-empty list, in order. */
  method WriteSubmission(store: Store, user: UserId, title: string, scheduledFor: Time, exs: seq<Exercise>,
                         asTemplate: bool, okTask: bool, okItems: bool, okRoutine: bool, okRoutineItems: bool)
    returns (task: Option<TaskRow>)
    requires store.Valid()
    modifies store
    ensures store.Valid()
    ensures task == if okTask then Some(NewTaskRow(old(store.nextId), CreatedTaskHeader(user, title, scheduledFor))) else None
    ensures store.Contents() == SubmitWrites(old(store.Contents()), user, title, scheduledFor, exs, asTemplate, okTask, okItems, okRoutine, okRoutineItems)
  {
    task := InsertTaskWithItems(store, CreatedTaskHeader(user, title, scheduledFor), TaskItemsFromExercises(exs), okTask, okItems);
    if task.Some? && asTemplate {
      var _ := InsertRoutineWithItems(store, user, title, RoutineItemsFromExercises(exs), okRoutine, okRoutineItems);
    }
  }

  /** What `handleSubmit` did. */
  datatype SubmitOutcome = EmptyList | HeaderFailed | Created(task: TaskRow)
  class CreateTaskModal {
    const userId: UserId
    const editor: ListEditor
    var isOpen: bool
    var title: string
    var loading: bool
    var saveAsTemplate: bool
    var grouped: map<string, seq<string>>

    ghost predicate Valid()
      reads this, editor
    {
      editor.Valid()
    }

    constructor (userId: UserId)
      ensures Valid() && fresh(editor) && this.userId == userId
      ensures !isOpen && title == "" && !loading && !saveAsTemplate && grouped == map[]
      ensures editor.State() == Editor([], None, BlankForm)
    {
      this.userId := userId;
      editor := new ListEditor();
      isOpen, title, loading, saveAsTemplate, grouped := false, "", false, false, map[];
    }

    /**
     * Opening the modal: the catalogue is fetched and grouped when it arrives, and
     * the title and list start empty unless an exercise is still under edit.
     */
    method Open(catalogue: Option<seq<LibraryEntry>>)
      requires Valid()
      modifies this, editor
      ensures Valid() && isOpen
      ensures catalogue.None? ==> grouped == old(grouped)
      ensures catalogue.Some? ==>
        && (forall c :: c in grouped <==> exists j :: 0 <= j < |catalogue.value| && CategoryOf(catalogue.value[j]) == c)
        && (forall c :: c in grouped ==> grouped[c] == Bucket(catalogue.value, c))
      ensures old(editor.editingIndex) == None ==> title == "" && editor.State() == Replace(old(editor.State()), [])
      ensures old(editor.editingIndex) != None ==> title == old(title) && editor.State() == old(editor.State())
      ensures loading == old(loading) && saveAsTemplate == old(saveAsTemplate)
    {
      isOpen := true;
      if catalogue.Some? {
        grouped := GroupByCategory(catalogue.value);
      }
      if editor.editingIndex == None {
        title := "";
        editor.ReplaceList([]);
      }
    }

    method SetTitle(t: string)
      modifies this
      ensures title == t && isOpen == old(isOpen) && loading == old(loading)
      ensures saveAsTemplate == old(saveAsTemplate) && grouped == old(grouped)
    {
      title := t;
    }

    method SetSaveAsTemplate(b: bool)
      modifies this
      ensures saveAsTemplate == b && title == old(title) && isOpen == old(isOpen)
      ensures loading == old(loading) && grouped == old(grouped)
    {
      saveAsTemplate := b;
    }

    /**
     * `handleSubmit`: nothing on an empty list; otherwise the writes of
     * `SubmitWrites`. A failed header clears the loading flag and leaves the
     * modal as it was; on success the title and list are cleared and the modal
     * closes (the template switch and the form are kept). Clearing the list also
     * ends any edit, a correction of the source, which keeps `editingIndex`
     * (see `ExerciseEditor.ReplaceAsWritten`).
     */
    method HandleSubmit(store: Store, scheduledFor: Time, okTask: bool, okItems: bool, okRoutine: bool, okRoutineItems: bool)
      returns (outcome: SubmitOutcome)
      requires Valid() && store.Valid()
      modifies this, editor, store
      ensures Valid() && store.Valid()
      ensures |old(editor.exercises)| == 0 ==>
        outcome == EmptyList && unchanged(this) && unchanged(editor) && store.Contents() == old(store.Contents())
      ensures |old(editor.exercises)| > 0 ==>
        store.Contents() == SubmitWrites(old(store.Contents()), userId, old(title), scheduledFor, old(editor.exercises),
                                         old(saveAsTemplate), okTask, okItems, okRoutine, okRoutineItems)
      ensures |old(editor.exercises)| > 0 && !okTask ==>
        && outcome == HeaderFailed && !loading && isOpen == old(isOpen) && title == old(title) && unchanged(editor)
      ensures |old(editor.exercises)| > 0 && okTask ==>
        && outcome == Created(NewTaskRow(old(store.nextId), CreatedTaskHeader(userId, old(title), scheduledFor)))
        && title == "" && editor.State() == Replace(old(editor.State()), []) && !isOpen && !loading
      ensures |old(editor.exercises)| > 0 ==> saveAsTemplate == old(saveAsTemplate) && grouped == old(grouped)
    {
      var exs := editor.exercises;
      if |exs| == 0 {
        return EmptyList;
      }
      loading := true;
      var task := WriteSubmission(store, userId, title, scheduledFor, exs, saveAsTemplate, okTask, okItems, okRoutine, okRoutineItems);
      if task.None? {
        loading := false;
        return HeaderFailed;
      }
      outcome := Created(task.value);
      title := "";
      editor.ReplaceList([]);
      isOpen := false;
      loading := false;
    }
  }
}
