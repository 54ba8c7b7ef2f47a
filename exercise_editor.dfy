/**
 * The exercise-list editor that both the task editor and the routine editor hold:
 * the list being built (`addedExercises`), the position being edited
 * (`editingIndex`) and the form (`currentExercise`).
 *
 * The functions on `Editor` values state what each handler does; `ListEditor`
 * is the component state those handlers update. Removal keeps `editingIndex`
 * pointing at the exercise loaded into the form, and replacing the list ends any
 * edit; the source does neither (see the `...AsWritten` members at the end of
 * this module).
 */
module ExerciseEditor {
  import opened Rows
  import opened Seqs

  /** The form after every add or update: series 3, rir 0, tempo 2-1-1-1, method NORMAL, reps 10-12. */
  const BlankForm: Exercise := Exercise("", Prescription(3, 0, "2-1-1-1", "NORMAL", "10-12"))

  datatype Editor = Editor(exercises: seq<Exercise>, editingIndex: Option<nat>, form: Exercise)

  /** The position being edited, if any, names an exercise of the list. */
  predicate ValidEditor(e: Editor) {
    e.editingIndex.Some? ==> e.editingIndex.value < |e.exercises|
  }

  /**
   * `handleAddOrUpdateExercise`: nothing happens while the form has no name;
   * otherwise the form replaces the edited exercise, or is appended when none is
   * edited, and the form is cleared.
   */
  function AddOrUpdate(e: Editor): (r: Editor)
    requires ValidEditor(e)
    ensures ValidEditor(r)
    ensures e.form.name == "" ==> r == e
    ensures e.form.name != "" ==> r.form == BlankForm && r.editingIndex == None
    ensures e.form.name != "" && e.editingIndex == None ==> r.exercises == e.exercises + [e.form]
    ensures e.form.name != "" && e.editingIndex.Some? ==>
      |r.exercises| == |e.exercises| && r.exercises == e.exercises[e.editingIndex.value := e.form]
  {
    if e.form.name == "" then e
    else match e.editingIndex
      case Some(k) => Editor(e.exercises[k := e.form], None, BlankForm)
      case None => Editor(e.exercises + [e.form], None, BlankForm)
  }

  /** `startEditing(i)`: exercise `i` is loaded into the form. */
  function OpenForEdit(e: Editor, i: nat): (r: Editor)
    requires i < |e.exercises|
    ensures ValidEditor(r) && r.exercises == e.exercises
    ensures r.editingIndex == Some(i) && r.form == e.exercises[i]
  {
    Editor(e.exercises, Some(i), e.exercises[i])
  }

  /**
   * Removing position `i`: the other exercises keep their order; removing the
   * edited exercise clears the form, and removing another one keeps the same
   * exercise under edit.
   */
  function Remove(e: Editor, i: nat): (r: Editor)
    requires ValidEditor(e)
    ensures ValidEditor(r)
    ensures r.exercises == RemoveAt(e.exercises, i)
    ensures e.editingIndex == Some(i) ==> r.editingIndex == None && r.form == BlankForm
    ensures e.editingIndex != Some(i) ==> r.form == e.form && r.editingIndex.Some? == e.editingIndex.Some?
    ensures e.editingIndex.Some? && e.editingIndex != Some(i) ==>
      r.exercises[r.editingIndex.value] == e.exercises[e.editingIndex.value]
  {
    var rest := RemoveAt(e.exercises, i);
    match e.editingIndex
    case None => Editor(rest, None, e.form)
    case Some(k) =>
      if k == i then Editor(rest, None, BlankForm)
      else if i < k then Editor(rest, Some(k - 1), e.form)
      else Editor(rest, Some(k), e.form)
  }

  /**
   * The list is replaced as a whole (cleared after a submit, loaded when an
   * editor opens); the position under edit belonged to the old list, so the
   * edit ends with it. The source keeps the position (`ReplaceAsWritten`).
   */
  function Replace(e: Editor, exercises: seq<Exercise>): (r: Editor)
    ensures ValidEditor(r) && r.exercises == exercises && r.form == e.form
  {
    Editor(exercises, None, e.form)
  }

  /** Opening an exercise and saving it unchanged leaves the list as it was. */
  lemma SaveUnchangedEdit(e: Editor, i: nat)
    requires i < |e.exercises| && e.exercises[i].name != ""
    ensures AddOrUpdate(OpenForEdit(e, i)).exercises == e.exercises
  {
  }

  /** Adding an exercise and removing it again restores the list. */
  lemma AddThenRemoveLast(e: Editor)
    requires ValidEditor(e) && e.editingIndex == None && e.form.name != ""
    ensures Remove(AddOrUpdate(e), |e.exercises|).exercises == e.exercises
  {
    var a := AddOrUpdate(e);
    assert a.exercises[..|e.exercises|] == e.exercises;
  }

  /**
   * Editing exercise `k`, removing another exercise and then saving replaces the
   * edited exercise and nothing else.
   */
  lemma UpdateAfterRemovingAnother(e: Editor, i: nat)
    requires ValidEditor(e) && e.editingIndex.Some? && e.editingIndex.value != i
    requires i < |e.exercises| && e.form.name != ""
    ensures |AddOrUpdate(Remove(e, i)).exercises| == |e.exercises| - 1
    ensures AddOrUpdate(Remove(e, i)).exercises ==
      RemoveAt(e.exercises[e.editingIndex.value := e.form], i)
  {
    var k := e.editingIndex.value;
    var r := Remove(e, i);
    var u := AddOrUpdate(r);
    var expected := RemoveAt(e.exercises[k := e.form], i);
    assert |u.exercises| == |expected|;
    forall j | 0 <= j < |expected| ensures u.exercises[j] == expected[j] {
      if j == r.editingIndex.value {
        assert (if j < i then j else j + 1) == k;
      }
    }
  }

  /** The editor state that handlers update in place. */
  class ListEditor {
    var exercises: seq<Exercise>
    var editingIndex: Option<nat>
    var form: Exercise

    function State(): Editor
      reads this
    {
      Editor(exercises, editingIndex, form)
    }

    ghost predicate Valid()
      reads this
    {
      ValidEditor(State())
    }

    constructor ()
      ensures Valid() && State() == Editor([], None, BlankForm)
    {
      exercises, editingIndex, form := [], None, BlankForm;
    }

    /** Typing into the form (`setCurrentExercise({ ...currentExercise, field: value })`). */
    method SetForm(f: Exercise)
      requires Valid()
      modifies this
      ensures Valid() && State() == old(State()).(form := f)
    {
      form := f;
    }

    method AddOrUpdateExercise()
      requires Valid()
      modifies this
      ensures Valid() && State() == AddOrUpdate(old(State()))
    {
      if form.name == "" {
        return;
      }
      if editingIndex.Some? {
        exercises := exercises[editingIndex.value := form];
        editingIndex := None;
      } else {
        exercises := exercises + [form];
      }
      form := BlankForm;
    }

    method StartEditing(i: nat)
      requires Valid() && i < |exercises|
      modifies this
      ensures Valid() && State() == OpenForEdit(old(State()), i)
    {
      editingIndex := Some(i);
      form := exercises[i];
    }

    method RemoveExercise(i: nat)
      requires Valid()
      modifies this
      ensures Valid() && State() == Remove(old(State()), i)
    {
      exercises := RemoveAt(exercises, i);
      if editingIndex == Some(i) {
        editingIndex := None;
        form := BlankForm;
      } else if editingIndex.Some? && i < editingIndex.value {
        editingIndex := Some(editingIndex.value - 1);
      }
    }

    method ReplaceList(exs: seq<Exercise>)
      requires Valid()
      modifies this
      ensures Valid() && State() == Replace(old(State()), exs)
    {
      exercises := exs;
      editingIndex := None;
    }
  }

  // ---- The handlers as the source writes them ----

  /** `removeExercise` of the task editor: the index is reset only when it is the removed one. */
  function RemoveInTaskEditorAsWritten(e: Editor, i: nat): (r: Editor)
    ensures r.exercises == RemoveAt(e.exercises, i)
    ensures e.editingIndex == Some(i) ==> r.editingIndex == None && r.form == BlankForm
    ensures e.editingIndex != Some(i) ==> r.editingIndex == e.editingIndex && r.form == e.form
  {
    if e.editingIndex == Some(i) then Editor(RemoveAt(e.exercises, i), None, BlankForm)
    else Editor(RemoveAt(e.exercises, i), e.editingIndex, e.form)
  }

  /** The routine editor's inline remove: only the list changes. */
  function RemoveInRoutineEditorAsWritten(e: Editor, i: nat): (r: Editor)
    ensures r.exercises == RemoveAt(e.exercises, i) && r.editingIndex == e.editingIndex && r.form == e.form
  {
    e.(exercises := RemoveAt(e.exercises, i))
  }

  /** `setAddedExercises(list)` alone: the position under edit and the form stay as they were. */
  function ReplaceAsWritten(e: Editor, exercises: seq<Exercise>): (r: Editor)
    ensures r.exercises == exercises && r.editingIndex == e.editingIndex && r.form == e.form
    ensures ValidEditor(r) <==> (e.editingIndex.Some? ==> e.editingIndex.value < |exercises|)
  {
    Editor(exercises, e.editingIndex, e.form)
  }

  /**
   * `handleAddOrUpdateExercise` with JavaScript's `updated[k] = x`: an index equal
   * to the length appends. (A larger index leaves holes, which is not modelled.)
   */
  function AddOrUpdateAsWritten(e: Editor): (r: Editor)
    requires e.editingIndex.Some? ==> e.editingIndex.value <= |e.exercises|
    ensures ValidEditor(e) ==> r == AddOrUpdate(e)
    ensures e.form.name != "" && e.editingIndex == Some(|e.exercises|) ==> r.exercises == e.exercises + [e.form]
  {
    if e.form.name == "" then e
    else match e.editingIndex
      case Some(k) =>
        Editor(if k < |e.exercises| then e.exercises[k := e.form] else e.exercises + [e.form], None, BlankForm)
      case None => Editor(e.exercises + [e.form], None, BlankForm)
  }

  const Squat: Exercise := Exercise("Sentadilla", Prescription(3, 0, "2-1-1-1", "NORMAL", "10-12"))
  const Lunge: Exercise := Exercise("Zancada", Prescription(3, 0, "2-1-1-1", "NORMAL", "12-15"))
  const BenchPress: Exercise := Exercise("Press banca", Prescription(4, 1, "3-0-1-0", "NORMAL", "8-10"))
  const BarbellRow: Exercise := Exercise("Remo", Prescription(4, 1, "2-0-1-1", "NORMAL", "8-10"))

  /**
   * Task editor: edit the second of two exercises, remove the first, save. As
   * written the edited exercise stays as it was and the edit is appended (three
   * actions on two exercises leave two); the intended result holds only the edit.
   * The routine editor's remove, which keeps the index too, gives the same list.
   */
  lemma StaleIndexAfterRemovingEarlierExercise()
    ensures var edited := OpenForEdit(Editor([Squat, Lunge], None, BlankForm), 1).(form := Lunge.(name := "Zancada lateral"));
      && AddOrUpdateAsWritten(RemoveInTaskEditorAsWritten(edited, 0)).exercises == [Lunge, Lunge.(name := "Zancada lateral")]
      && AddOrUpdateAsWritten(RemoveInRoutineEditorAsWritten(edited, 0)).exercises == [Lunge, Lunge.(name := "Zancada lateral")]
      && AddOrUpdate(Remove(edited, 0)).exercises == [Lunge.(name := "Zancada lateral")]
  {
    var edited := OpenForEdit(Editor([Squat, Lunge], None, BlankForm), 1).(form := Lunge.(name := "Zancada lateral"));
    assert RemoveAt(edited.exercises, 0) == [Lunge];
  }

  /**
   * Routine editor: edit the first of two exercises, remove it, press the button.
   * As written the form overwrites the exercise the user kept; intended, the form
   * is cleared with the removal and the kept exercise survives.
   */
  lemma EditedExerciseRemovedInRoutineEditor()
    ensures var edited := OpenForEdit(Editor([Squat, Lunge], None, BlankForm), 0);
      && AddOrUpdateAsWritten(RemoveInRoutineEditorAsWritten(edited, 0)).exercises == [Squat]
      && AddOrUpdate(Remove(edited, 0)).exercises == [Lunge]
  {
    var edited := OpenForEdit(Editor([Squat, Lunge], None, BlankForm), 0);
    assert RemoveAt(edited.exercises, 0) == [Lunge];
  }

  /**
   * Routine editor, kept mounted between openings: open routine A, click its
   * second exercise, close, open routine B and press the button. As written the
   * position from A is still under edit, so A's exercise overwrites B's second
   * one; intended, opening B ends the edit and the form is appended. Had A's
   * clicked position been past B's end, the editor would not even be valid.
   */
  lemma ReopenedEditorOverwritesAsWritten()
    ensures var a := OpenForEdit(Editor([Squat, Lunge], None, BlankForm), 1);
      && AddOrUpdateAsWritten(ReplaceAsWritten(a, [BenchPress, Squat, BarbellRow])).exercises == [BenchPress, Lunge, BarbellRow]
      && AddOrUpdate(Replace(a, [BenchPress, Squat, BarbellRow])).exercises == [BenchPress, Squat, BarbellRow, Lunge]
      && !ValidEditor(ReplaceAsWritten(a, [BenchPress]))
  {
  }
}
