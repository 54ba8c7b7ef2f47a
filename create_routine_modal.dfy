/**
 * The routine editor (`CreateRoutineModal`): a name, the exercise-list editor,
 * and a submit that either creates a routine or, for a routine being edited,
 * renames it, deletes all of its items and inserts the whole list again.
 */
module CreateRoutine {
  import opened Rows
  import opened Seqs
  import opened Backend
  import opened Expansion
  import opened ExerciseLibrary
  import opened ExerciseEditor

  /**
   * The writes of the edit path, none of whose errors is checked: the rename, the
   * deletion of the routine's items, then the insert of the whole list (which
   * fails when the routine no longer exists).
   */
  function ResaveWrites(t: Tables, id: Id, name: string, exs: seq<Exercise>, okRename: bool, okDelete: bool, okItems: bool): (r: Tables)
    ensures r.tasks == t.tasks && r.taskItems == t.taskItems && r.nextId >= t.nextId
    ensures RoutineIds(r.routines) == RoutineIds(t.routines)
  {
    var renamed := if okRename then t.(routines := Renamed(t.routines, id, name)) else t;
    assert RoutineIds(renamed.routines) == RoutineIds(t.routines) by {
      forall x | x in RoutineIds(t.routines) ensures x in RoutineIds(renamed.routines) {
        var k :| 0 <= k < |t.routines| && t.routines[k].id == x;
        assert renamed.routines[k].id == x;
      }
    }
    var cleared := if okDelete then renamed.(routineItems := Filter(renamed.routineItems, (it: RoutineItemRow) => it.routineId != id))
                   else renamed;
    var ds := RoutineItemsFromExercises(exs);
    if okItems && id in RoutineIds(cleared.routines)
    then cleared.(routineItems := cleared.routineItems + NewRoutineItemRows(id, cleared.nextId, ds), nextId := cleared.nextId + |ds|)
    else cleared
  }

  /** After a delete, no item of that routine is left. */
  lemma NoItemsAfterDelete(items: seq<RoutineItemRow>, id: Id)
    ensures ItemsOfRoutine(Filter(items, (it: RoutineItemRow) => it.routineId != id), id) == []
  {
    var rest := Filter(items, (it: RoutineItemRow) => it.routineId != id);
    forall i | 0 <= i < |rest| ensures rest[i].routineId != id {
      assert rest[i] in rest;
    }
    FilterNone(rest, (it: RoutineItemRow) => it.routineId == id);
  }

  /**
   * When the delete and the insert succeed, the routine's items are exactly the
   * submitted list, in order, with nothing left from the old items; the items of
   * every other routine are untouched.
   */
  lemma ResavedRoutineHoldsExactlyTheList(t: Tables, id: Id, name: string, exs: seq<Exercise>, okRename: bool, other: Id)
    requires id in RoutineIds(t.routines) && other != id
    ensures var r := ResaveWrites(t, id, name, exs, okRename, true, true);
      && ItemsOfRoutine(r.routineItems, id) == NewRoutineItemRows(id, t.nextId, RoutineItemsFromExercises(exs))
      && ItemsOfRoutine(r.routineItems, other) == ItemsOfRoutine(t.routineItems, other)
  {
    var rest := Filter(t.routineItems, (it: RoutineItemRow) => it.routineId != id);
    var added := NewRoutineItemRows(id, t.nextId, RoutineItemsFromExercises(exs));
    assert ResaveWrites(t, id, name, exs, okRename, true, true).routineItems == rest + added;
    NoItemsAfterDelete(t.routineItems, id);
    NewRoutineItemsOnly(rest, added, id);
    OtherRoutineItemsKept(rest, added, id, other);
    FilterSwap(t.routineItems, id, other);
  }

  /** Removing routine `id`'s items and then selecting routine `other`'s is selecting `other`'s. */
  lemma {:induction false} FilterSwap(items: seq<RoutineItemRow>, id: Id, other: Id)
    requires other != id
    ensures ItemsOfRoutine(Filter(items, (it: RoutineItemRow) => it.routineId != id), other) == ItemsOfRoutine(items, other)
    decreases |items|
  {
    if items != [] {
      var keep := (it: RoutineItemRow) => it.routineId != id;
      var head := if keep(items[0]) then [items[0]] else [];
      assert Filter(items, keep) == head + Filter(items[1..], keep);
      FilterAppend(head, Filter(items[1..], keep), (it: RoutineItemRow) => it.routineId == other);
      assert head != [] ==> head[1..] == [];
      FilterSwap(items[1..], id, other);
    }
  }

  /**
   * When the delete fails and the insert succeeds, the routine ends up with its
   * old items followed by the submitted list: the two are merged.
   */
  lemma FailedDeleteMergesOldAndNewItems(t: Tables, id: Id, name: string, exs: seq<Exercise>, okRename: bool)
    requires id in RoutineIds(t.routines)
    ensures var r := ResaveWrites(t, id, name, exs, okRename, false, true);
      ItemsOfRoutine(r.routineItems, id)
        == ItemsOfRoutine(t.routineItems, id) + NewRoutineItemRows(id, t.nextId, RoutineItemsFromExercises(exs))
  {
    var added := NewRoutineItemRows(id, t.nextId, RoutineItemsFromExercises(exs));
    assert ResaveWrites(t, id, name, exs, okRename, false, true).routineItems == t.routineItems + added;
    FilterAppend(t.routineItems, added, (it: RoutineItemRow) => it.routineId == id);
    FilterKeepsAll(added, (it: RoutineItemRow) => it.routineId == id);
  }

  /**
   * Opening a stored routine and saving it unchanged leaves it with the same
   * ordered (exercise_name, prescription) rows, renumbered 0..n-1.
   */
  lemma ResaveUnchangedRoutine(t: Tables, routine: Routine)
    requires routine.row.id in RoutineIds(t.routines)
    ensures var r := ResaveWrites(t, routine.row.id, routine.row.name, ExercisesFromRoutine(routine.items), true, true, true);
      var stored := ItemsOfRoutine(r.routineItems, routine.row.id);
      && |stored| == |routine.items|
      && forall k :: 0 <= k < |stored| ==>
           stored[k].Draft() == RoutineItemDraft(routine.items[k].exerciseName, routine.items[k].rx, k)
  {
    ResavedRoutineHoldsExactlyTheList(t, routine.row.id, routine.row.name, ExercisesFromRoutine(routine.items), true, routine.row.id + 1);
    LoadThenSaveRoutine(routine.items);
  }

  /** The store calls of the edit path, in order. */
  method WriteResave(store: Store, id: Id, name: string, exs: seq<Exercise>, okRename: bool, okDelete: bool, okItems: bool)
    requires store.Valid()
    modifies store
    ensures store.Valid()
    ensures store.Contents() == ResaveWrites(old(store.Contents()), id, name, exs, okRename, okDelete, okItems)
  {
    var _ := store.UpdateRoutineName(id, name, okRename);
    var _ := store.DeleteRoutineItems(id, okDelete);
    var _ := store.InsertRoutineItems(id, RoutineItemsFromExercises(exs), okItems);
  }

  /**
   * What `handleSubmit` did. `Aborted` is the create path when the routine insert
   * returns no row: reading `data.id` throws and the handler stops there.
   */
  datatype SubmitOutcome = Skipped | Aborted | Saved

  class CreateRoutineModal {
    const userId: UserId
    const editor: ListEditor
    var isOpen: bool
    var name: string
    var loading: bool
    var routineToEdit: Option<Routine>
    var grouped: map<string, seq<string>>

    ghost predicate Valid()
      reads this, editor
    {
      editor.Valid()
    }

    constructor (userId: UserId)
      ensures Valid() && fresh(editor) && this.userId == userId
      ensures !isOpen && name == "" && !loading && routineToEdit == None && grouped == map[]
      ensures editor.State() == Editor([], None, BlankForm)
    {
      this.userId := userId;
      editor := new ListEditor();
      isOpen, name, loading, routineToEdit, grouped := false, "", false, None, map[];
    }

    /**
     * Opening the modal: the catalogue is grouped when it arrives; a routine to
     * edit loads its name and its items as exercises, otherwise both start empty.
     * Replacing the list also ends any edit, a correction of the source, which
     * keeps `editingIndex` (see `ExerciseEditor.ReplaceAsWritten`).
     */
    method Open(toEdit: Option<Routine>, catalogue: Option<seq<LibraryEntry>>)
      requires Valid()
      modifies this, editor
      ensures Valid() && isOpen && routineToEdit == toEdit && loading == old(loading)
      ensures catalogue.None? ==> grouped == old(grouped)
      ensures catalogue.Some? ==>
        && (forall c :: c in grouped <==> exists j :: 0 <= j < |catalogue.value| && CategoryOf(catalogue.value[j]) == c)
        && (forall c :: c in grouped ==> grouped[c] == Bucket(catalogue.value, c))
      ensures toEdit.Some? ==>
        name == toEdit.value.row.name && editor.State() == Replace(old(editor.State()), ExercisesFromRoutine(toEdit.value.items))
      ensures toEdit.None? ==> name == "" && editor.State() == Replace(old(editor.State()), [])
    {
      isOpen := true;
      routineToEdit := toEdit;
      if catalogue.Some? {
        grouped := GroupByCategory(catalogue.value);
      }
      if toEdit.Some? {
        name := toEdit.value.row.name;
        editor.ReplaceList(ExercisesFromRoutine(toEdit.value.items));
      } else {
        name := "";
        editor.ReplaceList([]);
      }
    }

    method SetName(n: string)
      modifies this
      ensures name == n && isOpen == old(isOpen) && loading == old(loading)
      ensures routineToEdit == old(routineToEdit) && grouped == old(grouped)
    {
      name := n;
    }

    /**
     * `handleSubmit`: nothing when the list or the name is empty. Editing renames,
     * deletes and reinserts; creating inserts the routine and, if a row came back,
     * its items. Errors of the writes are not checked. The modal then closes; the
     * list is kept.
     */
    method HandleSubmit(store: Store, okRename: bool, okDelete: bool, okHeader: bool, okItems: bool)
      returns (outcome: SubmitOutcome)
      requires Valid() && store.Valid()
      modifies this, store
      ensures Valid() && store.Valid() && unchanged(editor)
      ensures routineToEdit == old(routineToEdit) && name == old(name) && grouped == old(grouped)
      ensures |editor.exercises| == 0 || name == "" ==>
        outcome == Skipped && unchanged(this) && store.Contents() == old(store.Contents())
      ensures |editor.exercises| > 0 && name != "" && routineToEdit.Some? ==>
        && outcome == Saved && !isOpen && !loading
        && store.Contents() == ResaveWrites(old(store.Contents()), routineToEdit.value.row.id, name, editor.exercises, okRename, okDelete, okItems)
      ensures |editor.exercises| > 0 && name != "" && routineToEdit.None? ==>
        && store.Contents() == AddRoutine(old(store.Contents()), userId, name, RoutineItemsFromExercises(editor.exercises), okHeader, okItems)
        && (okHeader ==> outcome == Saved && !isOpen && !loading)
        && (!okHeader ==> outcome == Aborted && isOpen == old(isOpen) && loading)
    {
      var exs := editor.exercises;
      if |exs| == 0 || name == "" {
        return Skipped;
      }
      loading := true;
      if routineToEdit.Some? {
        WriteResave(store, routineToEdit.value.row.id, name, exs, okRename, okDelete, okItems);
      } else {
        var routine := InsertRoutineWithItems(store, userId, name, RoutineItemsFromExercises(exs), okHeader, okItems);
        if routine.None? {
          return Aborted;
        }
      }
      outcome := Saved;
      isOpen := false;
      loading := false;
    }
  }
}
