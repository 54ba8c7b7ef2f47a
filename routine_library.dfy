/**
 * The routine library (`RoutineLibraryModal`): the stored routines with their
 * items, and the handlers that delete and duplicate a routine.
 */
module RoutineLibrary {
  import opened Rows
  import opened Seqs
  import opened Backend
  import opened Expansion

  /** `prev.filter(r => r.id !== id)`. */
  function WithoutRoutine(rs: seq<Routine>, id: Id): (r: seq<Routine>)
    ensures |r| <= |rs|
    ensures forall x :: x in r <==> x in rs && x.row.id != id
  {
    Filter(rs, (x: Routine) => x.row.id != id)
  }

  /** The remaining routines keep their relative order: removal distributes over concatenation. */
  lemma WithoutRoutineKeepsOrder(a: seq<Routine>, b: seq<Routine>, id: Id)
    ensures WithoutRoutine(a + b, id) == WithoutRoutine(a, id) + WithoutRoutine(b, id)
  {
    FilterAppend(a, b, (x: Routine) => x.row.id != id);
  }

  /** Removing an id that is not listed changes nothing, so deleting twice is deleting once. */
  lemma WithoutAbsentRoutine(rs: seq<Routine>, id: Id)
    requires forall k :: 0 <= k < |rs| ==> rs[k].row.id != id
    ensures WithoutRoutine(rs, id) == rs
    ensures WithoutRoutine(WithoutRoutine(rs, id), id) == WithoutRoutine(rs, id)
  {
    FilterKeepsAll(rs, (x: Routine) => x.row.id != id);
  }

  /**
   * After a duplicate whose header was written, the listing (in name order) holds
   * the old entries and the copy and nothing else: the copy is owned by the user,
   * named with the copy suffix, and, when the item insert succeeded, has one item
   * per original item, same name and prescription, at the same position.
   */
  lemma DuplicateIsListed(t: Tables, source: Routine, user: UserId, okItems: bool)
    requires ValidTables(t)
    ensures var r := AddRoutine(t, user, CopyName(source.row.name), CopiedRoutineItems(source.items), true, okItems);
      var listing := RoutineListing(r.routines, r.routineItems);
      var copy := Routine(RoutineRow(t.nextId, user, source.row.name + CopySuffix), ItemsOfRoutine(r.routineItems, t.nextId));
      && |listing| == |t.routines| + 1
      && copy in listing
      && (forall x :: x in listing <==> x in RoutineListing(t.routines, t.routineItems) || x == copy)
      && (okItems ==> |copy.items| == |source.items|)
      && (!okItems ==> copy.items == [])
      && forall k :: 0 <= k < |copy.items| ==>
           && copy.items[k].routineId == t.nextId
           && copy.items[k].exerciseName == source.items[k].exerciseName
           && copy.items[k].rx == source.items[k].rx
           && copy.items[k].sortOrder == k
  {
    AddedRoutineItems(t, user, CopyName(source.row.name), CopiedRoutineItems(source.items), okItems);
    AddedRoutineListing(t, user, CopyName(source.row.name), CopiedRoutineItems(source.items), okItems);
  }

  class RoutineLibraryModal {
    const userId: UserId
    var routines: seq<Routine>
    var loading: bool

    /** The library starts loading, with an empty list. */
    constructor (userId: UserId)
      ensures this.userId == userId && routines == [] && loading
    {
      this.userId := userId;
      routines, loading := [], true;
    }

    /** `fetchRoutines`: the listing replaces the list when the query succeeds; loading ends either way. */
    method FetchRoutines(store: Store, ok: bool)
      modifies this
      ensures routines == if ok then RoutineListing(store.routines, store.routineItems) else old(routines)
      ensures !loading
    {
      loading := true;
      if ok {
        routines := store.AllRoutines();
      }
      loading := false;
    }

    /** `handleDelete`: the store delete, then, only if it succeeded, the same removal from the list. */
    method HandleDelete(store: Store, id: Id, ok: bool)
      requires store.Valid()
      modifies this, store
      ensures store.Valid()
      ensures routines == if ok then WithoutRoutine(old(routines), id) else old(routines)
      ensures store.routines == if ok then Filter(old(store.routines), (r: RoutineRow) => r.id != id) else old(store.routines)
      ensures store.routineItems == if ok then Filter(old(store.routineItems), (it: RoutineItemRow) => it.routineId != id)
                                    else old(store.routineItems)
      ensures store.tasks == old(store.tasks) && store.taskItems == old(store.taskItems)
      ensures loading == old(loading)
    {
      var success := store.DeleteRoutine(id, ok);
      if success {
        routines := WithoutRoutine(routines, id);
      }
    }

    /**
     * `handleDuplicate`: the copy's header, its items only if the header came
     * back, then the refetch. When the header insert returns nothing the handler
     * stops with the loading flag still set.
     */
    method HandleDuplicate(store: Store, routine: Routine, okHeader: bool, okItems: bool, okFetch: bool)
      requires store.Valid()
      modifies this, store
      ensures store.Valid()
      ensures store.Contents() == AddRoutine(old(store.Contents()), userId, CopyName(routine.row.name),
                                             CopiedRoutineItems(routine.items), okHeader, okItems)
      ensures !okHeader ==> routines == old(routines) && loading
      ensures okHeader ==>
        && routines == (if okFetch then RoutineListing(store.routines, store.routineItems) else old(routines))
        && !loading
    {
      loading := true;
      var copy := InsertRoutineWithItems(store, userId, CopyName(routine.row.name), CopiedRoutineItems(routine.items), okHeader, okItems);
      if copy.Some? {
        FetchRoutines(store, okFetch);
      }
    }
  }
}
