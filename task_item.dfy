/**
 * The task card (`TaskItem`): its own copy of the task's items, the text typed
 * into each item's reps and weight inputs (`itemData`), the completion flag and
 * the expanded flag.
 */
module TaskCard {
  import opened Rows
  import opened Seqs
  import opened Backend

  // ---- Decimal text ----

  predicate IsDigit(c: char) {
    '0' <= c <= '9'
  }

  predicate AllDigits(s: string) {
    forall i :: 0 <= i < |s| ==> IsDigit(s[i])
  }

  function DigitChar(d: nat): (c: char)
    requires d < 10
    ensures IsDigit(c) && c as int - '0' as int == d
  {
    ('0' as int + d) as char
  }

  /** The decimal digits of `n`, most significant first, without leading zeros. */
  function NatToString(n: nat): (s: string)
    ensures |s| >= 1 && AllDigits(s)
    decreases n
  {
    if n < 10 then [DigitChar(n)] else NatToString(n / 10) + [DigitChar(n % 10)]
  }

  /** `n.toString()` for an integer: a minus sign before the digits of a negative value. */
  function IntToString(i: int): (s: string)
    ensures s != ""
  {
    if i < 0 then "-" + NatToString(-i) else NatToString(i)
  }

  /** The value of a string of decimal digits. */
  function DigitsValue(s: string): nat
    requires AllDigits(s)
    decreases |s|
  {
    if s == [] then 0 else DigitsValue(s[..|s| - 1]) * 10 + (s[|s| - 1] as int - '0' as int)
  }

  /** Reading back a decimal integer: optional minus sign, then at least one digit. */
  function ParseInt(s: string): Option<int> {
    if |s| >= 2 && s[0] == '-' && AllDigits(s[1..]) then Some(0 - DigitsValue(s[1..]))
    else if |s| >= 1 && AllDigits(s) then Some(DigitsValue(s))
    else None
  }

  lemma {:induction false} NatToStringReadsBack(n: nat)
    ensures DigitsValue(NatToString(n)) == n
    decreases n
  {
    var s := NatToString(n);
    if n >= 10 {
      NatToStringReadsBack(n / 10);
      assert s[..|s| - 1] == NatToString(n / 10);
    }
  }

  /** The text an integer is shown as reads back as that integer. */
  lemma IntToStringReadsBack(i: int)
    ensures ParseInt(IntToString(i)) == Some(i)
  {
    var s := IntToString(i);
    if i < 0 {
      NatToStringReadsBack(-i);
      assert s[1..] == NatToString(-i);
    } else {
      NatToStringReadsBack(i);
    }
  }

  // ---- itemData ----

  /** The text of the two inputs of one item. */
  datatype ItemInput = ItemInput(reps: string, weight: string)

  /** `value?.toString() || ""`: the recorded value as text, or empty when there is none. */
  function TextOf(v: Option<int>): (s: string)
    ensures s == "" <==> v == None
  {
    match v
    case Some(x) => IntToString(x)
    case None => ""
  }

  function Entry(it: TaskItemRow): ItemInput {
    ItemInput(TextOf(it.actualReps), TextOf(it.actualWeight))
  }

  /** An item is the last one with its id. */
  predicate LastWithId(items: seq<TaskItemRow>, k: nat)
    requires k < |items|
  {
    forall j :: k < j < |items| ==> items[j].id != items[k].id
  }

  /**
   * The initial `itemData`: the reduce over the items, where a later item with the
   * same id overrides an earlier one.
   */
  function InitialItemData(items: seq<TaskItemRow>): map<Id, ItemInput>
    decreases |items|
  {
    if items == [] then map[]
    else
      var n := |items| - 1;
      InitialItemData(items[..n])[items[n].id := Entry(items[n])]
  }

  /** One step of the reduce: the last item's entry is written over the rest. */
  lemma InitialItemDataStep(items: seq<TaskItemRow>)
    requires items != []
    ensures InitialItemData(items) == InitialItemData(items[..|items| - 1])[items[|items| - 1].id := Entry(items[|items| - 1])]
  {
  }

  /** `itemData` has one entry per item id, and no other. */
  lemma {:induction false} InitialItemDataKeys(items: seq<TaskItemRow>)
    ensures forall id :: id in InitialItemData(items) <==> exists k :: 0 <= k < |items| && items[k].id == id
    decreases |items|
  {
    if items != [] {
      var n := |items| - 1;
      var pre := items[..n];
      InitialItemDataStep(items);
      InitialItemDataKeys(pre);
      forall id | id in InitialItemData(items)
        ensures exists k :: 0 <= k < |items| && items[k].id == id
      {
        if id != items[n].id {
          var k :| 0 <= k < |pre| && pre[k].id == id;
          assert items[k] == pre[k];
        }
      }
      forall k | 0 <= k < |items| ensures items[k].id in InitialItemData(items) {
        if k < n {
          assert pre[k] == items[k];
        }
      }
    }
  }

  /** The entry of each id holds the text of the last item with that id. */
  lemma {:induction false} InitialItemDataLastWins(items: seq<TaskItemRow>, k: nat)
    requires k < |items| && LastWithId(items, k)
    ensures items[k].id in InitialItemData(items) && InitialItemData(items)[items[k].id] == Entry(items[k])
    decreases |items|
  {
    var n := |items| - 1;
    var pre := items[..n];
    InitialItemDataStep(items);
    if k < n {
      assert items[n].id != items[k].id;
      assert pre[k] == items[k];
      assert LastWithId(pre, k) by {
        forall j | k < j < n ensures pre[j].id != pre[k].id {
          assert pre[j] == items[j];
        }
      }
      InitialItemDataLastWins(pre, k);
    }
  }

  /** The save button of an item: enabled only when both of its inputs hold text. */
  function SaveEnabled(data: map<Id, ItemInput>, id: Id): bool {
    id in data && data[id].reps != "" && data[id].weight != ""
  }

  /**
   * When the card opens, an item's save button is enabled exactly when the item
   * already has both performed values, and the text shown reads back as them.
   */
  lemma InitialInputsShowRecordedValues(items: seq<TaskItemRow>, k: nat)
    requires k < |items| && LastWithId(items, k)
    ensures var m := InitialItemData(items);
      && items[k].id in m
      && (SaveEnabled(m, items[k].id) <==> items[k].actualReps.Some? && items[k].actualWeight.Some?)
      && (items[k].actualReps.Some? ==> ParseInt(m[items[k].id].reps) == items[k].actualReps)
      && (items[k].actualWeight.Some? ==> ParseInt(m[items[k].id].weight) == items[k].actualWeight)
  {
    InitialItemDataLastWins(items, k);
    if items[k].actualReps.Some? {
      IntToStringReadsBack(items[k].actualReps.value);
    }
    if items[k].actualWeight.Some? {
      IntToStringReadsBack(items[k].actualWeight.value);
    }
  }

  /** The revert of a failed save: `prev.map(it => it.id === itemId ? { ...it, is_completed: false } : it)`. */
  function ClearCompleted(items: seq<TaskItemRow>, itemId: Id): (r: seq<TaskItemRow>)
    ensures |r| == |items|
    ensures forall k :: 0 <= k < |r| ==>
      if items[k].id == itemId then r[k] == items[k].(isCompleted := false) else r[k] == items[k]
  {
    seq(|items|, k requires 0 <= k < |items| =>
      if items[k].id == itemId then items[k].(isCompleted := false) else items[k])
  }

  /**
   * After a failed save the item is no longer completed but keeps the values of
   * the attempt; every other item is as before the save.
   */
  lemma FailedSaveKeepsAttemptedValues(items: seq<TaskItemRow>, itemId: Id, reps: int, weight: int)
    ensures var r := ClearCompleted(WithProgress(items, itemId, reps, weight), itemId);
      && |r| == |items|
      && forall k :: 0 <= k < |r| ==>
           if items[k].id == itemId
           then r[k] == items[k].(isCompleted := false, actualReps := Some(reps), actualWeight := Some(weight))
           else r[k] == items[k]
  {
  }

  /** `items.filter(it => it.is_completed).length`. */
  function CompletedItems(items: seq<TaskItemRow>): (n: nat)
    ensures n <= |items|
    ensures items == [] ==> n == 0
  {
    |Filter(items, (it: TaskItemRow) => it.isCompleted)|
  }

  /** A successful save marks the item completed, so it is counted. */
  lemma {:induction false} SavedItemIsCounted(items: seq<TaskItemRow>, itemId: Id, reps: int, weight: int)
    ensures CompletedItems(WithProgress(items, itemId, reps, weight)) >= CompletedItems(items)
    ensures (exists k :: 0 <= k < |items| && items[k].id == itemId && !items[k].isCompleted) ==>
      CompletedItems(WithProgress(items, itemId, reps, weight)) > CompletedItems(items)
    decreases |items|
  {
    if items != [] {
      var r := WithProgress(items, itemId, reps, weight);
      assert r[1..] == WithProgress(items[1..], itemId, reps, weight);
      SavedItemIsCounted(items[1..], itemId, reps, weight);
      if exists k :: 0 <= k < |items| && items[k].id == itemId && !items[k].isCompleted {
        var k :| 0 <= k < |items| && items[k].id == itemId && !items[k].isCompleted;
        if k > 0 {
          assert items[1..][k - 1] == items[k];
        }
      }
    }
  }

  class TaskItem {
    const taskId: Id
    var items: seq<TaskItemRow>
    var itemData: map<Id, ItemInput>
    var isCompleted: bool
    var isExpanded: bool

    /** The card copies the task's items and flag, and fills each item's inputs from its recorded values. */
    constructor (task: Task)
      ensures taskId == task.row.id && items == task.items && isCompleted == task.row.isCompleted
      ensures itemData == InitialItemData(task.items) && !isExpanded
    {
      taskId := task.row.id;
      items := task.items;
      isCompleted := task.row.isCompleted;
      itemData := InitialItemData(task.items);
      isExpanded := false;
    }

    function HasItems(): bool
      reads this
    {
      |items| > 0
    }

    function CompletedItemsCount(): (n: nat)
      reads this
      ensures n <= |items|
      ensures !HasItems() ==> n == 0
    {
      CompletedItems(items)
    }

    /** `toggleMainTask`: the flag flips, and the task id and new value go to the page's toggle. */
    method ToggleMainTask() returns (id: Id, newState: bool)
      modifies this
      ensures isCompleted == !old(isCompleted) && id == taskId && newState == isCompleted
      ensures items == old(items) && itemData == old(itemData) && isExpanded == old(isExpanded)
    {
      newState := !isCompleted;
      isCompleted := newState;
      id := taskId;
    }

    /** A click on the header expands or collapses the card only when it has items. */
    method ClickHeader()
      modifies this
      ensures isExpanded == if HasItems() then !old(isExpanded) else old(isExpanded)
      ensures items == old(items) && itemData == old(itemData) && isCompleted == old(isCompleted)
    {
      if |items| > 0 {
        isExpanded := !isExpanded;
      }
    }

    /**
     * Typing into an item's weight input. An item without an entry gets an empty
     * reps text (the source leaves it undefined, which the save button treats alike).
     */
    method SetWeightText(id: Id, text: string)
      modifies this
      ensures itemData == old(itemData)[id := ItemInput(if id in old(itemData) then old(itemData)[id].reps else "", text)]
      ensures items == old(items) && isCompleted == old(isCompleted) && isExpanded == old(isExpanded)
    {
      var reps := if id in itemData then itemData[id].reps else "";
      itemData := itemData[id := ItemInput(reps, text)];
    }

    method SetRepsText(id: Id, text: string)
      modifies this
      ensures itemData == old(itemData)[id := ItemInput(text, if id in old(itemData) then old(itemData)[id].weight else "")]
      ensures items == old(items) && isCompleted == old(isCompleted) && isExpanded == old(isExpanded)
    {
      var weight := if id in itemData then itemData[id].weight else "";
      itemData := itemData[id := ItemInput(text, weight)];
    }

    /**
     * `saveItemProgress`: the item is marked completed with the values in the list
     * first; the store records them; on failure only the completed flag is reset.
     * The inputs are left as they were.
     */
    method SaveItemProgress(store: Store, itemId: Id, reps: int, weight: int, ok: bool)
      requires store.Valid()
      modifies this, store
      ensures store.Valid()
      ensures items == if ok then WithProgress(old(items), itemId, reps, weight)
                       else ClearCompleted(WithProgress(old(items), itemId, reps, weight), itemId)
      ensures store.taskItems == if ok then WithProgress(old(store.taskItems), itemId, reps, weight) else old(store.taskItems)
      ensures store.tasks == old(store.tasks) && store.routines == old(store.routines)
      ensures store.routineItems == old(store.routineItems)
      ensures itemData == old(itemData) && isCompleted == old(isCompleted) && isExpanded == old(isExpanded)
    {
      items := WithProgress(items, itemId, reps, weight);
      var success := store.UpdateItemProgress(itemId, reps, weight, ok);
      if !success {
        items := ClearCompleted(items, itemId);
      }
    }
  }
}
