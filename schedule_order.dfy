/**
 * Ascending order by `scheduled_for`, the order in which the backend returns the
 * day's tasks (`.order('scheduled_for', { ascending: true })`). The backend's sort
 * is modelled as a stable insertion sort; ties keep table order.
 */
module ScheduleOrder {
  import opened Rows

  predicate SortedBySchedule(s: seq<TaskRow>) {
    forall i, j :: 0 <= i < j < |s| ==> s[i].scheduledFor <= s[j].scheduledFor
  }

  /** Places `t` before the first row of `s` that is not scheduled earlier. */
  function InsertBySchedule(t: TaskRow, s: seq<TaskRow>): seq<TaskRow>
    decreases |s|
  {
    if s == [] || t.scheduledFor <= s[0].scheduledFor then [t] + s
    else [s[0]] + InsertBySchedule(t, s[1..])
  }

  function SortBySchedule(s: seq<TaskRow>): seq<TaskRow>
    decreases |s|
  {
    if s == [] then [] else InsertBySchedule(s[0], SortBySchedule(s[1..]))
  }

  /** A row scheduled no later than every row of a sorted list can head it. */
  lemma ConsSortedBySchedule(head: TaskRow, rest: seq<TaskRow>)
    requires SortedBySchedule(rest)
    requires forall x :: x in rest ==> head.scheduledFor <= x.scheduledFor
    ensures SortedBySchedule([head] + rest)
  {
    var out := [head] + rest;
    forall i, j | 0 <= i < j < |out| ensures out[i].scheduledFor <= out[j].scheduledFor {
      assert out[j] == rest[j - 1];
      if i == 0 {
        assert rest[j - 1] in rest;
      } else {
        assert out[i] == rest[i - 1];
      }
    }
  }

  /** In a sorted list no row is scheduled earlier than the first. */
  lemma FirstScheduledFirst(s: seq<TaskRow>)
    requires s != [] && SortedBySchedule(s)
    ensures forall x :: x in s ==> s[0].scheduledFor <= x.scheduledFor
  {
    forall x | x in s ensures s[0].scheduledFor <= x.scheduledFor {
      var j :| 0 <= j < |s| && s[j] == x;
      if j > 0 {
        assert s[0].scheduledFor <= s[j].scheduledFor;
      }
    }
  }

  lemma {:induction false} InsertBySchedulePreserves(t: TaskRow, s: seq<TaskRow>)
    requires SortedBySchedule(s)
    ensures SortedBySchedule(InsertBySchedule(t, s))
    ensures multiset(InsertBySchedule(t, s)) == multiset(s) + multiset{t}
    decreases |s|
  {
    if s == [] || t.scheduledFor <= s[0].scheduledFor {
      if s != [] {
        FirstScheduledFirst(s);
      }
      ConsSortedBySchedule(t, s);
    } else {
      var head, tail := s[0], s[1..];
      var rest := InsertBySchedule(t, tail);
      assert SortedBySchedule(tail);
      InsertBySchedulePreserves(t, tail);
      assert s == [head] + tail;
      FirstScheduledFirst(s);
      forall x | x in rest ensures head.scheduledFor <= x.scheduledFor {
        assert x in multiset(rest);
        if x != t {
          assert x in multiset(tail);
          assert x in s;
        }
      }
      ConsSortedBySchedule(head, rest);
      assert InsertBySchedule(t, s) == [head] + rest;
    }
  }

  /** The sort returns the same rows, each as often as before, in ascending schedule order. */
  lemma {:induction false} SortByScheduleCorrect(s: seq<TaskRow>)
    ensures SortedBySchedule(SortBySchedule(s))
    ensures multiset(SortBySchedule(s)) == multiset(s)
    decreases |s|
  {
    if s != [] {
      SortByScheduleCorrect(s[1..]);
      InsertBySchedulePreserves(s[0], SortBySchedule(s[1..]));
      assert s == [s[0]] + s[1..];
    }
  }
}
