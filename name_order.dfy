/**
 * Ascending order by name, the order in which the backend returns the routines
 * (`.order('name', { ascending: true })`). Names are compared character by
 * character by code; the sort is a stable insertion sort, so ties keep table order.
 */
module NameOrder {
  import opened Rows

  /** `a` comes no later than `b`: a prefix first, otherwise the first differing character decides. */
  predicate NameLe(a: string, b: string)
    decreases |a|
  {
    a == [] || (b != [] && (a[0] < b[0] || (a[0] == b[0] && NameLe(a[1..], b[1..]))))
  }

  /** Any two names are ordered one way or the other. */
  lemma {:induction false} NameLeTotal(a: string, b: string)
    ensures NameLe(a, b) || NameLe(b, a)
    decreases |a|
  {
    if a != [] && b != [] && a[0] == b[0] {
      NameLeTotal(a[1..], b[1..]);
    }
  }

  lemma {:induction false} NameLeTrans(a: string, b: string, c: string)
    requires NameLe(a, b) && NameLe(b, c)
    ensures NameLe(a, c)
    decreases |a|
  {
    if a != [] && a[0] == b[0] && b[0] == c[0] {
      NameLeTrans(a[1..], b[1..], c[1..]);
    }
  }

  /** A name comes no later than any name it is a prefix of, a copy's name for instance. */
  lemma {:induction false} PrefixComesFirst(a: string, suffix: string)
    ensures NameLe(a, a + suffix)
    decreases |a|
  {
    if a != [] {
      assert (a + suffix)[1..] == a[1..] + suffix;
      PrefixComesFirst(a[1..], suffix);
    }
  }

  predicate SortedByName(s: seq<RoutineRow>) {
    forall i, j :: 0 <= i < j < |s| ==> NameLe(s[i].name, s[j].name)
  }

  /** Places `r` before the first row of `s` whose name it does not follow. */
  function InsertByName(r: RoutineRow, s: seq<RoutineRow>): seq<RoutineRow>
    decreases |s|
  {
    if s == [] || NameLe(r.name, s[0].name) then [r] + s
    else [s[0]] + InsertByName(r, s[1..])
  }

  function SortByName(s: seq<RoutineRow>): seq<RoutineRow>
    decreases |s|
  {
    if s == [] then [] else InsertByName(s[0], SortByName(s[1..]))
  }

  /** In a sorted list the first name comes no later than any other. */
  lemma FirstComesFirst(s: seq<RoutineRow>)
    requires s != [] && SortedByName(s)
    ensures forall x :: x in s[1..] ==> NameLe(s[0].name, x.name)
  {
    forall x | x in s[1..] ensures NameLe(s[0].name, x.name) {
      var j :| 0 <= j < |s[1..]| && s[1..][j] == x;
      assert s[j + 1] == x;
    }
  }

  /** A row whose name comes no later than every name of a sorted list can head it. */
  lemma ConsSorted(head: RoutineRow, rest: seq<RoutineRow>)
    requires SortedByName(rest)
    requires forall x :: x in rest ==> NameLe(head.name, x.name)
    ensures SortedByName([head] + rest)
  {
    var out := [head] + rest;
    forall i, j | 0 <= i < j < |out| ensures NameLe(out[i].name, out[j].name) {
      if i == 0 {
        assert out[j] == rest[j - 1];
        assert rest[j - 1] in rest;
      } else {
        assert out[i] == rest[i - 1] && out[j] == rest[j - 1];
      }
    }
  }

  lemma {:induction false} InsertByNamePreserves(r: RoutineRow, s: seq<RoutineRow>)
    requires SortedByName(s)
    ensures SortedByName(InsertByName(r, s))
    ensures multiset(InsertByName(r, s)) == multiset(s) + multiset{r}
    decreases |s|
  {
    if s == [] {
    } else if NameLe(r.name, s[0].name) {
      FirstComesFirst(s);
      forall x | x in s ensures NameLe(r.name, x.name) {
        if x != s[0] {
          assert x in s[1..] by { assert s == [s[0]] + s[1..]; }
          NameLeTrans(r.name, s[0].name, x.name);
        }
      }
      ConsSorted(r, s);
    } else {
      var head, tail := s[0], s[1..];
      var rest := InsertByName(r, tail);
      assert SortedByName(tail);
      InsertByNamePreserves(r, tail);
      NameLeTotal(r.name, head.name);
      FirstComesFirst(s);
      assert s == [head] + tail;
      forall x | x in rest ensures NameLe(head.name, x.name) {
        assert x in multiset(rest);
        if x != r {
          assert x in multiset(tail);
        }
      }
      ConsSorted(head, rest);
      assert InsertByName(r, s) == [head] + rest;
    }
  }

  /** The sort returns the same rows, each as often as before, in ascending name order. */
  lemma {:induction false} SortByNameCorrect(s: seq<RoutineRow>)
    ensures SortedByName(SortByName(s))
    ensures multiset(SortByName(s)) == multiset(s)
    decreases |s|
  {
    if s != [] {
      SortByNameCorrect(s[1..]);
      InsertByNamePreserves(s[0], SortByName(s[1..]));
      assert s == [s[0]] + s[1..];
    }
  }
}
