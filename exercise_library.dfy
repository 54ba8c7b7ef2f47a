/**
 * The exercise catalogue grouped by category, as both editors build it from the
 * `exercise_library` rows the backend returns (`data.reduce(...)` with an
 * accumulator whose buckets are pushed to in place).
 */
module ExerciseLibrary {
  import opened Rows

  /** The bucket of entries whose category is empty or absent. */
  const Fallback: string := "Otros"

  /** `curr.category || 'Otros'`. */
  function CategoryOf(e: LibraryEntry): (c: string)
    ensures c != ""
    ensures c == Fallback <==> e.category == None || e.category == Some("") || e.category == Some(Fallback)
  {
    match e.category
    case Some(c) => if c == "" then Fallback else c
    case None => Fallback
  }

  /** The names of the entries in category `cat`, in the order the entries come. */
  function Bucket(entries: seq<LibraryEntry>, cat: string): seq<string>
    decreases |entries|
  {
    if entries == [] then []
    else
      var last := entries[|entries| - 1];
      Bucket(entries[..|entries| - 1], cat) + (if CategoryOf(last) == cat then [last.name] else [])
  }

  /** The reduce: one bucket per category that occurs, each holding that category's names in order. */
  method GroupByCategory(entries: seq<LibraryEntry>) returns (grouped: map<string, seq<string>>)
    ensures forall c :: c in grouped <==> exists j :: 0 <= j < |entries| && CategoryOf(entries[j]) == c
    ensures forall c :: c in grouped ==> grouped[c] == Bucket(entries, c)
  {
    grouped := map[];
    var i := 0;
    while i < |entries|
      invariant 0 <= i <= |entries|
      invariant forall c :: c in grouped <==> exists j :: 0 <= j < i && CategoryOf(entries[j]) == c
      invariant forall c :: c in grouped ==> grouped[c] == Bucket(entries[..i], c)
    {
      var cat := CategoryOf(entries[i]);
      if cat !in grouped {
        BucketOfAbsentCategory(entries[..i], cat);
        grouped := grouped[cat := []];
      }
      grouped := grouped[cat := grouped[cat] + [entries[i].name]];
      assert entries[..i + 1][..i] == entries[..i];
      assert forall c :: (Bucket(entries[..i + 1], c)
        == Bucket(entries[..i], c) + (if CategoryOf(entries[i]) == c then [entries[i].name] else []));
      i := i + 1;
    }
    assert entries[..i] == entries;
  }

  /** A category no entry has gets an empty bucket. */
  lemma {:induction false} BucketOfAbsentCategory(entries: seq<LibraryEntry>, cat: string)
    requires forall j :: 0 <= j < |entries| ==> CategoryOf(entries[j]) != cat
    ensures Bucket(entries, cat) == []
    decreases |entries|
  {
    if entries != [] {
      BucketOfAbsentCategory(entries[..|entries| - 1], cat);
    }
  }

  /** A bucket of a concatenation is the two buckets concatenated: grouping keeps input order. */
  lemma {:induction false} BucketAppend(a: seq<LibraryEntry>, b: seq<LibraryEntry>, cat: string)
    ensures Bucket(a + b, cat) == Bucket(a, cat) + Bucket(b, cat)
    decreases |b|
  {
    if b == [] {
      assert a + b == a;
    } else {
      var ab := a + b;
      assert ab[..|ab| - 1] == a + b[..|b| - 1];
      assert ab[|ab| - 1] == b[|b| - 1];
      BucketAppend(a, b[..|b| - 1], cat);
    }
  }

  /**
   * Entry `j` lands in the bucket of its own category, after the earlier entries of
   * that category and before the later ones, and in no other bucket.
   */
  lemma EntryLandsInOneBucket(entries: seq<LibraryEntry>, j: nat, cat: string)
    requires j < |entries|
    ensures Bucket(entries, cat) ==
      Bucket(entries[..j], cat)
      + (if CategoryOf(entries[j]) == cat then [entries[j].name] else [])
      + Bucket(entries[j + 1..], cat)
  {
    assert entries == entries[..j] + [entries[j]] + entries[j + 1..];
    BucketAppend(entries[..j] + [entries[j]], entries[j + 1..], cat);
    BucketAppend(entries[..j], [entries[j]], cat);
    assert Bucket([entries[j]], cat) == Bucket([], cat) + (if CategoryOf(entries[j]) == cat then [entries[j].name] else []) by {
      assert [entries[j]][..0] == [];
    }
  }
}
