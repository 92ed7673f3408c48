/** The `by-timestamp` index of the `messages` store: the (timestamp, primary key) pairs of the
    stored records, kept in ascending order, which is the order an index scan returns them in. */
module TimestampIndex {
  import opened Strings

  datatype IndexEntry = IndexEntry(timestamp: int, key: string)

  /** Index order: by index key (the timestamp), ties broken by the primary key. */
  predicate EntryLess(a: IndexEntry, b: IndexEntry)
  {
    a.timestamp < b.timestamp || (a.timestamp == b.timestamp && StrLess(a.key, b.key))
  }

  lemma EntryLessTransitive(a: IndexEntry, b: IndexEntry, c: IndexEntry)
    requires EntryLess(a, b) && EntryLess(b, c)
    ensures EntryLess(a, c)
  {
    if a.timestamp == b.timestamp == c.timestamp {
      StrLessTransitive(a.key, b.key, c.key);
    }
  }

  lemma EntryLessTotal(a: IndexEntry, b: IndexEntry)
    requires a != b
    ensures EntryLess(a, b) || EntryLess(b, a)
  {
    if a.timestamp == b.timestamp {
      StrLessTotal(a.key, b.key);
    }
  }

  lemma EntryLessIrreflexive(a: IndexEntry)
    ensures !EntryLess(a, a)
  {
    StrLessIrreflexive(a.key);
  }

  /** Strictly ascending, so also free of duplicates. */
  predicate Sorted(s: seq<IndexEntry>)
  {
    forall i, j :: 0 <= i < j < |s| ==> EntryLess(s[i], s[j])
  }

  /** The index with every entry for primary key `k` taken out. */
  function RemoveKey(s: seq<IndexEntry>, k: string): (r: seq<IndexEntry>)
    ensures forall e :: e in r <==> e in s && e.key != k
    ensures |r| <= |s|
  {
    if s == [] then []
    else if s[0].key == k then RemoveKey(s[1..], k)
    else [s[0]] + RemoveKey(s[1..], k)
  }

  lemma {:induction false} RemoveKeySorted(s: seq<IndexEntry>, k: string)
    requires Sorted(s)
    ensures Sorted(RemoveKey(s, k))
  {
    if s != [] {
      RemoveKeySorted(s[1..], k);
      var rest := RemoveKey(s[1..], k);
      if s[0].key != k {
        forall j | 0 <= j < |rest| ensures EntryLess(s[0], rest[j]) {
          assert rest[j] in s[1..];
        }
      }
    }
  }

  /** The index with entry `e` placed at its position in the order. */
  function Insert(s: seq<IndexEntry>, e: IndexEntry): (r: seq<IndexEntry>)
    ensures forall x :: x in r <==> x in s || x == e
  {
    if s == [] then [e]
    else if EntryLess(e, s[0]) then [e] + s
    else if e == s[0] then s
    else [s[0]] + Insert(s[1..], e)
  }

  lemma {:induction false} InsertSorted(s: seq<IndexEntry>, e: IndexEntry)
    requires Sorted(s)
    ensures Sorted(Insert(s, e))
  {
    if s == [] {
    } else if EntryLess(e, s[0]) {
      forall j | 0 <= j < |s| ensures EntryLess(e, s[j]) {
        if j > 0 { EntryLessTransitive(e, s[0], s[j]); }
      }
      var r := [e] + s;
      assert forall j :: 1 <= j < |r| ==> r[j] == s[j - 1];
    } else if e == s[0] {
    } else {
      EntryLessTotal(e, s[0]);
      InsertSorted(s[1..], e);
      var rest := Insert(s[1..], e);
      forall j | 0 <= j < |rest| ensures EntryLess(s[0], rest[j]) {
        assert rest[j] in s[1..] || rest[j] == e;
      }
    }
  }
}
