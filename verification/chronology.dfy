/** The chronological order the record list is shown in: a stable sort by
    creation time, as `Array.prototype.sort` with the comparator
    `new Date(a.timestamp) - new Date(b.timestamp)` performs it. */
module Chronology {
  import opened Records
  import opened Seqs

  predicate SortedByCreated(s: seq<Item>)
  {
    forall i, j :: 0 <= i < j < |s| ==> s[i].created <= s[j].created
  }

  function CreatedAt(k: int): Item -> bool
  {
    (x: Item) => x.created == k
  }

  /** The records created at instant `k`, in their order in `s`. A sort is stable
      exactly when it leaves each of these runs as it was. */
  function CreatedRun(s: seq<Item>, k: int): seq<Item>
  {
    Filter(CreatedAt(k), s)
  }

  /** Inserts `x` in front of the first record created at the same instant as `x`
      or later. */
  function Insert(x: Item, s: seq<Item>): (r: seq<Item>)
    ensures |r| == |s| + 1
    ensures forall i :: 0 <= i < |r| ==> r[i] == x || r[i] in s
    ensures multiset(r) == multiset(s) + multiset{x}
  {
    if s == [] || x.created <= s[0].created then [x] + s
    else
      assert s == [s[0]] + s[1..];
      [s[0]] + Insert(x, s[1..])
  }

  /** Inserting into a list in creation order keeps it in creation order. */
  lemma {:induction false} InsertSorted(x: Item, s: seq<Item>)
    requires SortedByCreated(s)
    ensures SortedByCreated(Insert(x, s))
  {
    if s != [] && x.created > s[0].created {
      assert SortedByCreated(s[1..]);
      InsertSorted(x, s[1..]);
      var rest := Insert(x, s[1..]);
      assert forall i :: 0 <= i < |rest| ==> s[0].created <= rest[i].created;
      var r := Insert(x, s);
      assert r == [s[0]] + rest;
      assert forall i :: 1 <= i < |r| ==> r[i] == rest[i - 1];
    }
  }

  /** The records in creation order; records created at the same instant keep the
      order they were stored in. */
  function SortByCreated(s: seq<Item>): (r: seq<Item>)
    ensures SortedByCreated(r)
    ensures multiset(r) == multiset(s)
  {
    if s == [] then []
    else
      assert s == [s[0]] + s[1..];
      var sortedTail := SortByCreated(s[1..]);
      InsertSorted(s[0], sortedTail);
      Insert(s[0], sortedTail)
  }

  /** Inserting adds `x` at the front of its own run and leaves the other runs alone. */
  lemma {:induction false} InsertRun(x: Item, s: seq<Item>, k: int)
    requires SortedByCreated(s)
    ensures CreatedRun(Insert(x, s), k) == if x.created == k then [x] + CreatedRun(s, k) else CreatedRun(s, k)
  {
    var r := Insert(x, s);
    if s == [] || x.created <= s[0].created {
      assert r[0] == x && r[1..] == s;
    } else {
      InsertRun(x, s[1..], k);
      assert r[0] == s[0] && r[1..] == Insert(x, s[1..]);
    }
  }

  /** The sort is stable: the records created at any one instant appear in the
      sorted list in the order they had before. */
  lemma {:induction false} SortIsStable(s: seq<Item>, k: int)
    ensures CreatedRun(SortByCreated(s), k) == CreatedRun(s, k)
  {
    if s != [] {
      SortIsStable(s[1..], k);
      InsertRun(s[0], SortByCreated(s[1..]), k);
      assert s == [s[0]] + s[1..];
    }
  }

  /** Sorting a list that is already in creation order changes nothing. */
  lemma {:induction false} SortSortedIsIdentity(s: seq<Item>)
    requires SortedByCreated(s)
    ensures SortByCreated(s) == s
  {
    if s != [] {
      assert SortedByCreated(s[1..]);
      SortSortedIsIdentity(s[1..]);
    }
  }

  /** Dropping records from a list in creation order leaves it in creation order. */
  lemma {:induction false} FilterKeepsSorted(p: Item -> bool, s: seq<Item>)
    requires SortedByCreated(s)
    ensures SortedByCreated(Filter(p, s))
  {
    if s != [] {
      assert SortedByCreated(s[1..]);
      FilterKeepsSorted(p, s[1..]);
      var rest := Filter(p, s[1..]);
      assert forall j :: 0 <= j < |rest| ==> rest[j] in s[1..];
    }
  }
}
