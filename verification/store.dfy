/** The three mutations of the stored record list: delete by id, update by id
    (the submit handler while an edit is pending) and append (the submit handler
    otherwise). Each returns the list to write back and what to tell the user;
    on NotFound the stored list is not rewritten. */
module Store {
  import opened Wrappers
  import opened Records
  import opened Seqs

  predicate HasId(items: seq<Item>, id: int)
  {
    exists i :: 0 <= i < |items| && items[i].id == id
  }

  function IdIsNot(id: int): Item -> bool
  {
    (x: Item) => x.id != id
  }

  /** `deleteTurnaroundItem`: drops every record carrying the id; reports NotFound,
      and leaves the list as it was, when none does. */
  function Delete(items: seq<Item>, id: int): (r: (seq<Item>, Outcome))
    ensures r.1 == NotFound <==> !HasId(items, id)
    ensures r.1 == NotFound ==> r.0 == items
    ensures r.1 == Saved ==> |r.0| < |items|
    ensures forall x :: x in r.0 <==> x in items && x.id != id
  {
    var kept := Filter(IdIsNot(id), items);
    FilterKeepsAll(IdIsNot(id), items);
    assert forall x :: x in kept <==> x in items && x.id != id by {
      forall x {
        FilterMembership(IdIsNot(id), items, x);
      }
    }
    if |kept| < |items| then (kept, Saved) else (items, NotFound)
  }

  /** Deletion keeps the surviving records in their stored order, each as many times
      as it was stored. */
  lemma DeleteKeepsOrder(items: seq<Item>, id: int)
    ensures IsSubsequence(Delete(items, id).0, items)
    ensures forall x: Item :: x.id != id ==> multiset(Delete(items, id).0)[x] == multiset(items)[x]
  {
    FilterIsSubsequence(IdIsNot(id), items);
    FilterKeepsAll(IdIsNot(id), items);
    forall x: Item | x.id != id
      ensures multiset(Delete(items, id).0)[x] == multiset(items)[x]
    {
      FilterMultiset(IdIsNot(id), items, x);
    }
  }

  /** `findIndex(item => item.id === id)`: the position of the first record with the id. */
  function FindIndex(items: seq<Item>, id: int): (r: Option<nat>)
    ensures r.None? <==> !HasId(items, id)
    ensures r.Some? ==> r.value < |items| && items[r.value].id == id
    ensures r.Some? ==> forall j :: 0 <= j < r.value ==> items[j].id != id
  {
    if items == [] then None
    else if items[0].id == id then Some(0)
    else
      match FindIndex(items[1..], id)
      case None =>
        assert forall j :: 1 <= j < |items| ==> items[j] == items[1..][j - 1];
        None
      case Some(k) => Some(k + 1)
  }

  /** `{ ...old, ...itemData }`: every form field is overwritten, the id and the
      creation time are kept. */
  function Merge(stored: Item, form: Form): Item
  {
    stored.(fields := form)
  }

  /** `after` is `items` with the first record carrying `id` given the form's
      fields, and every other record as it was. */
  predicate ReplacesFirst(items: seq<Item>, id: int, form: Form, after: seq<Item>)
  {
    && |after| == |items|
    && exists i :: (
      && 0 <= i < |items| && items[i].id == id
      && (forall j :: 0 <= j < i ==> items[j].id != id)
      && after[i] == Item(id, items[i].created, form)
      && (forall j :: 0 <= j < |items| && j != i ==> after[j] == items[j]))
  }

  /** The update branch of the submit handler: replaces the first record with the
      id by its merge with the form; NotFound, and nothing written, when the id is
      absent. */
  function Update(items: seq<Item>, id: int, form: Form): (r: (seq<Item>, Outcome))
    ensures r.1 == NotFound <==> !HasId(items, id)
    ensures r.1 == NotFound ==> r.0 == items
    ensures |r.0| == |items|
    ensures forall j :: 0 <= j < |items| ==> r.0[j].id == items[j].id && r.0[j].created == items[j].created
    ensures r.1 == Saved ==> ReplacesFirst(items, id, form, r.0)
  {
    match FindIndex(items, id)
    case Some(i) => (items[i := Merge(items[i], form)], Saved)
    case None => (items, NotFound)
  }

  /** The add branch of the submit handler: appends one record with the supplied
      id and creation time. */
  function Add(items: seq<Item>, form: Form, id: int, created: int): (r: seq<Item>)
    ensures |r| == |items| + 1
    ensures r[..|items|] == items
    ensures r[|items|].id == id && r[|items|].created == created && r[|items|].fields == form
  {
    items + [Item(id, created, form)]
  }

  /** The submit handler: `if (editingItemId)` is a truthiness test, so an absent
      edit id and an edit id of 0 both take the add branch. */
  function Submit(items: seq<Item>, editing: Option<int>, form: Form, newId: int, now: int): (r: (seq<Item>, Outcome))
    ensures editing.Some? && editing.value != 0 ==>
      && |r.0| == |items|
      && (r.1 == NotFound <==> !HasId(items, editing.value))
      && (r.1 == NotFound ==> r.0 == items)
      && (r.1 == Saved ==> ReplacesFirst(items, editing.value, form, r.0))
    ensures editing.None? || editing.value == 0 ==>
      && r.1 == Saved
      && |r.0| == |items| + 1
      && r.0[..|items|] == items
      && r.0[|items|..] == [Item(newId, now, form)]
  {
    if editing.Some? && editing.value != 0 then Update(items, editing.value, form)
    else (Add(items, form, newId, now), Saved)
  }

  /** Adding a record under a fresh id and deleting that id restores the list. */
  lemma AddThenDelete(items: seq<Item>, form: Form, id: int, created: int)
    requires !HasId(items, id)
    ensures Delete(Add(items, form, id, created), id) == (items, Saved)
  {
    var added := Add(items, form, id, created);
    FilterAppend(IdIsNot(id), items, [Item(id, created, form)]);
    assert forall i :: 0 <= i < |items| ==> IdIsNot(id)(items[i]);
    FilterKeepsAll(IdIsNot(id), items);
    assert Filter(IdIsNot(id), [Item(id, created, form)]) == [];
    assert added == items + [Item(id, created, form)];
    assert Filter(IdIsNot(id), added) == items;
  }

  /** After an update the record is found where it was, carrying the submitted
      fields under its original id and creation time. */
  lemma UpdateThenFind(items: seq<Item>, id: int, form: Form)
    requires HasId(items, id)
    ensures var after := Update(items, id, form).0;
      && FindIndex(after, id) == FindIndex(items, id)
      && after[FindIndex(items, id).value] == Item(id, items[FindIndex(items, id).value].created, form)
  {
    var i := FindIndex(items, id).value;
    var after := Update(items, id, form).0;
    assert after == items[i := Merge(items[i], form)];
    var k := FindIndex(after, id);
    assert k.Some? by { assert after[i].id == id; }
    assert k.value == i;
  }

  /** Submitting the same form twice for the same record changes nothing the
      second time. */
  lemma UpdateIdempotent(items: seq<Item>, id: int, form: Form)
    ensures var once := Update(items, id, form).0;
      Update(once, id, form) == (once, Update(items, id, form).1)
  {
    if HasId(items, id) {
      UpdateThenFind(items, id, form);
      var i := FindIndex(items, id).value;
      var once := Update(items, id, form).0;
      assert once[i := Merge(once[i], form)] == once;
    }
  }

  /** Deleting removes the id for good, whatever else the list holds. */
  lemma DeleteThenAbsent(items: seq<Item>, id: int)
    ensures !HasId(Delete(items, id).0, id)
    ensures Delete(Delete(items, id).0, id).1 == NotFound
  {
  }
}
