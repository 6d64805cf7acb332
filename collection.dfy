/** The persisted collection every screen is built on: a named list of records
    that is loaded once and afterwards replaced wholesale by each handler
    (`setXs([...xs, r])`, `setXs(xs.map(...))`, `setXs(xs.filter(...))`).
    Local storage itself is not modelled: `items` is the value the screen
    sees, and every write goes through one of the methods below. */
module CollectionStore {
  import opened Common
  import opened Seqs

  /** `xs.map(x => idOf(x) === id ? f(x) : x)`. */
  function Updated<R(!new)>(xs: seq<R>, idOf: R -> string, id: string, f: R -> R): (r: seq<R>)
    ensures |r| == |xs|
    ensures forall i :: 0 <= i < |xs| ==> r[i] == if idOf(xs[i]) == id then f(xs[i]) else xs[i]
  {
    if xs == [] then []
    else [if idOf(xs[0]) == id then f(xs[0]) else xs[0]] + Updated(xs[1..], idOf, id, f)
  }

  /** `xs.map(x => idOf(x) === id ? y : x)`: the edit-by-id of every screen. */
  function Replaced<R(!new)>(xs: seq<R>, idOf: R -> string, id: string, y: R): (r: seq<R>)
    ensures |r| == |xs|
    ensures forall i :: 0 <= i < |xs| && idOf(xs[i]) == id ==> r[i] == y
    ensures forall i :: 0 <= i < |xs| && idOf(xs[i]) != id ==> r[i] == xs[i]
  {
    Updated(xs, idOf, id, _ => y)
  }

  /** `xs.filter(x => idOf(x) !== id)`: the delete-by-id of every screen. */
  function Removed<R(!new)>(xs: seq<R>, idOf: R -> string, id: string): (r: seq<R>)
    ensures |r| <= |xs|
    ensures forall y :: y in r <==> y in xs && idOf(y) != id
  {
    Filter(xs, y => idOf(y) != id)
  }

  /** The records that carry `id`. */
  function WithId<R(!new)>(xs: seq<R>, idOf: R -> string, id: string): (r: seq<R>)
    ensures forall y :: y in r <==> y in xs && idOf(y) == id
  {
    Filter(xs, y => idOf(y) == id)
  }

  /** `editing?.id || Date.now().toString()`: the id a submitted form gets — the
      edited record's id when there is one and it is non-empty, else a fresh one. */
  function SubmittedId(editingId: Option<string>, freshId: string): (id: string)
    ensures editingId.Some? && editingId.value != "" ==> id == editingId.value
    ensures editingId.None? || editingId.value == "" ==> id == freshId
  {
    if editingId.Some? && editingId.value != "" then editingId.value else freshId
  }

  /** `editing?.id`: the id of the edit target, present exactly when an edit is
      in progress. */
  function TargetOf<R>(editing: Option<R>, idOf: R -> string): (t: Option<string>)
    ensures t.Some? <==> editing.Some?
    ensures editing.Some? ==> t.value == idOf(editing.value)
  {
    if editing.Some? then Some(idOf(editing.value)) else None
  }

  /** A form submission: with an edit target, replace the records carrying the
      target id; without one, append. */
  function Upserted<R(!new)>(xs: seq<R>, idOf: R -> string, target: Option<string>, r: R): (ys: seq<R>)
    ensures target.None? ==> |ys| == |xs| + 1 && ys[..|xs|] == xs && ys[|xs|] == r
    ensures target.Some? ==> |ys| == |xs|
    ensures target.Some? ==> forall i :: 0 <= i < |xs| ==>
              ys[i] == if idOf(xs[i]) == target.value then r else xs[i]
  {
    match target
    case None => xs + [r]
    case Some(id) => Replaced(xs, idOf, id, r)
  }

  /** An edit whose new record keeps the target id leaves the id at every
      position as it was: records are replaced where they stand. */
  lemma EditKeepsIds<R(!new)>(xs: seq<R>, idOf: R -> string, id: string, r: R)
    requires idOf(r) == id
    ensures |Upserted(xs, idOf, Some(id), r)| == |xs|
    ensures forall i :: 0 <= i < |xs| ==> idOf(Upserted(xs, idOf, Some(id), r)[i]) == idOf(xs[i])
  {
  }

  /** An update of an id nobody carries changes nothing. */
  lemma UpdatedUnknownId<R(!new)>(xs: seq<R>, idOf: R -> string, id: string, f: R -> R)
    requires forall y :: y in xs ==> idOf(y) != id
    ensures Updated(xs, idOf, id, f) == xs
  {
    var r := Updated(xs, idOf, id, f);
    assert forall i :: 0 <= i < |xs| ==> r[i] == xs[i] by {
      forall i | 0 <= i < |xs| ensures r[i] == xs[i] {
        assert xs[i] in xs;
      }
    }
  }

  /** Editing a target id nobody carries changes nothing. */
  lemma ReplacedUnknownId<R(!new)>(xs: seq<R>, idOf: R -> string, id: string, y: R)
    requires forall z :: z in xs ==> idOf(z) != id
    ensures Replaced(xs, idOf, id, y) == xs
  {
    UpdatedUnknownId(xs, idOf, id, _ => y);
  }

  /** Deleting an id nobody carries changes nothing. */
  lemma RemovedUnknownId<R(!new)>(xs: seq<R>, idOf: R -> string, id: string)
    requires forall y :: y in xs ==> idOf(y) != id
    ensures Removed(xs, idOf, id) == xs
  {
    FilterAll(xs, y => idOf(y) != id);
  }

  /** Deletion keeps the surviving records in their order, and removes exactly
      as many records as carry the id. */
  lemma RemovedShape<R(!new)>(xs: seq<R>, idOf: R -> string, id: string)
    ensures IsSubsequence(Removed(xs, idOf, id), xs)
    ensures |Removed(xs, idOf, id)| == |xs| - |WithId(xs, idOf, id)|
    ensures multiset(Removed(xs, idOf, id)) + multiset(WithId(xs, idOf, id)) == multiset(xs)
  {
    FilterIsSubsequence(xs, y => idOf(y) != id);
    FilterPartition(xs, y => idOf(y) != id, y => idOf(y) == id);
  }

  /** Deleting a record whose id is unique shrinks the collection by exactly one. */
  lemma RemovedUniqueId<R(!new)>(xs: seq<R>, idOf: R -> string, k: nat)
    requires k < |xs|
    requires forall i :: 0 <= i < |xs| && i != k ==> idOf(xs[i]) != idOf(xs[k])
    ensures |Removed(xs, idOf, idOf(xs[k]))| == |xs| - 1
    ensures xs[k] !in Removed(xs, idOf, idOf(xs[k]))
  {
    var id := idOf(xs[k]);
    RemovedShape(xs, idOf, id);
    UniqueIdCount(xs, idOf, k);
  }

  lemma {:induction false} UniqueIdCount<R(!new)>(xs: seq<R>, idOf: R -> string, k: nat)
    requires k < |xs|
    requires forall i :: 0 <= i < |xs| && i != k ==> idOf(xs[i]) != idOf(xs[k])
    ensures |WithId(xs, idOf, idOf(xs[k]))| == 1
  {
    var id := idOf(xs[k]);
    var p := y => idOf(y) == id;
    FilterCons(xs[0], xs[1..], p);
    assert [xs[0]] + xs[1..] == xs;
    if k == 0 {
      FilterNone(xs[1..], p);
    } else {
      assert forall i :: 0 <= i < |xs[1..]| && i != k - 1 ==> idOf(xs[1..][i]) != idOf(xs[1..][k - 1]);
      UniqueIdCount(xs[1..], idOf, k - 1);
    }
  }

  /** A screen's collection: the record list it reads, plus the function that
      gives each record's id. */
  class Collection<R(!new)> {
    var items: seq<R>
    const idOf: R -> string

    /** `useLocalStorage(key, [])`: start from whatever was loaded. */
    constructor (idOf: R -> string, loaded: seq<R>)
      ensures this.idOf == idOf && items == loaded
    {
      this.idOf := idOf;
      items := loaded;
    }

    /** The setter: replace the whole list. */
    method Set(xs: seq<R>)
      modifies this
      ensures items == xs
    {
      items := xs;
    }

    /** `setXs([...xs, r])`. */
    method Append(r: R)
      modifies this
      ensures items == old(items) + [r]
      ensures |items| == |old(items)| + 1 && items[|items| - 1] == r
      ensures forall i :: 0 <= i < |old(items)| ==> items[i] == old(items)[i]
    {
      items := items + [r];
    }

    /** `setXs(xs.map(x => x.id === id ? f(x) : x))`. */
    method UpdateById(id: string, f: R -> R)
      modifies this
      ensures items == Updated(old(items), idOf, id, f)
    {
      items := Updated(items, idOf, id, f);
    }

    /** `setXs(xs.map(x => x.id === id ? r : x))`. */
    method ReplaceById(id: string, r: R)
      modifies this
      ensures items == Replaced(old(items), idOf, id, r)
      ensures |items| == |old(items)|
      ensures forall i :: 0 <= i < |items| ==>
                items[i] == if idOf(old(items)[i]) == id then r else old(items)[i]
    {
      items := Replaced(items, idOf, id, r);
    }

    /** A form submission: `editing ? setXs(xs.map(...)) : setXs([...xs, r])`. */
    method Submit(target: Option<string>, r: R)
      modifies this
      ensures items == Upserted(old(items), idOf, target, r)
    {
      items := Upserted(items, idOf, target, r);
    }

    /** `setXs(xs.filter(x => x.id !== id))`. */
    method DeleteById(id: string)
      modifies this
      ensures items == Removed(old(items), idOf, id)
      ensures IsSubsequence(items, old(items))
      ensures forall y :: y in items <==> y in old(items) && idOf(y) != id
    {
      RemovedShape(items, idOf, id);
      items := Removed(items, idOf, id);
    }

    /** `xs.sort(...)` on the array the screen holds: reorders it in place
        (stably, ascending by `key`) without going through the setter. */
    method SortInPlace(key: R -> int)
      modifies this
      ensures items == SortBy(old(items), key)
      ensures multiset(items) == multiset(old(items)) && SortedBy(items, key)
    {
      items := SortBy(items, key);
    }
  }
}
