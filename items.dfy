/**
 * The in-memory items table behind `/api/items`: a list of records and the
 * counter that hands out the next id. List, create, update and delete change
 * the list in place, as the handlers do.
 */
module Items {
  import opened Results
  import opened Search

  /** The JSON values a request body can carry (fractional numbers and objects are not modelled). */
  datatype Json = Null | Bool(b: bool) | Num(n: int) | Str(s: string) | Arr(elems: seq<Json>)

  /** `v == null` in the loose sense `??` tests: `undefined` or `null`. */
  predicate Nullish(v: Option<Json>)
  {
    v.None? || v.value.Null?
  }

  /** `!v` for a body field; `None` is `undefined`. Nullish values are falsy, arrays never are. */
  predicate Falsy(v: Option<Json>)
    ensures Nullish(v) ==> Falsy(v)
    ensures v.Some? && v.value.Arr? ==> !Falsy(v)
  {
    match v
    case None => true
    case Some(Null) => true
    case Some(Bool(b)) => !b
    case Some(Num(n)) => n == 0
    case Some(Str(s)) => s == ""
    case Some(Arr(_)) => false
  }

  /**
   * `v ?? fallback`: only `undefined` and `null` fall back. Unlike `||`, a
   * truthy value and also a falsy `false` are kept.
   */
  function Coalesce(v: Option<Json>, fallback: Json): (r: Json)
    ensures Nullish(v) ==> r == fallback
    ensures !Falsy(v) ==> r == v.value
    ensures v == Some(Bool(false)) ==> r == Bool(false)
  {
    if Nullish(v) then fallback else v.value
  }

  /** A record of the table; `name` and `completed` hold whatever JSON the client sent. */
  datatype Item = Item(id: int, name: Json, completed: Json)

  /** The errors the handlers answer with, and their HTTP status codes. */
  datatype ItemError = NameRequired | ItemNotFound
  {
    function Message(): string
    {
      match this
      case NameRequired => "Name required"
      case ItemNotFound => "Item not found"
    }

    function Status(): int
    {
      match this
      case NameRequired => 400
      case ItemNotFound => 404
    }
  }

  /** The table the server starts with. */
  const Seed: seq<Item> := [Item(1, Str("First item"), Bool(false)), Item(2, Str("Second item"), Bool(true))]
  const SeedNextId: int := 3

  /** The `findIndex` test the update and delete handlers use. */
  function HasId(id: int): Item -> bool
  {
    (it: Item) => it.id == id
  }

  ghost predicate IdsBelow(s: seq<Item>, bound: int)
  {
    forall k :: 0 <= k < |s| ==> s[k].id < bound
  }

  ghost predicate IdsUnique(s: seq<Item>)
  {
    forall i, j :: 0 <= i < j < |s| ==> s[i].id != s[j].id
  }

  /** The table invariant: ids are distinct and all below the next id to hand out. */
  ghost predicate TableInvariant(s: seq<Item>, nextId: int)
  {
    IdsUnique(s) && IdsBelow(s, nextId)
  }

  /**
   * The record an update writes back: the same id, the name replaced by any
   * non-nullish value (an empty string included), `completed` replaced only by a boolean.
   */
  function Patch(it: Item, name: Option<Json>, completed: Option<Json>): (r: Item)
    ensures r.id == it.id
    ensures Nullish(name) ==> r.name == it.name
    ensures !Nullish(name) ==> r.name == name.value
    ensures completed.Some? && completed.value.Bool? ==> r.completed == completed.value
    ensures !(completed.Some? && completed.value.Bool?) ==> r.completed == it.completed
  {
    it.(name := Coalesce(name, it.name),
        completed := if completed.Some? && completed.value.Bool? then completed.value else it.completed)
  }

  /** The list `splice(i, 1)` leaves behind. */
  function RemoveAt(s: seq<Item>, i: nat): seq<Item>
    requires i < |s|
  {
    s[..i] + s[i + 1..]
  }

  /**
   * The splice leaves a list one record shorter, the records before and after
   * the removed one in their order, losing exactly the removed record.
   */
  lemma RemoveAtKeepsOrder(s: seq<Item>, i: nat)
    requires i < |s|
    ensures |RemoveAt(s, i)| == |s| - 1
    ensures forall k :: 0 <= k < i ==> RemoveAt(s, i)[k] == s[k]
    ensures forall k :: i <= k < |s| - 1 ==> RemoveAt(s, i)[k] == s[k + 1]
    ensures multiset(RemoveAt(s, i)) + multiset{s[i]} == multiset(s)
  {
    assert s == s[..i] + [s[i]] + s[i + 1..];
  }

  lemma SeedInvariant()
    ensures TableInvariant(Seed, SeedNextId)
  {
  }

  /** Appending a record with the next id keeps the invariant once the counter moves on. */
  lemma AppendKeepsInvariant(s: seq<Item>, nextId: int, it: Item)
    requires TableInvariant(s, nextId) && it.id == nextId
    ensures TableInvariant(s + [it], nextId + 1)
    ensures FindIndex(s, HasId(it.id)) == -1
  {
  }

  /** Patching a record keeps its id, so the invariant survives an update. */
  lemma PatchKeepsInvariant(s: seq<Item>, nextId: int, i: nat, name: Option<Json>, completed: Option<Json>)
    requires TableInvariant(s, nextId) && i < |s|
    ensures TableInvariant(s[i := Patch(s[i], name, completed)], nextId)
  {
  }

  /** Removing a record keeps the invariant, and with unique ids its id is gone from the table. */
  lemma RemoveKeepsInvariant(s: seq<Item>, nextId: int, i: nat)
    requires TableInvariant(s, nextId) && i < |s|
    ensures TableInvariant(RemoveAt(s, i), nextId)
    ensures forall k :: 0 <= k < |RemoveAt(s, i)| ==> RemoveAt(s, i)[k].id != s[i].id
  {
  }

  /**
   * Deleting the record just created gives back the table as it was before the
   * create. The proof goes through FindIndexAppend, not through induction on `s`.
   */
  lemma {:induction false} DeleteUndoesCreate(s: seq<Item>, nextId: int, it: Item)
    requires TableInvariant(s, nextId) && it.id == nextId
    ensures FindIndex(s + [it], HasId(nextId)) == |s|
    ensures RemoveAt(s + [it], |s|) == s
  {
    FindIndexAppend(s, it, HasId(nextId));
    assert (s + [it])[..|s|] == s;
  }

  /** An update with nothing to change is the identity, and repeating an update changes nothing more. */
  lemma PatchLaws(it: Item, name: Option<Json>, completed: Option<Json>)
    ensures Patch(it, None, None) == it
    ensures Patch(Patch(it, name, completed), name, completed) == Patch(it, name, completed)
    ensures Patch(it, Some(Str("")), None).name == Str("")
    ensures Patch(it, None, Some(Str("yes"))) == it
  {
  }

  class ItemStore {
    var items: seq<Item>
    var nextId: int

    ghost predicate Valid()
      reads this
    {
      TableInvariant(items, nextId)
    }

    /** The table the server starts with: ids 1 and 2, next id 3. */
    constructor ()
      ensures Valid()
      ensures items == Seed && nextId == SeedNextId
    {
      items := Seed;
      nextId := SeedNextId;
    }

    /** GET /api/items: the count and the records, in order. */
    method List() returns (count: nat, data: seq<Item>)
      ensures count == |items| && data == items
    {
      count, data := |items|, items;
    }

    /** The `findIndex` the update and delete handlers run over the table. */
    method IndexOf(id: int) returns (index: int)
      ensures -1 <= index < |items|
      ensures index >= 0 ==> items[index].id == id && forall k :: 0 <= k < index ==> items[k].id != id
      ensures index == -1 <==> forall k :: 0 <= k < |items| ==> items[k].id != id
      ensures index == FindIndex(items, HasId(id))
    {
      index := Scan(items, HasId(id));
    }

    /**
     * POST /api/items: a falsy name is refused and nothing changes; otherwise
     * one record with the old counter as id is appended and the counter grows.
     */
    method Create(name: Option<Json>, completed: Option<Json>) returns (r: Result<Item, ItemError>)
      requires Valid()
      modifies this
      ensures Valid()
      ensures Falsy(name) ==> r == Err(NameRequired) && items == old(items) && nextId == old(nextId)
      ensures !Falsy(name) ==>
                && r == Ok(Item(old(nextId), name.value, Coalesce(completed, Bool(false))))
                && items == old(items) + [r.value]
                && nextId == old(nextId) + 1
      ensures r.Ok? ==> forall k :: 0 <= k < |old(items)| ==> old(items)[k].id != r.value.id
    {
      if Falsy(name) {
        return Err(NameRequired);
      }
      var item := Item(nextId, name.value, Coalesce(completed, Bool(false)));
      AppendKeepsInvariant(items, nextId, item);
      nextId := nextId + 1;
      items := items + [item];
      r := Ok(item);
    }

    /**
     * PUT /api/items/:id: an unknown id is refused and nothing changes;
     * otherwise only the matching record is patched, in place.
     */
    method Update(id: int, name: Option<Json>, completed: Option<Json>) returns (r: Result<Item, ItemError>)
      requires Valid()
      modifies this
      ensures Valid() && nextId == old(nextId) && |items| == |old(items)|
      ensures var i := FindIndex(old(items), HasId(id));
              && (i == -1 ==> r == Err(ItemNotFound) && items == old(items))
              && (i >= 0 ==>
                    && items == old(items)[i := Patch(old(items)[i], name, completed)]
                    && r == Ok(items[i])
                    && items[i].id == id)
      ensures forall k :: 0 <= k < |items| && old(items)[k].id != id ==> items[k] == old(items)[k]
    {
      var index := IndexOf(id);
      if index == -1 {
        return Err(ItemNotFound);
      }
      PatchKeepsInvariant(items, nextId, index, name, completed);
      items := items[index := Patch(items[index], name, completed)];
      r := Ok(items[index]);
    }

    /**
     * DELETE /api/items/:id: an unknown id is refused and nothing changes;
     * otherwise the matching record is cut out and returned, the rest keeping their order.
     */
    method Delete(id: int) returns (r: Result<Item, ItemError>)
      requires Valid()
      modifies this
      ensures Valid() && nextId == old(nextId)
      ensures var i := FindIndex(old(items), HasId(id));
              && (i == -1 ==> r == Err(ItemNotFound) && items == old(items))
              && (i >= 0 ==>
                    && r == Ok(old(items)[i])
                    && items == RemoveAt(old(items), i)
                    && |items| == |old(items)| - 1)
      ensures r.Ok? ==> forall k :: 0 <= k < |items| ==> items[k].id != id
    {
      var index := IndexOf(id);
      if index == -1 {
        return Err(ItemNotFound);
      }
      RemoveKeepsInvariant(items, nextId, index);
      r := Ok(items[index]);
      items := RemoveAt(items, index);
    }
  }
}
