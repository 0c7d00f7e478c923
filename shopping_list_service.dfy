/** The server's list service over the stored collection, an identifier to
    list map: list all, create with fixed defaults, get, update by a `$set`
    merge, and delete. */
module ShoppingListService {

  import opened Common
  import opened ShoppingListSchema
  import Seqs

  /** A request body: any of the list's fields, each possibly missing. */
  datatype ListBody = ListBody(
    title: Option<string>,
    ownerId: Option<Id>,
    memberIds: Option<seq<Id>>,
    archived: Option<bool>,
    items: Option<seq<StoredItem>>)

  /** The result of a service call: resolved with a value, or rejected. */
  datatype Outcome<T> = Resolved(value: T) | Rejected

  /** The document `createShoppingListService` saves: title, owner and
      members from the details, `archived` false and no items, whatever else
      the details hold. */
  function CreateDoc(details: ListBody): (d: ListDoc)
    ensures d.title == details.title && d.ownerId == details.ownerId && d.memberIds == details.memberIds
    ensures d.archived == Some(false) && d.items == []
  {
    ListDoc(details.title, details.ownerId, details.memberIds, Some(false), [])
  }

  /** An item as the update's casting stores it: its name through the `trim`
      setter. */
  function CastItem(it: StoredItem): StoredItem
  {
    it.(name := Trim(it.name))
  }

  /** `{ $set: body }`: each field the body names replaces the stored one
      (strings through their `trim` setters); every other field is kept.
      No validator runs. */
  function Merge(l: StoredList, body: ListBody): (r: StoredList)
    ensures r.title == if body.title.Some? then Trim(body.title.value) else l.title
    ensures r.ownerId == if body.ownerId.Some? then body.ownerId.value else l.ownerId
    ensures r.memberIds == if body.memberIds.Some? then body.memberIds.value else l.memberIds
    ensures r.archived == if body.archived.Some? then body.archived else l.archived
    ensures body.items.None? ==> r.items == l.items
    ensures body.items.Some? ==> (|r.items| == |body.items.value| &&
                                  forall i :: 0 <= i < |r.items| ==> r.items[i] == CastItem(body.items.value[i]))
  {
    StoredList(
      if body.title.Some? then Trim(body.title.value) else l.title,
      if body.ownerId.Some? then body.ownerId.value else l.ownerId,
      if body.memberIds.Some? then body.memberIds.value else l.memberIds,
      if body.archived.Some? then body.archived else l.archived,
      if body.items.Some? then Seqs.Map(CastItem, body.items.value) else l.items)
  }

  /** An update body that names no field. */
  function EmptyBody(): ListBody
  {
    ListBody(None, None, None, None, None)
  }

  /** Merging an empty body changes nothing. */
  lemma MergeEmpty(l: StoredList)
    ensures Merge(l, EmptyBody()) == l
  {
  }

  /** Merging the same body twice is merging it once. */
  lemma MergeIdempotent(l: StoredList, body: ListBody)
    ensures Merge(Merge(l, body), body) == Merge(l, body)
  {
    var once := Merge(l, body);
    var twice := Merge(once, body);
    assert twice.items == once.items;
    assert twice.title == once.title && twice.ownerId == once.ownerId;
  }

  /** A merge keeps the stored strings trimmed. */
  lemma MergeKeepsTrimmed(l: StoredList, body: ListBody)
    requires ListTrimmed(l)
    ensures ListTrimmed(Merge(l, body))
  {
    var r := Merge(l, body);
    if body.items.Some? {
      forall i | 0 <= i < |r.items| ensures IsTrimmed(r.items[i].name) {
        assert r.items[i] == CastItem(body.items.value[i]);
      }
    }
  }

  /** Since the update runs no validator, it can store a title the schema
      would reject on create: any title of spaces only becomes empty. */
  lemma UpdateSkipsValidation(l: StoredList, t: string)
    requires forall i :: 0 <= i < |t| ==> IsSpace(t[i])
    ensures Merge(l, EmptyBody().(title := Some(t))).title == []
    ensures SaveList(AsDoc(Merge(l, EmptyBody().(title := Some(t))))).None?
  {
    AllSpaceTrimStart(t);
  }

  /** The stored collection. Mongo's generated identifiers are given to
      `Create` by its caller. */
  class ListService {
    var lists: map<Id, StoredList>

    /** Every stored list has passed through the `trim` setters. */
    predicate Valid()
      reads this
    {
      forall id :: id in lists ==> ListTrimmed(lists[id])
    }

    /** An empty collection. */
    constructor ()
      ensures lists == map[] && Valid()
    {
      lists := map[];
    }

    /** `listShoppingListsService`: every list. */
    method List() returns (all: map<Id, StoredList>)
      ensures all == lists
    {
      all := lists;
    }

    /** `createShoppingListService`: the list is saved under a fresh id and
        the call resolves `true`, or the schema rejects it and nothing is
        saved. It never resolves `false`. */
    method Create(details: ListBody, newId: Id) returns (outcome: Outcome<bool>)
      requires Valid() && newId !in lists
      modifies this
      ensures outcome != Resolved(false)
      ensures outcome.Resolved? <==> SaveList(CreateDoc(details)).Some?
      ensures outcome.Resolved? ==> lists == old(lists)[newId := SaveList(CreateDoc(details)).value]
      ensures outcome.Rejected? ==> lists == old(lists)
      ensures Valid()
    {
      var saved := SaveList(CreateDoc(details));
      if saved.None? {
        return Rejected;
      }
      SavedListTrimmed(CreateDoc(details));
      lists := lists[newId := saved.value];
      outcome := Resolved(true);
    }

    /** `getShoppingListService`: the list with that id, or nothing. */
    method Get(id: Id) returns (found: Option<StoredList>)
      ensures found.Some? <==> id in lists
      ensures found.Some? ==> found.value == lists[id]
    {
      if id in lists {
        found := Some(lists[id]);
      } else {
        found := None;
      }
    }

    /** `updateShoppingListService`: the merged list, stored and returned
        (`new: true`); an unknown id returns nothing and changes nothing. */
    method Update(id: Id, body: ListBody) returns (updated: Option<StoredList>)
      requires Valid()
      modifies this
      ensures updated.Some? <==> id in old(lists)
      ensures updated.Some? ==> updated.value == Merge(old(lists)[id], body) && lists == old(lists)[id := updated.value]
      ensures updated.None? ==> lists == old(lists)
      ensures Valid()
    {
      if id !in lists {
        return None;
      }
      var merged := Merge(lists[id], body);
      MergeKeepsTrimmed(lists[id], body);
      lists := lists[id := merged];
      updated := Some(merged);
    }

    /** `deleteShoppingListService`: the list with that id is removed and
        returned; an unknown id returns nothing and changes nothing. */
    method Delete(id: Id) returns (removed: Option<StoredList>)
      requires Valid()
      modifies this
      ensures removed.Some? <==> id in old(lists)
      ensures removed.Some? ==> removed.value == old(lists)[id]
      ensures id !in lists && lists == old(lists) - {id}
      ensures Valid()
    {
      if id !in lists {
        return None;
      }
      removed := Some(lists[id]);
      lists := lists - {id};
    }
  }
}
