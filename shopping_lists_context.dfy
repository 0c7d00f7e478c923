/** The client's list store: the collection of shopping lists that the
    provider holds in its state, its three queries, and its five mutators,
    each of which replaces the whole collection by a map, a filter or an
    append of the previous one. */
module ShoppingListsContext {

  import opened Common
  import opened Lists
  import Seqs

  // ---------------------------------------------------------------------------
  // Queries
  // ---------------------------------------------------------------------------

  /** `lists.find(list => list.id === key)`: the first list with that id. */
  function FindById(lists: seq<ShoppingList>, key: Option<Id>): (r: Option<ShoppingList>)
    ensures r.None? <==> forall i :: 0 <= i < |lists| ==> lists[i].id != key
    ensures r.Some? ==>
      exists i :: 0 <= i < |lists| && lists[i] == r.value && lists[i].id == key &&
                  (forall j :: 0 <= j < i ==> lists[j].id != key)
  {
    if lists == [] then None
    else if lists[0].id == key then Some(lists[0])
    else
      var r := FindById(lists[1..], key);
      assert r.Some? ==> lists[1..] != [] && 0 < |lists|;
      if r.Some? then
        var i :| 0 <= i < |lists[1..]| && lists[1..][i] == r.value && lists[1..][i].id == key &&
                 (forall j :: 0 <= j < i ==> lists[1..][j].id != key);
        assert lists[i + 1] == r.value;
        assert forall j :: 0 <= j < i + 1 ==> lists[j].id != key by {
          forall j | 0 <= j < i + 1 ensures lists[j].id != key {
            if j > 0 { assert lists[j] == lists[1..][j - 1]; }
          }
        }
        r
      else
        assert forall i :: 1 <= i < |lists| ==> lists[i] == lists[1..][i - 1];
        r
  }

  /** The user's lists: those the user owns or is a member of. */
  predicate Visible(userId: Id, list: ShoppingList)
  {
    IsOwner(userId, list) || IsMember(userId, list)
  }

  /** `lists.filter(list => list.ownerId === userId || list.memberIds.includes(userId))` */
  function ListsByUser(lists: seq<ShoppingList>, userId: Id): (r: seq<ShoppingList>)
    ensures forall l :: l in r <==> l in lists && (l.ownerId == userId || userId in l.memberIds)
    ensures |r| <= |lists|
  {
    Seqs.Filter((l: ShoppingList) => Visible(userId, l), lists)
  }

  /** The user's lists are in store order. */
  lemma ListsByUserKeepsOrder(lists: seq<ShoppingList>, userId: Id)
    ensures Seqs.IsSubsequence(ListsByUser(lists, userId), lists)
    ensures forall l :: multiset(ListsByUser(lists, userId))[l] == if Visible(userId, l) then multiset(lists)[l] else 0
  {
    Seqs.FilterIsSubsequence((l: ShoppingList) => Visible(userId, l), lists);
    Seqs.FilterMultiset((l: ShoppingList) => Visible(userId, l), lists);
  }

  // ---------------------------------------------------------------------------
  // The collections the mutators compute
  // ---------------------------------------------------------------------------

  /** `lists.map(l => l.id === key ? { ...l, archived: v } : l)` */
  function SetArchived(lists: seq<ShoppingList>, key: Option<Id>, v: bool): (r: seq<ShoppingList>)
    ensures |r| == |lists|
    ensures forall i :: 0 <= i < |lists| ==>
      r[i] == if lists[i].id == key then lists[i].(archived := Some(v)) else lists[i]
  {
    Seqs.Map((l: ShoppingList) => if l.id == key then l.(archived := Some(v)) else l, lists)
  }

  /** `lists.map(list => list.id === updated.id ? updated : list)`: a
      wholesale replacement, no field merge. */
  function Replaced(lists: seq<ShoppingList>, updated: ShoppingList): (r: seq<ShoppingList>)
    ensures |r| == |lists|
    ensures forall i :: 0 <= i < |lists| ==>
      r[i] == if lists[i].id == updated.id then updated else lists[i]
  {
    Seqs.Map((l: ShoppingList) => if l.id == updated.id then updated else l, lists)
  }

  /** `{ ...newList, archived: newList.archived ?? false }` */
  function WithArchivedDefault(newList: ShoppingList): (r: ShoppingList)
    ensures r.archived.Some?
    ensures newList.archived.Some? ==> r == newList
    ensures newList.archived.None? ==> r == newList.(archived := Some(false))
  {
    match newList.archived
    case None => newList.(archived := Some(false))
    case Some(_) => newList
  }

  /** `[...lists, WithArchivedDefault(newList)]` */
  function Appended(lists: seq<ShoppingList>, newList: ShoppingList): (r: seq<ShoppingList>)
    ensures |r| == |lists| + 1
    ensures r[..|lists|] == lists
    ensures r[|lists|] == WithArchivedDefault(newList)
  {
    lists + [WithArchivedDefault(newList)]
  }

  /** `lists.filter(list => list.id !== key)` */
  function Removed(lists: seq<ShoppingList>, key: Option<Id>): (r: seq<ShoppingList>)
    ensures forall l :: l in r <==> l in lists && l.id != key
    ensures forall i :: 0 <= i < |r| ==> r[i].id != key
  {
    Seqs.Filter((l: ShoppingList) => l.id != key, lists)
  }

  // ---------------------------------------------------------------------------
  // Properties of the mutators
  // ---------------------------------------------------------------------------

  /** Archiving then unarchiving the same id ends with `archived` false on the
      lists with that id and every other field and list as before. */
  lemma ArchiveThenUnarchive(lists: seq<ShoppingList>, key: Option<Id>)
    ensures SetArchived(SetArchived(lists, key, true), key, false) == SetArchived(lists, key, false)
    ensures forall i :: 0 <= i < |lists| && lists[i].id == key ==>
      SetArchived(SetArchived(lists, key, true), key, false)[i] == lists[i].(archived := Some(false))
  {
    var once := SetArchived(lists, key, true);
    assert forall i :: 0 <= i < |lists| ==> once[i].id == lists[i].id;
  }

  /** Archiving, unarchiving or replacing by an unknown id changes nothing. */
  lemma UnknownIdChangesNothing(lists: seq<ShoppingList>, key: Option<Id>, v: bool, updated: ShoppingList)
    requires FindById(lists, key).None?
    ensures SetArchived(lists, key, v) == lists
    ensures updated.id == key ==> Replaced(lists, updated) == lists
  {
  }

  /** An archived list stays among the user's lists, marked archived, and
      every list with that id among them is archived. */
  lemma ArchiveThenView(lists: seq<ShoppingList>, key: Option<Id>, userId: Id, l: ShoppingList)
    requires l in lists && l.id == key && Visible(userId, l)
    ensures l.(archived := Some(true)) in ListsByUser(SetArchived(lists, key, true), userId)
    ensures forall m :: m in ListsByUser(SetArchived(lists, key, true), userId) && m.id == key ==> Truthy(m.archived)
  {
    var i :| 0 <= i < |lists| && lists[i] == l;
    assert SetArchived(lists, key, true)[i] == l.(archived := Some(true));
  }

  /** After a deletion no list has that id, and the others keep their order. */
  lemma RemovedKeepsOthers(lists: seq<ShoppingList>, key: Option<Id>)
    ensures FindById(Removed(lists, key), key).None?
    ensures Seqs.IsSubsequence(Removed(lists, key), lists)
    ensures FindById(lists, key).None? ==> Removed(lists, key) == lists
    ensures forall l :: multiset(Removed(lists, key))[l] == if l.id == key then 0 else multiset(lists)[l]
  {
    Seqs.FilterIsSubsequence((l: ShoppingList) => l.id != key, lists);
    Seqs.FilterMultiset((l: ShoppingList) => l.id != key, lists);
    if FindById(lists, key).None? {
      Seqs.FilterKeepsAll((l: ShoppingList) => l.id != key, lists);
    }
  }

  lemma RemovedIdempotent(lists: seq<ShoppingList>, key: Option<Id>)
    ensures Removed(Removed(lists, key), key) == Removed(lists, key)
  {
    Seqs.FilterIdempotent((l: ShoppingList) => l.id != key, lists);
  }

  // ---------------------------------------------------------------------------
  // The store
  // ---------------------------------------------------------------------------

  /** The provider's `shoppingLists` state and the operations on it. Each
      state setter is one atomic replacement of `lists`. */
  class ListStore {
    var lists: seq<ShoppingList>

    /** The provider starts from its seed collection. */
    constructor (initial: seq<ShoppingList>)
      ensures lists == initial
    {
      lists := initial;
    }

    /** `getAllLists`: the whole collection, with no filtering by user. */
    function GetAllLists(): seq<ShoppingList>
      reads this
    {
      lists
    }

    /** `getListById` */
    function GetListById(key: Option<Id>): Option<ShoppingList>
      reads this
    {
      FindById(lists, key)
    }

    /** `getListsByUser` */
    function GetListsByUser(userId: Id): seq<ShoppingList>
      reads this
    {
      ListsByUser(lists, userId)
    }

    /** `archiveList` */
    method ArchiveList(key: Option<Id>)
      modifies this
      ensures lists == SetArchived(old(lists), key, true)
    {
      lists := SetArchived(lists, key, true);
    }

    /** `unarchiveList` */
    method UnarchiveList(key: Option<Id>)
      modifies this
      ensures lists == SetArchived(old(lists), key, false)
    {
      lists := SetArchived(lists, key, false);
    }

    /** `updateList` */
    method UpdateList(updated: ShoppingList)
      modifies this
      ensures lists == Replaced(old(lists), updated)
    {
      lists := Replaced(lists, updated);
    }

    /** `addList` */
    method AddList(newList: ShoppingList)
      modifies this
      ensures lists == Appended(old(lists), newList)
    {
      lists := Appended(lists, newList);
    }

    /** `deleteList` */
    method DeleteList(key: Option<Id>)
      modifies this
      ensures lists == Removed(old(lists), key)
    {
      lists := Removed(lists, key);
    }
  }
}
