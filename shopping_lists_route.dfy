/** The overview page: which of the user's lists it shows, the owner-only
    controls, and the handlers that toggle or delete an item of a list, or
    archive and unarchive a list, through the list store. */
module ShoppingListsRoute {

  import opened Common
  import opened Lists
  import opened ShoppingListsContext
  import Seqs

  // ---------------------------------------------------------------------------
  // What the page shows
  // ---------------------------------------------------------------------------

  /** `showArchived ? userLists : userLists.filter(list => !list.archived)` */
  function FilteredLists(userLists: seq<ShoppingList>, showArchived: bool): (r: seq<ShoppingList>)
    ensures showArchived ==> r == userLists
    ensures !showArchived ==> forall l :: l in r <==> l in userLists && !Truthy(l.archived)
    ensures !showArchived ==> forall l :: multiset(r)[l] == if Truthy(l.archived) then 0 else multiset(userLists)[l]
    ensures Seqs.IsSubsequence(r, userLists)
  {
    if showArchived then
      Seqs.FilterKeepsAll((l: ShoppingList) => true, userLists);
      Seqs.FilterIsSubsequence((l: ShoppingList) => true, userLists);
      userLists
    else
      Seqs.FilterIsSubsequence((l: ShoppingList) => !Truthy(l.archived), userLists);
      Seqs.FilterMultiset((l: ShoppingList) => !Truthy(l.archived), userLists);
      Seqs.Filter((l: ShoppingList) => !Truthy(l.archived), userLists)
  }

  /** The lists the page shows to `userId`. */
  function ShownLists(lists: seq<ShoppingList>, userId: Id, showArchived: bool): (r: seq<ShoppingList>)
    ensures forall l :: l in r <==>
      l in lists && Visible(userId, l) && (showArchived || !Truthy(l.archived))
  {
    FilteredLists(ListsByUser(lists, userId), showArchived)
  }

  /** Hiding archived lists only ever removes lists from the view. */
  lemma ActiveViewWithinFullView(lists: seq<ShoppingList>, userId: Id)
    ensures forall l :: l in ShownLists(lists, userId, false) ==> l in ShownLists(lists, userId, true)
    ensures forall l :: l in ShownLists(lists, userId, true) && !Truthy(l.archived) ==> l in ShownLists(lists, userId, false)
  {
  }

  /** After archiving, the list is gone from the view without archived lists
      and, marked archived, still in the view with them. */
  lemma ArchivedListHidden(lists: seq<ShoppingList>, key: Option<Id>, userId: Id, l: ShoppingList)
    requires l in lists && l.id == key && Visible(userId, l)
    ensures forall m :: m in ShownLists(SetArchived(lists, key, true), userId, false) ==> m.id != key
    ensures l.(archived := Some(true)) in ShownLists(SetArchived(lists, key, true), userId, true)
  {
    ArchiveThenView(lists, key, userId, l);
  }

  /** `isOwner(list)`: the delete and archive controls are offered exactly
      when this holds. */
  predicate OwnerControlsOffered(currentUserId: Id, list: ShoppingList)
  {
    IsOwner(currentUserId, list)
  }

  // ---------------------------------------------------------------------------
  // The handlers, as functions of the store's collection
  // ---------------------------------------------------------------------------

  /** The collection after `handleItemResolved(listId, itemId)`: every list
      with that id is replaced by the first of them with its matching items
      toggled; an unknown list id changes nothing. */
  function ItemResolvedLists(lists: seq<ShoppingList>, listId: Option<Id>, itemId: Option<Id>): (r: seq<ShoppingList>)
    ensures FindById(lists, listId).None? ==> r == lists
    ensures |r| == |lists|
    ensures forall i :: 0 <= i < |lists| && lists[i].id != listId ==> r[i] == lists[i]
    ensures forall i :: 0 <= i < |lists| && lists[i].id == listId ==>
      var l := FindById(lists, listId).value;
      r[i] == l.(items := Toggled(l.items, ById, itemId))
  {
    match FindById(lists, listId)
    case None => lists
    case Some(l) => Replaced(lists, l.(items := Toggled(l.items, ById, itemId)))
  }

  /** The collection after `handleItemDelete(listId, itemId)`, in the same
      shape: the matching items are removed from the first list with that
      id, which then replaces every list with that id. */
  function ItemDeletedLists(lists: seq<ShoppingList>, listId: Option<Id>, itemId: Option<Id>): (r: seq<ShoppingList>)
    ensures FindById(lists, listId).None? ==> r == lists
    ensures |r| == |lists|
    ensures forall i :: 0 <= i < |lists| && lists[i].id != listId ==> r[i] == lists[i]
    ensures forall i :: 0 <= i < |lists| && lists[i].id == listId ==>
      var l := FindById(lists, listId).value;
      r[i] == l.(items := WithoutKey(l.items, ById, itemId))
  {
    match FindById(lists, listId)
    case None => lists
    case Some(l) => Replaced(lists, l.(items := WithoutKey(l.items, ById, itemId)))
  }

  /** At most one list in the collection has this id. */
  predicate UniqueId(lists: seq<ShoppingList>, key: Option<Id>)
  {
    forall i, j :: 0 <= i < j < |lists| && lists[i].id == key ==> lists[j].id != key
  }

  /** Replacing the only list with an id by its own value changes nothing. */
  lemma ReplacedBySelf(lists: seq<ShoppingList>, key: Option<Id>)
    requires UniqueId(lists, key) && FindById(lists, key).Some?
    ensures Replaced(lists, FindById(lists, key).value) == lists
  {
    var l := FindById(lists, key).value;
    var k :| 0 <= k < |lists| && lists[k] == l && lists[k].id == key;
    forall i | 0 <= i < |lists| && lists[i].id == key ensures i == k {
      assert !(i < k) && !(k < i);
    }
  }

  /** Replacing twice by records with the same id is replacing by the second. */
  lemma ReplacedTwice(lists: seq<ShoppingList>, a: ShoppingList, b: ShoppingList)
    requires a.id == b.id
    ensures Replaced(Replaced(lists, a), b) == Replaced(lists, b)
  {
    var once := Replaced(lists, a);
    assert forall i :: 0 <= i < |lists| ==> (once[i].id == b.id <==> lists[i].id == b.id);
  }

  /** A lookup finds the first list with the id. */
  lemma {:induction false} FindFirst(lists: seq<ShoppingList>, key: Option<Id>, k: nat)
    requires k < |lists| && lists[k].id == key
    requires forall j :: 0 <= j < k ==> lists[j].id != key
    ensures FindById(lists, key) == Some(lists[k])
  {
    if k > 0 {
      assert lists[0].id != key;
      assert forall j :: 0 <= j < k - 1 ==> lists[1..][j] == lists[j + 1];
      FindFirst(lists[1..], key, k - 1);
    }
  }

  /** After replacing the lists with an id, the replacement is what a lookup
      by that id finds. */
  lemma FindAfterReplaced(lists: seq<ShoppingList>, key: Option<Id>, l1: ShoppingList)
    requires FindById(lists, key).Some? && l1.id == key
    ensures FindById(Replaced(lists, l1), key) == Some(l1)
  {
    var once := Replaced(lists, l1);
    var l := FindById(lists, key).value;
    var k :| 0 <= k < |lists| && lists[k] == l && lists[k].id == key &&
             (forall j :: 0 <= j < k ==> lists[j].id != key);
    assert forall j :: 0 <= j < k ==> once[j].id != key;
    assert once[k] == l1;
    FindFirst(once, key, k);
  }

  /** Toggling the same item of the same list twice restores the collection,
      when only one list has that id and every matching item had a boolean
      `resolved`. */
  lemma ItemResolvedTwice(lists: seq<ShoppingList>, listId: Option<Id>, itemId: Option<Id>)
    requires UniqueId(lists, listId)
    requires forall l, it :: l in lists && l.id == listId && it in l.items && it.id == itemId ==> it.resolved.Some?
    ensures ItemResolvedLists(ItemResolvedLists(lists, listId, itemId), listId, itemId) == lists
  {
    if FindById(lists, listId).Some? {
      var l := FindById(lists, listId).value;
      var l1 := l.(items := Toggled(l.items, ById, itemId));
      var once := Replaced(lists, l1);
      assert ItemResolvedLists(lists, listId, itemId) == once;
      FindAfterReplaced(lists, listId, l1);
      forall i | 0 <= i < |l.items| && l.items[i].id == itemId ensures l.items[i].resolved.Some? {
        assert l.items[i] in l.items;
      }
      ToggledTwice(l.items, ById, itemId);
      assert l1.(items := Toggled(l1.items, ById, itemId)) == l;
      assert ItemResolvedLists(once, listId, itemId) == Replaced(once, l);
      ReplacedTwice(lists, l1, l);
      ReplacedBySelf(lists, listId);
    }
  }

  /** Toggling or deleting an item of a list that is not in the store leaves
      the store as it is. */
  lemma UnknownListUnchanged(lists: seq<ShoppingList>, listId: Option<Id>, itemId: Option<Id>)
    requires forall i :: 0 <= i < |lists| ==> lists[i].id != listId
    ensures ItemResolvedLists(lists, listId, itemId) == lists
    ensures ItemDeletedLists(lists, listId, itemId) == lists
  {
  }

  /** Whether `handleArchive` finds the list archived. */
  predicate FoundArchived(lists: seq<ShoppingList>, listId: Option<Id>)
  {
    var l := FindById(lists, listId);
    l.Some? && Truthy(l.value.archived)
  }

  /** `handleArchive`: unarchive when the first list with that id is archived,
      otherwise archive (an unknown id goes to `archiveList` and changes
      nothing). Whatever the first list's state, every list with that id gets
      the opposite value. */
  function ArchiveToggledLists(lists: seq<ShoppingList>, listId: Option<Id>): (r: seq<ShoppingList>)
    ensures FindById(lists, listId).None? ==> r == lists
    ensures |r| == |lists|
    ensures forall i :: 0 <= i < |lists| ==>
      r[i] == if lists[i].id == listId then lists[i].(archived := Some(!FoundArchived(lists, listId))) else lists[i]
  {
    if FoundArchived(lists, listId) then SetArchived(lists, listId, false)
    else SetArchived(lists, listId, true)
  }

  // ---------------------------------------------------------------------------
  // The handlers, as they drive the store
  // ---------------------------------------------------------------------------

  /** `handleItemResolved` */
  method HandleItemResolved(store: ListStore, listId: Option<Id>, itemId: Option<Id>)
    modifies store
    ensures store.lists == ItemResolvedLists(old(store.lists), listId, itemId)
  {
    var found := store.GetListById(listId);
    if found.None? {
      return;
    }
    var list := found.value;
    var updatedItems := Toggled(list.items, ById, itemId);
    store.UpdateList(list.(items := updatedItems));
  }

  /** `handleItemDelete` */
  method HandleItemDelete(store: ListStore, listId: Option<Id>, itemId: Option<Id>)
    modifies store
    ensures store.lists == ItemDeletedLists(old(store.lists), listId, itemId)
  {
    var found := store.GetListById(listId);
    if found.None? {
      return;
    }
    var list := found.value;
    var updatedItems := WithoutKey(list.items, ById, itemId);
    store.UpdateList(list.(items := updatedItems));
  }

  /** `handleArchive` */
  method HandleArchive(store: ListStore, listId: Option<Id>)
    modifies store
    ensures store.lists == ArchiveToggledLists(old(store.lists), listId)
  {
    var found := store.GetListById(listId);
    if found.Some? && Truthy(found.value.archived) {
      store.UnarchiveList(listId);
    } else {
      store.ArchiveList(listId);
    }
  }

  /** `handleListAdd` */
  method HandleListAdd(store: ListStore, newList: ShoppingList)
    modifies store
    ensures store.lists == Appended(old(store.lists), newList)
  {
    store.AddList(newList);
  }

  /** `handleListDelete` */
  method HandleListDelete(store: ListStore, listId: Option<Id>)
    modifies store
    ensures store.lists == Removed(old(store.lists), listId)
  {
    store.DeleteList(listId);
  }

  /** The delete dialog's submission: it hands the list's `listId`, not its
      `id`, to `handleListDelete`. */
  method DeleteDialogSubmit(store: ListStore, list: ShoppingList)
    modifies store
    ensures store.lists == Removed(old(store.lists), list.listId)
  {
    HandleListDelete(store, list.listId);
  }
}
