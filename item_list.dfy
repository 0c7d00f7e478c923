/** The item list of the detail page: which items it shows, and the three
    handlers that toggle, append and delete items of the held list. Items are
    keyed here by `itemId`. */
module ItemList {

  import opened Common
  import opened Lists
  import Seqs

  /** `showResolved ? items : items.filter(item => !item.resolved)` */
  function FilteredItems(items: seq<Item>, showResolved: bool): (r: seq<Item>)
    ensures showResolved ==> r == items
    ensures !showResolved ==> forall it :: it in r <==> it in items && !Truthy(it.resolved)
    ensures !showResolved ==> forall it :: multiset(r)[it] == if Truthy(it.resolved) then 0 else multiset(items)[it]
    ensures Seqs.IsSubsequence(r, items)
  {
    if showResolved then
      Seqs.FilterKeepsAll((it: Item) => true, items);
      Seqs.FilterIsSubsequence((it: Item) => true, items);
      items
    else
      Seqs.FilterIsSubsequence((it: Item) => !Truthy(it.resolved), items);
      Seqs.FilterMultiset((it: Item) => !Truthy(it.resolved), items);
      Seqs.Filter((it: Item) => !Truthy(it.resolved), items)
  }

  /** `handleResolvedStatus(itemId)`: the held list with `resolved` flipped on
      the items whose `itemId` matches. */
  function ResolvedStatusChanged(list: ShoppingList, itemId: Option<Id>): (r: ShoppingList)
    ensures r.(items := list.items) == list
    ensures |r.items| == |list.items|
    ensures forall i :: 0 <= i < |list.items| ==>
      if list.items[i].itemId == itemId then
        r.items[i].(resolved := list.items[i].resolved) == list.items[i] &&
        (Truthy(r.items[i].resolved) <==> !Truthy(list.items[i].resolved))
      else r.items[i] == list.items[i]
  {
    list.(items := Toggled(list.items, ByItemId, itemId))
  }

  /** `handleItemAdded(item)`: the item is appended at the end. */
  function ItemAdded(list: ShoppingList, item: Item): (r: ShoppingList)
    ensures r.(items := list.items) == list
    ensures |r.items| == |list.items| + 1
    ensures r.items[..|list.items|] == list.items && r.items[|list.items|] == item
  {
    list.(items := list.items + [item])
  }

  /** `handleItemDeleted(item)`: every item with that item's `itemId` goes. */
  function ItemDeleted(list: ShoppingList, item: Item): (r: ShoppingList)
    ensures r.(items := list.items) == list
    ensures forall it :: it in r.items <==> it in list.items && it.itemId != item.itemId
  {
    list.(items := WithoutKey(list.items, ByItemId, item.itemId))
  }

  /** What remains after a deletion keeps its order, and every other item
      remains as often as before. */
  lemma ItemDeletedKeepsOrder(list: ShoppingList, item: Item)
    ensures Seqs.IsSubsequence(ItemDeleted(list, item).items, list.items)
    ensures forall it :: multiset(ItemDeleted(list, item).items)[it] == if it.itemId == item.itemId then 0 else multiset(list.items)[it]
  {
    WithoutKeyKeepsOrder(list.items, ByItemId, item.itemId);
  }

  /** Toggling the same `itemId` twice restores the list, when every matching
      item had a boolean `resolved`. */
  lemma ResolvedStatusTwice(list: ShoppingList, itemId: Option<Id>)
    requires forall i :: 0 <= i < |list.items| && list.items[i].itemId == itemId ==> list.items[i].resolved.Some?
    ensures ResolvedStatusChanged(ResolvedStatusChanged(list, itemId), itemId) == list
  {
    ToggledTwice(list.items, ByItemId, itemId);
  }

  /** Adding an item whose `itemId` no existing item shares, then deleting it,
      restores the list. */
  lemma AddThenDelete(list: ShoppingList, item: Item)
    requires forall i :: 0 <= i < |list.items| ==> list.items[i].itemId != item.itemId
    ensures ItemDeleted(ItemAdded(list, item), item) == list
  {
    AppendThenRemove(list.items, item, ByItemId);
  }

  /** Items that come from the "add item" form carry no `itemId`, so they all
      share the absent key: deleting one of them deletes every one of them,
      and toggling one toggles them all. */
  lemma UnkeyedItemsGoTogether(list: ShoppingList, a: Item, b: Item)
    requires a.itemId.None? && b.itemId.None?
    ensures
      var added := ItemAdded(ItemAdded(list, a), b);
      a !in ItemDeleted(added, b).items && b !in ItemDeleted(added, b).items
    ensures
      var added := ItemAdded(ItemAdded(list, a), b);
      var toggled := ResolvedStatusChanged(added, b.itemId);
      toggled.items[|list.items|] == Flip(a) && toggled.items[|list.items| + 1] == Flip(b)
  {
  }
}
