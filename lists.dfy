/** The client-side records: shopping lists with their embedded items, the
    users shown beside them, and the item transformations that both the
    overview page and the detail page apply. */
module Lists {

  import opened Common
  import Seqs

  /** An item quantity as the client holds it: the empty field, a value that
      did not parse (`NaN`), or a number counted in tenths (the input's step
      is 0.1). */
  datatype Quantity = Blank | NotANumber | Tenths(tenths: int)

  /** An item as the client stores it. The overview page keys items by `id`,
      the detail page by `itemId`; either may be absent. `resolved` may be
      absent too, in which case it is falsy. */
  datatype Item = Item(
    id: Option<Id>,
    itemId: Option<Id>,
    name: string,
    quantity: Quantity,
    unit: string,
    resolved: Option<bool>)

  /** A shopping list as the client stores it. Lists added through the "add
      list" form carry no `id` but a `listId` field, which the delete dialog
      passes on; `archived` may be absent. */
  datatype ShoppingList = ShoppingList(
    id: Option<Id>,
    listId: Option<Id>,
    title: string,
    ownerId: Id,
    memberIds: seq<Id>,
    items: seq<Item>,
    archived: Option<bool>)

  /** A user as the client lists it. */
  datatype Person = Person(id: Id, name: string)

  /** JavaScript truthiness of an optional boolean. */
  predicate Truthy(b: Option<bool>)
  {
    b == Some(true)
  }

  // ---------------------------------------------------------------------------
  // Access predicates
  // ---------------------------------------------------------------------------

  /** `list.ownerId === userId` */
  predicate IsOwner(userId: Id, list: ShoppingList)
  {
    list.ownerId == userId
  }

  /** `list.memberIds.includes(userId)` */
  predicate IsMember(userId: Id, list: ShoppingList)
  {
    userId in list.memberIds
  }

  /** The membership invariant of the design: the owner is a member. */
  predicate OwnerIsMember(list: ShoppingList)
  {
    list.ownerId in list.memberIds
  }

  // ---------------------------------------------------------------------------
  // Item transformations
  // ---------------------------------------------------------------------------

  /** `{ ...item, resolved: !item.resolved }`: an absent value counts as false. */
  function Flip(it: Item): (r: Item)
    ensures r.resolved.Some?
    ensures Truthy(r.resolved) <==> !Truthy(it.resolved)
    ensures r.(resolved := it.resolved) == it
  {
    it.(resolved := Some(!Truthy(it.resolved)))
  }

  /** Which field an item handler compares with the given key. */
  datatype ItemKey = ById | ByItemId

  function KeyOf(it: Item, key: ItemKey): Option<Id>
  {
    match key
    case ById => it.id
    case ByItemId => it.itemId
  }

  /** `items.map(item => item.<key> === k ? { ...item, resolved: !item.resolved } : item)` */
  function Toggled(items: seq<Item>, key: ItemKey, k: Option<Id>): (r: seq<Item>)
    ensures |r| == |items|
    ensures forall i :: 0 <= i < |items| ==>
      r[i] == if KeyOf(items[i], key) == k then Flip(items[i]) else items[i]
  {
    Seqs.Map((it: Item) => if KeyOf(it, key) == k then Flip(it) else it, items)
  }

  /** `items.filter(item => item.<key> !== k)` */
  function WithoutKey(items: seq<Item>, key: ItemKey, k: Option<Id>): (r: seq<Item>)
    ensures forall it :: it in r <==> it in items && KeyOf(it, key) != k
    ensures forall i :: 0 <= i < |r| ==> KeyOf(r[i], key) != k
  {
    Seqs.Filter((it: Item) => KeyOf(it, key) != k, items)
  }

  /** Toggling the same key twice restores the items, provided every matching
      item had a boolean `resolved`. */
  lemma ToggledTwice(items: seq<Item>, key: ItemKey, k: Option<Id>)
    requires forall i :: 0 <= i < |items| && KeyOf(items[i], key) == k ==> items[i].resolved.Some?
    ensures Toggled(Toggled(items, key, k), key, k) == items
  {
    var once := Toggled(items, key, k);
    var twice := Toggled(once, key, k);
    forall i | 0 <= i < |items| ensures twice[i] == items[i] {
      assert KeyOf(once[i], key) == KeyOf(items[i], key);
      if KeyOf(items[i], key) == k {
        assert once[i] == Flip(items[i]);
        var b := items[i].resolved.value;
        assert Truthy(items[i].resolved) == b;
      }
    }
  }

  /** An item with no `resolved` value is not restored by two toggles: it
      ends with `resolved` explicitly false. */
  lemma ToggledTwiceUndefined(it: Item, key: ItemKey)
    requires it.resolved == None
    ensures Toggled(Toggled([it], key, KeyOf(it, key)), key, KeyOf(it, key)) == [it.(resolved := Some(false))]
  {
    var once := Toggled([it], key, KeyOf(it, key));
    assert once[0] == Flip(it);
  }

  /** The items that remain keep their order. */
  lemma WithoutKeyKeepsOrder(items: seq<Item>, key: ItemKey, k: Option<Id>)
    ensures Seqs.IsSubsequence(WithoutKey(items, key, k), items)
    ensures forall it :: multiset(WithoutKey(items, key, k))[it] == if KeyOf(it, key) == k then 0 else multiset(items)[it]
  {
    Seqs.FilterIsSubsequence((it: Item) => KeyOf(it, key) != k, items);
    Seqs.FilterMultiset((it: Item) => KeyOf(it, key) != k, items);
  }

  /** Appending an item whose key no existing item shares, then removing that
      key, restores the items. */
  lemma AppendThenRemove(items: seq<Item>, it: Item, key: ItemKey)
    requires forall i :: 0 <= i < |items| ==> KeyOf(items[i], key) != KeyOf(it, key)
    ensures WithoutKey(items + [it], key, KeyOf(it, key)) == items
  {
    var p := (x: Item) => KeyOf(x, key) != KeyOf(it, key);
    Seqs.FilterAppend(p, items, [it]);
    Seqs.FilterKeepsAll(p, items);
    assert Seqs.Filter(p, [it]) == [];
  }

  /** Removing a key no item has changes nothing. */
  lemma WithoutAbsentKey(items: seq<Item>, key: ItemKey, k: Option<Id>)
    requires forall i :: 0 <= i < |items| ==> KeyOf(items[i], key) != k
    ensures WithoutKey(items, key, k) == items
  {
    Seqs.FilterKeepsAll((it: Item) => KeyOf(it, key) != k, items);
  }

  /** Toggling a key no item has changes nothing. */
  lemma ToggledAbsentKey(items: seq<Item>, key: ItemKey, k: Option<Id>)
    requires forall i :: 0 <= i < |items| ==> KeyOf(items[i], key) != k
    ensures Toggled(items, key, k) == items
  {
  }
}
