/** The server's list and item schemas as validation and normalisation of a
    document before it is saved: required fields, trimmed strings, optional
    `unit`, `resolved` and `archived`, and items as an embedded sequence. */
module ShoppingListSchema {

  import opened Common
  import Seqs

  /** An item as it is stored. Quantities are JavaScript numbers. */
  datatype StoredItem = StoredItem(name: string, quantity: real, unit: Option<string>, resolved: Option<bool>)

  /** A list as it is stored. */
  datatype StoredList = StoredList(
    title: string,
    ownerId: Id,
    memberIds: seq<Id>,
    archived: Option<bool>,
    items: seq<StoredItem>)

  /** An item document before the schema has looked at it: any field may be
      missing. */
  datatype ItemDoc = ItemDoc(name: Option<string>, quantity: Option<real>, unit: Option<string>, resolved: Option<bool>)

  /** A list document before the schema has looked at it. */
  datatype ListDoc = ListDoc(
    title: Option<string>,
    ownerId: Option<Id>,
    memberIds: Option<seq<Id>>,
    archived: Option<bool>,
    items: seq<ItemDoc>)

  /** A required string field after its `trim` setter: present and not empty
      once trimmed. */
  predicate TrimmedPresent(s: Option<string>)
  {
    s.Some? && Trim(s.value) != []
  }

  /** The item schema: `name` is required and trimmed, `quantity` required,
      `unit` and `resolved` optional. */
  function SaveItem(d: ItemDoc): (r: Option<StoredItem>)
    ensures r.Some? <==> TrimmedPresent(d.name) && d.quantity.Some?
    ensures r.Some? ==> (r.value.name == Trim(d.name.value) && r.value.quantity == d.quantity.value &&
                         r.value.unit == d.unit && r.value.resolved == d.resolved)
  {
    if TrimmedPresent(d.name) && d.quantity.Some? then
      Some(StoredItem(Trim(d.name.value), d.quantity.value, d.unit, d.resolved))
    else None
  }

  /** `items: [listItemSchema]`: every embedded item passes the item schema,
      each saved as the item schema saves it alone, or the document is
      rejected. */
  function SaveItems(ds: seq<ItemDoc>): (r: Option<seq<StoredItem>>)
    ensures r.Some? <==> forall i :: 0 <= i < |ds| ==> SaveItem(ds[i]).Some?
    ensures r.Some? ==> |r.value| == |ds| && forall i :: 0 <= i < |ds| ==> Some(r.value[i]) == SaveItem(ds[i])
  {
    AllOrNothing(SaveItem, ds)
  }

  /** The list schema: `title` required and trimmed, `ownerId` and
      `memberIds` required, `archived` optional, items validated one by one. */
  function SaveList(d: ListDoc): (r: Option<StoredList>)
    ensures r.Some? <==>
      TrimmedPresent(d.title) && d.ownerId.Some? && d.memberIds.Some? && SaveItems(d.items).Some?
    ensures r.Some? ==>
      r.value.title == Trim(d.title.value) && r.value.ownerId == d.ownerId.value &&
      r.value.memberIds == d.memberIds.value && r.value.archived == d.archived &&
      Some(r.value.items) == SaveItems(d.items)
  {
    var items := SaveItems(d.items);
    if TrimmedPresent(d.title) && d.ownerId.Some? && d.memberIds.Some? && items.Some? then
      Some(StoredList(Trim(d.title.value), d.ownerId.value, d.memberIds.value, d.archived, items.value))
    else None
  }

  /** The strings the setters affect are trimmed in a list. */
  predicate ListTrimmed(l: StoredList)
  {
    IsTrimmed(l.title) && forall i :: 0 <= i < |l.items| ==> IsTrimmed(l.items[i].name)
  }

  /** What the schema saves has a non-empty trimmed title and trimmed item
      names, and `archived` may stay absent. */
  lemma SavedListTrimmed(d: ListDoc)
    requires SaveList(d).Some?
    ensures ListTrimmed(SaveList(d).value) && SaveList(d).value.title != []
    ensures forall i :: 0 <= i < |SaveList(d).value.items| ==> SaveList(d).value.items[i].name != []
    ensures d.archived.None? ==> SaveList(d).value.archived.None?
  {
    var l := SaveList(d).value;
    forall i | 0 <= i < |l.items| ensures IsTrimmed(l.items[i].name) && l.items[i].name != [] {
      assert Some(l.items[i]) == SaveItem(d.items[i]);
    }
  }

  /** Saving what was saved once saves it unchanged. */
  lemma SaveListIdempotent(d: ListDoc)
    requires SaveList(d).Some?
    ensures SaveList(AsDoc(SaveList(d).value)) == SaveList(d)
  {
    var l := SaveList(d).value;
    SavedListTrimmed(d);
    var d2 := AsDoc(l);
    TrimOfTrimmed(l.title);
    assert TrimmedPresent(d2.title);
    ResaveItems(l);
    assert SaveItems(d2.items) == Some(l.items);
  }

  /** Items with trimmed, non-empty names pass the item schema again as
      they are. */
  lemma ResaveItems(l: StoredList)
    requires forall i :: 0 <= i < |l.items| ==> IsTrimmed(l.items[i].name) && l.items[i].name != []
    ensures SaveItems(AsDoc(l).items) == Some(l.items)
  {
    var ds := AsDoc(l).items;
    forall i | 0 <= i < |ds| ensures SaveItem(ds[i]) == Some(l.items[i]) {
      TrimOfTrimmed(l.items[i].name);
    }
    var items := SaveItems(ds).value;
    assert items == l.items;
  }

  function ItemAsDoc(it: StoredItem): (d: ItemDoc)
    ensures d.name == Some(it.name) && d.quantity == Some(it.quantity) && d.unit == it.unit && d.resolved == it.resolved
  {
    ItemDoc(Some(it.name), Some(it.quantity), it.unit, it.resolved)
  }

  /** A stored list read back as a document with every field present. */
  function AsDoc(l: StoredList): (d: ListDoc)
    ensures d.title == Some(l.title) && d.ownerId == Some(l.ownerId) && d.memberIds == Some(l.memberIds)
    ensures d.archived == l.archived && |d.items| == |l.items|
    ensures forall i :: 0 <= i < |l.items| ==> d.items[i] == ItemAsDoc(l.items[i])
  {
    ListDoc(Some(l.title), Some(l.ownerId), Some(l.memberIds), l.archived, Seqs.Map(ItemAsDoc, l.items))
  }

  /** A title of spaces only is rejected, as a missing one is. */
  lemma BlankTitleRejected(d: ListDoc)
    requires d.title.Some? && forall i :: 0 <= i < |d.title.value| ==> IsSpace(d.title.value[i])
    ensures SaveList(d).None?
  {
    AllSpaceTrimStart(d.title.value);
  }

  lemma {:induction false} AllSpaceTrimStart(t: string)
    requires forall i :: 0 <= i < |t| ==> IsSpace(t[i])
    ensures TrimStart(t) == []
  {
    if t != [] {
      assert IsSpace(t[0]);
      AllSpaceTrimStart(t[1..]);
    }
  }
}
