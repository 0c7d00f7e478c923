/** The "add list" dialog: the default draft with the owner as its only
    member, the case-insensitive duplicate check on titles against every list
    of the store, and the draft and `validated` state that close and submit
    reset. */
module AddListModal {

  import opened Common
  import opened Lists
  import opened ShoppingListsContext

  /** The `maxLength` of the title input. */
  const MaxTitleLength := 20

  /** `defaultForm` for the given owner. The draft carries `listId: ""` but
      no `id`, so the list it becomes has no `id`. */
  function DefaultListDraft(ownerId: Id): (d: ShoppingList)
    ensures d.ownerId == ownerId && d.memberIds == [ownerId] && OwnerIsMember(d)
    ensures d.items == [] && d.archived == Some(false) && d.title == [] && d.id.None?
    ensures d.listId == Some([])
  {
    ShoppingList(None, Some([]), [], ownerId, [ownerId], [], Some(false))
  }

  /** `shoppingLists.some(list => list.title.toLowerCase() === title.toLowerCase())` */
  function TitleTaken(lists: seq<ShoppingList>, title: string): (r: bool)
    ensures r <==> exists i :: 0 <= i < |lists| && SameIgnoringCase(lists[i].title, title)
  {
    if lists == [] then false
    else if SameIgnoringCase(lists[0].title, title) then true
    else
      assert forall i :: 1 <= i < |lists| ==> lists[i] == lists[1..][i - 1];
      assert forall i :: 0 <= i < |lists| - 1 ==> lists[1..][i] == lists[i + 1];
      TitleTaken(lists[1..], title)
  }

  /** What the form accepts: a present title no list of the store has. */
  predicate FormValid(draft: ShoppingList, lists: seq<ShoppingList>)
  {
    |draft.title| != 0 && !TitleTaken(lists, draft.title)
  }

  /** The dialog is given the whole store, so a title used by a list the user
      cannot see still blocks the new list. */
  lemma HiddenTitleBlocks(lists: seq<ShoppingList>, userId: Id, draft: ShoppingList, other: ShoppingList)
    requires other in lists && !Visible(userId, other) && SameIgnoringCase(other.title, draft.title)
    ensures other !in ListsByUser(lists, userId)
    ensures !FormValid(draft, lists)
  {
    var i :| 0 <= i < |lists| && lists[i] == other;
  }

  /** A list added through the dialog, once stored, keeps its owner as a
      member and is not archived. */
  lemma AddedDraftOwnerIsMember(lists: seq<ShoppingList>, ownerId: Id, title: string)
    ensures
      var added := Appended(lists, DefaultListDraft(ownerId).(title := title));
      OwnerIsMember(added[|lists|]) && added[|lists|].archived == Some(false) &&
      added[|lists|] in ListsByUser(added, ownerId)
  {
  }

  /** Lists added through the dialog all have no `id`, so they share one:
      deleting by that absent id deletes all of them. */
  lemma AddedListsShareId(lists: seq<ShoppingList>, a: ShoppingList, b: ShoppingList)
    requires a.id.None? && b.id.None?
    ensures
      var added := Appended(Appended(lists, a), b);
      var after := Removed(added, a.id);
      WithArchivedDefault(a) !in after && WithArchivedDefault(b) !in after
  {
  }

  /** The delete dialog passes a list's `listId`, which is `""` for a list
      added through this dialog, while such a list has no `id`: deleting it
      through the dialog keeps it, and keeps every other list without an `id`
      too. */
  lemma DeleteDialogKeepsAddedList(lists: seq<ShoppingList>, ownerId: Id, title: string)
    ensures
      var a := DefaultListDraft(ownerId).(title := title);
      var added := Appended(lists, a);
      var after := Removed(added, a.listId);
      WithArchivedDefault(a) in after &&
      forall l :: l in added && l.id.None? ==> l in after
  {
  }

  /** The dialog's `formData` and `validated` state, for one owner. */
  class AddListForm {
    const ownerId: Id
    var formData: ShoppingList
    var validated: bool

    /** The title input takes at most twenty characters, and the draft stays
        the owner's. */
    predicate Valid()
      reads this
    {
      |formData.title| <= MaxTitleLength && formData == DefaultListDraft(ownerId).(title := formData.title)
    }

    constructor (ownerId: Id)
      ensures this.ownerId == ownerId && formData == DefaultListDraft(ownerId) && !validated && Valid()
    {
      this.ownerId := ownerId;
      formData := DefaultListDraft(ownerId);
      validated := false;
    }

    /** `setField("title", value)`; the input accepts at most twenty
        characters. */
    method SetTitle(title: string)
      requires Valid() && |title| <= MaxTitleLength
      modifies this
      ensures formData == old(formData).(title := title) && validated == old(validated) && Valid()
    {
      formData := formData.(title := title);
    }

    /** `handleClose`: the draft and `validated` are reset. */
    method Close()
      modifies this
      ensures formData == DefaultListDraft(ownerId) && !validated && Valid()
    {
      formData := DefaultListDraft(ownerId);
      validated := false;
    }

    /** `handleSubmit`: a rejected draft stays, with `validated` set; an
        accepted one is handed on as a copy and the form is reset. */
    method Submit(lists: seq<ShoppingList>) returns (added: Option<ShoppingList>)
      requires Valid()
      modifies this
      ensures added.Some? <==> FormValid(old(formData), lists)
      ensures added.Some? ==> added.value == old(formData) && formData == DefaultListDraft(ownerId) && !validated
      ensures added.None? ==> formData == old(formData) && validated
      ensures added.Some? ==> OwnerIsMember(added.value) && added.value.ownerId == ownerId && 0 < |added.value.title| <= MaxTitleLength
      ensures Valid()
    {
      validated := true;
      if !FormValid(formData, lists) {
        added := None;
        return;
      }
      added := Some(formData);
      formData := DefaultListDraft(ownerId);
      validated := false;
    }
  }
}
