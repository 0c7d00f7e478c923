/** The detail page: it holds one shopping list that the header, the member
    list and the item list all read and replace, and it shows them only to a
    member of that list. */
module Detail {

  import opened Common
  import opened Lists
  import opened ShoppingListsContext
  import opened ItemList
  import opened MemberList
  import opened ListHeader

  /** `shoppingList.memberIds.includes(currentUser.id)` */
  predicate Authorized(userId: Id, list: ShoppingList)
  {
    userId in list.memberIds
  }

  /** An owner who is not among the members is turned away here, although the
      list store counts the list among the owner's lists. */
  lemma OwnerOutsideMembers(lists: seq<ShoppingList>, l: ShoppingList)
    requires l in lists && l.ownerId !in l.memberIds
    ensures !Authorized(l.ownerId, l)
    ensures l in ListsByUser(lists, l.ownerId)
  {
  }

  /** Where the owner is a member, the page admits exactly the users whose
      list overview shows the list. */
  lemma AuthorizedIsVisible(userId: Id, l: ShoppingList)
    requires OwnerIsMember(l)
    ensures Authorized(userId, l) <==> Visible(userId, l)
  {
  }

  /** No member edit that the page offers takes the owner out of the list's
      members. */
  lemma OfferedEditsKeepOwner(userId: Id, l: ShoppingList, newIds: seq<Id>, member: Person, itemId: Option<Id>, item: Item)
    requires OwnerIsMember(l)
    ensures OwnerIsMember(MembersInvited(l, newIds))
    ensures RemoveOffered(userId, l, member.id) ==> OwnerIsMember(MemberDeleted(l, member))
    ensures LeaveOffered(userId, l) ==> OwnerIsMember(ListLeft(l, userId))
    ensures OwnerIsMember(ResolvedStatusChanged(l, itemId)) && OwnerIsMember(ItemAdded(l, item)) && OwnerIsMember(ItemDeleted(l, item))
  {
    assert l.ownerId in MembersInvited(l, newIds).memberIds[..|l.memberIds|];
  }

  /** The page's `shoppingList` state for the signed-in user. Every child
      handler is reachable only while the user is authorized, and each
      replaces the whole list. */
  class DetailPage {
    const currentUserId: Id
    var shoppingList: ShoppingList

    constructor (currentUserId: Id, initial: ShoppingList)
      ensures this.currentUserId == currentUserId && shoppingList == initial
    {
      this.currentUserId := currentUserId;
      shoppingList := initial;
    }

    predicate IsAuthorized()
      reads this
    {
      Authorized(currentUserId, shoppingList)
    }

    /** The header's leave control. The user stops being authorized at once,
        so no child handler is reachable afterwards. */
    method LeaveList()
      requires IsAuthorized() && LeaveOffered(currentUserId, shoppingList)
      modifies this
      ensures shoppingList == ListLeft(old(shoppingList), currentUserId)
      ensures !IsAuthorized()
    {
      shoppingList := ListLeft(shoppingList, currentUserId);
    }

    /** The header's title editing, which touches only the header's own state. */
    method SubmitTitle(editor: TitleEditor, input: string)
      requires IsAuthorized() && EditOffered(currentUserId, shoppingList) && editor.isEditing
      requires |input| <= MaxTitleLength
      modifies editor
      ensures shoppingList == old(shoppingList)
      ensures TitleAccepted(input) ==> editor.edit == input && !editor.isEditing
      ensures !TitleAccepted(input) ==> editor.edit == old(editor.edit) && editor.isEditing
    {
      editor.Submit(input);
    }

    /** The member list's invite dialog, shown to the owner. */
    method InviteMembers(newIds: seq<Id>)
      requires IsAuthorized() && InviteOffered(currentUserId, shoppingList)
      modifies this
      ensures shoppingList == MembersInvited(old(shoppingList), newIds)
      ensures IsAuthorized()
    {
      shoppingList := MembersInvited(shoppingList, newIds);
    }

    /** The member list's remove control, shown to the owner beside others. */
    method DeleteMember(member: Person)
      requires IsAuthorized() && RemoveOffered(currentUserId, shoppingList, member.id)
      modifies this
      ensures shoppingList == MemberDeleted(old(shoppingList), member)
      ensures IsAuthorized()
    {
      shoppingList := MemberDeleted(shoppingList, member);
    }

    /** The item list's checkbox. */
    method ToggleItem(itemId: Option<Id>)
      requires IsAuthorized()
      modifies this
      ensures shoppingList == ResolvedStatusChanged(old(shoppingList), itemId)
      ensures IsAuthorized()
    {
      shoppingList := ResolvedStatusChanged(shoppingList, itemId);
    }

    /** The item list's add dialog. */
    method AddItem(item: Item)
      requires IsAuthorized()
      modifies this
      ensures shoppingList == ItemAdded(old(shoppingList), item)
      ensures IsAuthorized()
    {
      shoppingList := ItemAdded(shoppingList, item);
    }

    /** The item list's delete control. */
    method DeleteItem(item: Item)
      requires IsAuthorized()
      modifies this
      ensures shoppingList == ItemDeleted(old(shoppingList), item)
      ensures IsAuthorized()
    {
      shoppingList := ItemDeleted(shoppingList, item);
    }
  }
}
