/** The header of the detail page: leaving a list, which controls the current
    user is offered, and the view/edit state of the displayed title. */
module ListHeader {

  import opened Common
  import opened Lists

  /** `handleListLeft`: the current user's id leaves `memberIds`; nothing else
      changes. */
  function ListLeft(list: ShoppingList, currentUserId: Id): (r: ShoppingList)
    ensures r.(memberIds := list.memberIds) == list
    ensures currentUserId !in r.memberIds
    ensures forall id :: id != currentUserId ==> (id in r.memberIds <==> id in list.memberIds)
  {
    list.(memberIds := Without(list.memberIds, currentUserId))
  }

  /** The leave control is shown to everyone but the owner. */
  predicate LeaveOffered(currentUserId: Id, list: ShoppingList)
  {
    currentUserId != list.ownerId
  }

  /** The edit control (and, while editing, confirm and cancel) is shown to
      the owner only. */
  predicate EditOffered(currentUserId: Id, list: ShoppingList)
  {
    currentUserId == list.ownerId
  }

  /** Leaving through the offered control never removes the owner. */
  lemma LeaveKeepsOwner(currentUserId: Id, list: ShoppingList)
    requires LeaveOffered(currentUserId, list)
    ensures OwnerIsMember(ListLeft(list, currentUserId)) <==> OwnerIsMember(list)
  {
  }

  /** Nobody is offered both leaving and editing, and everybody one of them. */
  lemma LeaveOrEdit(currentUserId: Id, list: ShoppingList)
    ensures LeaveOffered(currentUserId, list) <==> !EditOffered(currentUserId, list)
  {
  }

  /** The `maxLength` of the title input. */
  const MaxTitleLength := 20

  /** The title the browser lets through on submit: the input is `required`,
      so an empty one blocks the submission. */
  predicate TitleAccepted(input: string)
  {
    input != []
  }

  /** The header's own state: whether the title is being edited, and the
      displayed title (`edit`). It starts from the list's title and is never
      written back into the list. */
  class TitleEditor {
    var isEditing: bool
    var edit: string

    constructor (title: string)
      ensures !isEditing && edit == title
    {
      isEditing := false;
      edit := title;
    }

    /** The pencil button, shown only while viewing. */
    method StartEditing()
      requires !isEditing
      modifies this
      ensures isEditing && edit == old(edit)
    {
      isEditing := true;
    }

    /** The cancel button: back to viewing, the displayed title unchanged. */
    method Cancel()
      requires isEditing
      modifies this
      ensures !isEditing && edit == old(edit)
    {
      isEditing := false;
    }

    /** `handleEdited`: an accepted input becomes the displayed title and the
        header returns to viewing; an empty input is stopped by the browser
        and changes nothing. The input takes at most twenty characters. */
    method Submit(input: string)
      requires isEditing && |input| <= MaxTitleLength
      modifies this
      ensures TitleAccepted(input) ==> !isEditing && edit == input
      ensures !TitleAccepted(input) ==> isEditing && edit == old(edit)
    {
      if !TitleAccepted(input) {
        return;
      }
      edit := input;
      isEditing := false;
    }
  }
}
