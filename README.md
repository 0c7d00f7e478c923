# Shopping list: a Dafny model

This project models the core of a shopping-list web application. The
client side keeps shopping lists in a store, shows them on an overview page
and a detail page, and drives them through a handful of forms. The server
side validates lists and users with document schemas and serves the lists
through a small create/read/update/delete service. The project proves
properties of that behaviour.

The model covers these parts:

- **The client list store** (`ShoppingListsContext`, class `ListStore`). The
  collection of lists is a `seq` field that each operation reassigns:
  lookups, archiving, replacement, appending and deletion. Each method is
  specified by a function of the old collection, and lemmas relate those
  functions to each other. Examples: archive-then-unarchive, the effect of
  an unknown id, deletion keeping the other lists in order.
- **The overview page** (`ShoppingListsRoute`). Its filters, and its item,
  archive, add and delete handlers, act on the store.
- **The detail page and its components** (`Detail`, `ListHeader`,
  `MemberList`, `ItemList`, `ResolvedStateChart`). The page keeps one list
  in its state. The components rewrite its members and its items; they
  decide which controls are offered and what the chart counts.
- **The forms** (`AddItemModal`, `AddListModal`, `InviteMemberModal`,
  `ResetPassword`). Their validity rules are modelled, with the state each
  one steps through (`formData`, `validated`, the selection, the request
  state) as classes.
- **The session** (`UserContext`): login and logout.
- **The server** (`ShoppingListSchema`, `ShoppingListService`,
  `ShoppingListController`, `UserSchema`). The schemas are modelled as a
  validation and normalisation function. The service is a class over a map
  from id to stored list. The controller maps each service outcome to an
  HTTP status.

Some behaviours of the application surface in the proofs:

- **Items have two keys.** The overview page keys items by `id`. The
  detail page keys them by `itemId`, and the add-item draft carries `id: ""`
  but no `itemId`. Both are `Option` in the model, and `===` on two absent
  values is true. So two items added through the form share the absent
  `itemId`. Deleting one deletes both, and toggling one toggles both
  (`ItemList.UnkeyedItemsGoTogether`).
- **Added lists have no id.** The add-list draft carries `listId: ""`, but
  not `id`. Every list added through the form therefore has an absent `id`,
  and deleting by that absent id deletes them all
  (`AddListModal.AddedListsShareId`). The delete dialog, however, passes a
  list's `listId`, not its `id`. For an added list that is `""`, which no
  added list has as its `id`, so the dialog deletes none of them
  (`AddListModal.DeleteDialogKeepsAddedList`).
- **Overview and detail check access differently.** The overview page shows
  a list to its owner or to a member. The detail page admits members only.
  So an owner who is not in `memberIds` sees the list on one page and gets
  "401" on the other (`Detail.OwnerOutsideMembers`).
- **Lists are updated differently on each side.** A client update replaces
  the whole list record. A server update is a per-field `$set`: it trims
  the strings but runs no validator. So it can store a title that creation
  would reject (`ShoppingListService.UpdateSkipsValidation`).
- **The reset code's length is only shown.** The reset page marks a code
  that is not six digits long as invalid. The browser's validity check does
  not enforce that length, so a shorter code is still sent
  (`ResetPassword.ShortCodeStillSent`).

Values are modelled as follows:

- A JavaScript `undefined` or `null` is `Option.None`. On the server's update path the two differ; see "## Left out".
- Quantities are integers counted in tenths. The quantity input's `step`
  is 0.1, so every accepted quantity is a whole number of tenths.
  `parseFloat` of something that is not a number is `NotANumber`, and the
  empty field is `Blank`.
- `toLowerCase` is applied to the ASCII letters only.
- The `\s` and `trim` whitespace set is that of JavaScript.

## Model

| member | source | states |
|---|---|---|
| Common.Trim | server/src/shoppingList/shoppingListModel.js:26-30 | the trimmed string has no whitespace at either end and is no longer than the input |
| Common.TrimCutsSpaces | server/src/shoppingList/shoppingListModel.js:26-30 | the trimmed string is the slice of the input after its leading whitespace, and everything before and after that slice is whitespace; with Trim's contract this fixes the result |
| Common.TrimmedIsFixed | server/src/shoppingList/shoppingListModel.js:26-30 | a string `trim` leaves unchanged is exactly one with no whitespace at either end |
| Common.TrimIdempotent | server/src/shoppingList/shoppingListModel.js:26-30 | trimming twice gives the same string as trimming once |
| Common.LowerTrimCommute | server/src/user/userModel.js:15-16 | lower-casing then trimming gives the same string as trimming then lower-casing |
| Common.Without | client/src/components/MemberList.js:21 | removing an id leaves exactly the other ids |
| Common.WithoutKeepsOrder | client/src/components/MemberList.js:21 | the other ids keep their order, and each keeps as many occurrences as it had |
| Common.AllOrNothing | server/src/shoppingList/shoppingListModel.js:44 | the mapped sequence exists exactly when every element maps, and is then pointwise the mapped elements |
| Lists.Flip | client/src/routes/ShoppingLists.js:44 | the flipped item has a boolean `resolved` whose truth is the negation of the old one; nothing else changes |
| Lists.Toggled | client/src/routes/ShoppingLists.js:43-45 | same length; items with the key flipped, the others unchanged |
| Lists.WithoutKey | client/src/routes/ShoppingLists.js:55 | an item remains exactly when it was there and its key differs |
| Lists.ToggledTwice | client/src/routes/ShoppingLists.js:43-45 | toggling twice restores the items when each matching item had a boolean `resolved` |
| Lists.ToggledTwiceUndefined | client/src/routes/ShoppingLists.js:44 | an item with no `resolved` comes back from two toggles as `false`, not as it was |
| Lists.WithoutKeyKeepsOrder | client/src/routes/ShoppingLists.js:55 | the remaining items keep their order, each with as many occurrences as before |
| Lists.AppendThenRemove | client/src/components/ItemList.js:29-39 | appending an item with a fresh key and then removing that key restores the items |
| Lists.WithoutAbsentKey | client/src/routes/ShoppingLists.js:55 | removing a key no item has changes nothing |
| Lists.ToggledAbsentKey | client/src/routes/ShoppingLists.js:43-45 | toggling a key no item has changes nothing |
| ShoppingListsContext.FindById | client/src/context/ShoppingListsContext.js:24-26 | nothing is found exactly when no list has the id; otherwise the first list with the id is found |
| ShoppingListsContext.ListsByUser | client/src/context/ShoppingListsContext.js:29-33 | a list is returned exactly when it is in the store and the user owns it or is among its members |
| ShoppingListsContext.Visible | client/src/context/ShoppingListsContext.js:31 | a user sees a list they own or are a member of (its properties are stated by ListsByUser and Detail.AuthorizedIsVisible) |
| ShoppingListsContext.ListsByUserKeepsOrder | client/src/context/ShoppingListsContext.js:29-33 | the user's lists keep the store's order, each with as many occurrences as in the store |
| ShoppingListsContext.SetArchived | client/src/context/ShoppingListsContext.js:36-51 | same length; every list with the id gets `archived` set, the others are unchanged |
| ShoppingListsContext.Replaced | client/src/context/ShoppingListsContext.js:54-60 | same length; every list with the updated list's id is replaced by it, the others are unchanged |
| ShoppingListsContext.WithArchivedDefault | client/src/context/ShoppingListsContext.js:65-68 | an absent `archived` becomes `false`; a present one is kept and nothing else changes |
| ShoppingListsContext.Appended | client/src/context/ShoppingListsContext.js:63-70 | the old lists come first, followed by the new list with `archived` defaulted |
| ShoppingListsContext.Removed | client/src/context/ShoppingListsContext.js:73-77 | a list remains exactly when it was there and its id differs |
| ShoppingListsContext.ArchiveThenUnarchive | client/src/context/ShoppingListsContext.js:36-51 | archiving then unarchiving is unarchiving, and leaves every list with the id explicitly not archived |
| ShoppingListsContext.UnknownIdChangesNothing | client/src/context/ShoppingListsContext.js:36-60 | archiving, unarchiving or replacing by an id no list has changes nothing |
| ShoppingListsContext.ArchiveThenView | client/src/context/ShoppingListsContext.js:29-42 | an archived list stays among its user's lists, marked archived |
| ShoppingListsContext.RemovedKeepsOthers | client/src/context/ShoppingListsContext.js:73-77 | after deletion no list has the id, the others keep their order and their number of occurrences, and an unknown id changes nothing |
| ShoppingListsContext.RemovedIdempotent | client/src/context/ShoppingListsContext.js:73-77 | deleting twice is the same as deleting once |
| ShoppingListsContext.ListStore.constructor | client/src/context/ShoppingListsContext.js:15-16 | the store starts from its seed collection |
| ShoppingListsContext.ListStore.ArchiveList | client/src/context/ShoppingListsContext.js:36-42 | the new collection is the old one with every list with the id archived |
| ShoppingListsContext.ListStore.UnarchiveList | client/src/context/ShoppingListsContext.js:45-51 | the new collection is the old one with every list with the id unarchived |
| ShoppingListsContext.ListStore.UpdateList | client/src/context/ShoppingListsContext.js:54-60 | the new collection is the old one with every list with the id replaced |
| ShoppingListsContext.ListStore.AddList | client/src/context/ShoppingListsContext.js:63-70 | the new collection is the old one followed by the new list with `archived` defaulted |
| ShoppingListsContext.ListStore.DeleteList | client/src/context/ShoppingListsContext.js:73-77 | the new collection is the old one without the lists with the id |
| ShoppingListsRoute.FilteredLists | client/src/routes/ShoppingLists.js:34-36 | with the switch on, every list; otherwise exactly the lists not archived, each as often as in the input, in their order |
| ShoppingListsRoute.ShownLists | client/src/routes/ShoppingLists.js:31-36 | a list is shown exactly when it is in the store, visible to the user, and shown archived or not archived |
| ShoppingListsRoute.OwnerControlsOffered | client/src/routes/ShoppingLists.js:87-89 | the delete and archive controls are offered to the list's owner only |
| ShoppingListsRoute.ActiveViewWithinFullView | client/src/routes/ShoppingLists.js:31-36 | the lists shown with the switch off are the lists shown with it on that are not archived |
| ShoppingListsRoute.ArchivedListHidden | client/src/routes/ShoppingLists.js:34-36 | once archived, a list disappears from the default view and stays in the full one |
| ShoppingListsRoute.ItemResolvedLists | client/src/routes/ShoppingLists.js:39-48 | an unknown list changes nothing; otherwise every list with the id becomes the first such list with its matching items toggled, and the others are unchanged |
| ShoppingListsRoute.ItemDeletedLists | client/src/routes/ShoppingLists.js:51-57 | an unknown list changes nothing; otherwise every list with the id becomes the first such list without its matching items, and the others are unchanged |
| ShoppingListsRoute.ReplacedBySelf | client/src/context/ShoppingListsContext.js:54-60 | replacing the only list with an id by itself changes nothing |
| ShoppingListsRoute.ReplacedTwice | client/src/context/ShoppingListsContext.js:54-60 | two updates with the same id leave what the second alone leaves |
| ShoppingListsRoute.FindFirst | client/src/context/ShoppingListsContext.js:24-26 | the lookup finds the first list with the id |
| ShoppingListsRoute.FindAfterReplaced | client/src/context/ShoppingListsContext.js:24-26 | after an update, the lookup by that id finds the update |
| ShoppingListsRoute.ItemResolvedTwice | client/src/routes/ShoppingLists.js:39-48 | toggling the same item twice restores the store when the list id is unique and the items had a boolean `resolved` |
| ShoppingListsRoute.UnknownListUnchanged | client/src/routes/ShoppingLists.js:41 | item toggles and deletions on a list not in the store change nothing |
| ShoppingListsRoute.ArchiveToggledLists | client/src/routes/ShoppingLists.js:67-74 | every list with the id gets the opposite of the first such list's archived state; an unknown id changes nothing |
| ShoppingListsRoute.HandleItemResolved | client/src/routes/ShoppingLists.js:39-48 | the store becomes the item-toggled collection |
| ShoppingListsRoute.HandleItemDelete | client/src/routes/ShoppingLists.js:51-57 | the store becomes the item-deleted collection |
| ShoppingListsRoute.HandleArchive | client/src/routes/ShoppingLists.js:67-74 | the store becomes the archive-toggled collection |
| ShoppingListsRoute.HandleListAdd | client/src/routes/ShoppingLists.js:77-79 | the store gains the new list at the end |
| ShoppingListsRoute.HandleListDelete | client/src/routes/ShoppingLists.js:60-64 | the store loses the lists with the id |
| ShoppingListsRoute.DeleteDialogSubmit | client/src/components/DeleteListModal.js:10-16 | the store loses the lists whose `id` equals the dialog's list's `listId` |
| ItemList.FilteredItems | client/src/components/ItemList.js:17-18 | with the switch on, every item; otherwise exactly the unresolved items, each as often as in the input, in their order |
| ItemList.ResolvedStatusChanged | client/src/components/ItemList.js:21-27 | only the items change; items with the `itemId` flip `resolved`, the others are unchanged |
| ItemList.ItemAdded | client/src/components/ItemList.js:29-34 | only the items change; the new item is appended |
| ItemList.ItemDeleted | client/src/components/ItemList.js:36-39 | only the items change; an item remains exactly when its `itemId` differs |
| ItemList.ItemDeletedKeepsOrder | client/src/components/ItemList.js:36-39 | the remaining items keep their order, and each item with another `itemId` remains as often as before |
| ItemList.ResolvedStatusTwice | client/src/components/ItemList.js:21-27 | toggling twice restores the list when the matching items had a boolean `resolved` |
| ItemList.AddThenDelete | client/src/components/ItemList.js:29-39 | adding an item with a fresh `itemId` and deleting it restores the list |
| ItemList.UnkeyedItemsGoTogether | client/src/components/ItemList.js:23 | two items without `itemId` are deleted together and toggled together |
| MemberList.MembersInvited | client/src/components/MemberList.js:13-18 | only the members change; the new ids are appended in order |
| MemberList.MemberDeleted | client/src/components/MemberList.js:20-24 | only the members change; an id remains exactly when it differs from the member's, with all its occurrences, in order |
| MemberList.ListedMembers | client/src/components/MemberList.js:62-63 | a user is listed exactly when their id is among the members, as often as in `users` and in the order of `users` |
| MemberList.InviteOffered | client/src/components/MemberList.js:45 | the invite control is offered to the owner only |
| MemberList.RemoveOffered | client/src/components/MemberList.js:77 | the remove control is offered to the owner, beside every member but the owner (RemoveOfferedKeepsOwner relies on this) |
| MemberList.RemoveOfferedKeepsOwner | client/src/components/MemberList.js:77 | a removal the page offers never takes the owner out of the members |
| MemberList.WithoutEach | client/src/components/MemberList.js:21 | an id remains exactly when it is in none of the removed ids |
| MemberList.WithoutEachAppended | client/src/components/MemberList.js:13-24 | removing the ids of the appended part, none of them members before, restores the members |
| MemberList.InviteThenRemoveEach | client/src/components/MemberList.js:13-24 | inviting ids that were not members and removing each again restores the members |
| MemberList.MembersDeleted | client/src/components/MemberList.js:20-24 | deleting several members leaves exactly the ids none of them has |
| MemberList.InviteThenDeleteMembers | client/src/components/MemberList.js:13-24 | inviting users and deleting each of them again restores the list |
| MemberList.InviteDeleteStep | client/src/components/MemberList.js:20-24 | deleting users whose ids make up the appended part restores the prefix |
| ListHeader.ListLeft | client/src/components/ListHeader.js:14-18 | only the members change; the current user is no longer a member and every other id keeps its membership |
| ListHeader.LeaveKeepsOwner | client/src/components/ListHeader.js:86 | leaving, which only a non-owner is offered, keeps the owner a member exactly when the owner was one |
| ListHeader.LeaveOrEdit | client/src/components/ListHeader.js:54-95 | a user is offered leaving exactly when not offered editing |
| ListHeader.LeaveOffered | client/src/components/ListHeader.js:86 | the leave control is offered to everyone but the owner |
| ListHeader.EditOffered | client/src/components/ListHeader.js:54 | the edit control is offered to the owner only |
| ListHeader.TitleAccepted | client/src/components/ListHeader.js:48 | the `required` title input accepts a non-empty value only |
| ListHeader.TitleEditor.constructor | client/src/components/ListHeader.js:8-9 | not editing, the shown title is the list's |
| ListHeader.TitleEditor.StartEditing | client/src/components/ListHeader.js:59 | now editing; the title is unchanged |
| ListHeader.TitleEditor.Cancel | client/src/components/ListHeader.js:75 | editing stops; the title is unchanged |
| ListHeader.TitleEditor.Submit | client/src/components/ListHeader.js:27-31 | for an input of at most 20 characters, a non-empty title replaces the shown one and editing stops; an empty one changes nothing |
| InviteMemberModal.SelectionToggled | client/src/components/InviteMemberModal.js:15-21 | the user's membership in the selection flips, every other user's is kept, a new one goes at the end, a selected one is filtered out leaving the others in order, and no id repeats |
| InviteMemberModal.WithoutDistinct | client/src/components/InviteMemberModal.js:17 | removing an id keeps a selection without repeats |
| InviteMemberModal.SubsequenceDistinct | client/src/components/InviteMemberModal.js:17 | an ordered part of a sequence without repeats has none |
| InviteMemberModal.SubsequenceIn | client/src/components/InviteMemberModal.js:17 | every element of an ordered part is in the whole |
| InviteMemberModal.SelectionToggledTwice | client/src/components/InviteMemberModal.js:15-21 | selecting a user twice restores the selection's members, and the selection itself when the user was not selected |
| InviteMemberModal.AvailableUsers | client/src/components/InviteMemberModal.js:24-28 | a user is offered exactly when they are neither the owner nor a member, as often as in `users` and in the order of `users` |
| InviteMemberModal.SubmitEnabled | client/src/components/InviteMemberModal.js:87 | the invite button is enabled only for a non-empty selection |
| InviteMemberModal.InviteSelection.constructor | client/src/components/InviteMemberModal.js:7 | the selection starts empty |
| InviteMemberModal.InviteSelection.Toggle | client/src/components/InviteMemberModal.js:15-21 | the selection becomes the toggled selection |
| InviteMemberModal.InviteSelection.Close | client/src/components/InviteMemberModal.js:9-12 | the selection is emptied and the submit button disabled |
| InviteMemberModal.InviteSelection.Submit | client/src/components/InviteMemberModal.js:31-38 | the selected ids are handed on and the selection is emptied |
| AddItemModal.DefaultItemDraft | client/src/components/AddItemModal.js:5-11 | empty name and quantity, no unit, not resolved, `id` empty, no `itemId` |
| AddItemModal.FindSameName | client/src/components/AddItemModal.js:57-59 | nothing is found exactly when no item's name equals the input ignoring case; otherwise a listed item with that name |
| AddItemModal.IsDuplicateName | client/src/components/AddItemModal.js:57-60 | the name is a duplicate exactly when FindSameName finds a listed item with it, ignoring case |
| AddItemModal.ShowNatLength | client/src/components/AddItemModal.js:96 | a number prints in at most k digits exactly when it is below ten to the k |
| AddItemModal.QuantityValidRange | client/src/components/AddItemModal.js:99-106 | a quantity is accepted exactly when it is at least 0.1 and prints in at most seven characters |
| AddItemModal.QuantityInvalid | client/src/components/AddItemModal.js:102-106 | a quantity is flagged when it is missing, not a number, below 0.1, or printed in more than seven characters (QuantityValidRange gives its closed form) |
| AddItemModal.TeaspoonIsTablespoon | client/src/components/AddItemModal.js:122-139 | "tablespoon" delivers the teaspoon code; "tbsp" cannot be chosen |
| AddItemModal.IsUnitCode | client/src/components/AddItemModal.js:122-139 | the units the select can deliver are exactly the option values |
| AddItemModal.FormValid | client/src/components/AddItemModal.js:31 | the browser accepts the form when the name is present and no duplicate and the quantity is not flagged |
| AddItemModal.AcceptedDraft | client/src/components/AddItemModal.js:31 | an accepted draft has a name no listed item shares ignoring case, and a quantity of at least 0.1 |
| AddItemModal.DefaultDraftRejected | client/src/components/AddItemModal.js:5-11 | the empty draft is never accepted |
| AddItemModal.AddItemForm.constructor | client/src/components/AddItemModal.js:5-14 | the form starts from the empty draft, not validated |
| AddItemModal.AddItemForm.SetName | client/src/components/AddItemModal.js:21-23 | only the name changes |
| AddItemModal.AddItemForm.SetQuantity | client/src/components/AddItemModal.js:85-93 | the quantity becomes the parsed number, or not-a-number |
| AddItemModal.AddItemForm.SetUnit | client/src/components/AddItemModal.js:21-23 | only the unit changes |
| AddItemModal.AddItemForm.Submit | client/src/components/AddItemModal.js:26-38 | an item is handed on exactly when the draft is accepted, and the form resets; otherwise it is only validated |
| AddListModal.DefaultListDraft | client/src/components/AddListModal.js:5-12 | an empty title, owned by and listing only the current user, no items, not archived, `listId` empty and no `id` |
| AddListModal.TitleTaken | client/src/components/AddListModal.js:64-67 | a title is taken exactly when some list has it, ignoring case |
| AddListModal.FormValid | client/src/components/AddListModal.js:64-73 | the browser accepts the form when the title is present and no list of the store has it, ignoring case |
| AddListModal.HiddenTitleBlocks | client/src/components/AddListModal.js:64-73 | a list the user cannot see still blocks its title |
| AddListModal.AddedDraftOwnerIsMember | client/src/components/AddListModal.js:5-12 | an added draft is its owner's, is not archived, and shows among the owner's lists |
| AddListModal.AddedListsShareId | client/src/components/AddListModal.js:6 | deleting by the id of one added list deletes every added list |
| AddListModal.DeleteDialogKeepsAddedList | client/src/components/DeleteListModal.js:14 | deleting an added list through the dialog, by its `listId` of `""`, keeps it and every other list without an `id` |
| AddListModal.AddListForm.constructor | client/src/components/AddListModal.js:14-15 | the form starts from the owner's empty draft, not validated |
| AddListModal.AddListForm.SetTitle | client/src/components/AddListModal.js:24-26 | only the title changes |
| AddListModal.AddListForm.Close | client/src/components/AddListModal.js:17-21 | the form resets |
| AddListModal.AddListForm.Submit | client/src/components/AddListModal.js:29-45 | a list is handed on exactly when the draft is accepted, and the form resets; the list is the owner's, with a title of 1 to 20 characters |
| Detail.OwnerOutsideMembers | client/src/routes/Detail.js:9 | an owner outside `memberIds` is refused by the detail page yet shown the list on the overview |
| Detail.Authorized | client/src/routes/Detail.js:9 | the detail page admits a user exactly when their id is among the members |
| Detail.AuthorizedIsVisible | client/src/routes/Detail.js:9 | when the owner is a member, both pages admit the same users |
| Detail.OfferedEditsKeepOwner | client/src/routes/Detail.js:13-30 | every edit the page offers keeps the owner a member |
| Detail.DetailPage.constructor | client/src/routes/Detail.js:8 | the page holds the user and the seed list |
| Detail.DetailPage.LeaveList | client/src/components/ListHeader.js:14-18 | the list is the one the user left, and the user is no longer admitted |
| Detail.DetailPage.SubmitTitle | client/src/components/ListHeader.js:27-31 | the header's title changes, the page's list does not |
| Detail.DetailPage.InviteMembers | client/src/components/MemberList.js:13-18 | the list gains the invited ids and the owner stays admitted |
| Detail.DetailPage.DeleteMember | client/src/components/MemberList.js:20-24 | the list loses the member and the owner stays admitted |
| Detail.DetailPage.ToggleItem | client/src/components/ItemList.js:21-27 | the list's matching items flip and the user stays admitted |
| Detail.DetailPage.AddItem | client/src/components/ItemList.js:29-34 | the list gains the item and the user stays admitted |
| Detail.DetailPage.DeleteItem | client/src/components/ItemList.js:36-39 | the list loses the matching items and the user stays admitted |
| ResolvedStateChart.ResolvedCount | client/src/components/ResolvedStateChart.js:13 | at most the number of items; zero exactly when no item is resolved `true`, all of them exactly when every item is |
| ResolvedStateChart.UnresolvedCount | client/src/components/ResolvedStateChart.js:14 | at most the number of items; zero exactly when no item is resolved `false`, all of them exactly when every item is |
| ResolvedStateChart.CountsStep | client/src/components/ResolvedStateChart.js:13-14 | both counts are zero for no items, and an appended item adds one to the resolved count exactly when it is resolved `true` and one to the unresolved count exactly when it is resolved `false`, which fixes both counts for every list |
| ResolvedStateChart.CountsAddUp | client/src/components/ResolvedStateChart.js:13-14 | the two counts never exceed the items, and add up to them when every item has a boolean `resolved` |
| ResolvedStateChart.UndefinedCountsNowhere | client/src/components/ResolvedStateChart.js:13-14 | an item with no `resolved` is in neither count |
| ResolvedStateChart.NoDataBranch | client/src/components/ResolvedStateChart.js:45-68 | with no items both counts are zero; with items, all resolved either way, the chart has something to draw |
| ResolvedStateChart.HasChartData | client/src/components/ResolvedStateChart.js:45 | the chart is drawn exactly when the list has items |
| ResetPassword.Digits | client/src/routes/ResetPassword.js:152 | only digits; every digit of the input as many times as it occurs there, and nothing else; in the input's order |
| ResetPassword.SanitiseCode | client/src/routes/ResetPassword.js:152 | the first six digits of the input, or all of them when fewer |
| ResetPassword.SanitiseIdempotent | client/src/routes/ResetPassword.js:152 | sanitising a sanitised code changes nothing |
| ResetPassword.SanitiseKeepsCode | client/src/routes/ResetPassword.js:152 | a code of at most six digits is kept as typed |
| ResetPassword.DefaultResetDraft | client/src/routes/ResetPassword.js:10-14 | the three fields start empty |
| ResetPassword.CheckValidity | client/src/routes/ResetPassword.js:49 | the browser lets the form through when the three `required` fields are filled |
| ResetPassword.CodeFlagged | client/src/routes/ResetPassword.js:158-160 | the code input is marked invalid once validated unless it has six characters |
| ResetPassword.SendsOnSubmit | client/src/routes/ResetPassword.js:49-64 | a submission goes on to the verify request exactly when the form passes the browser and the passwords match |
| ResetPassword.IsCodeInput | client/src/routes/ResetPassword.js:152 | what the code input can hold after sanitising: at most six digits, kept as they are by SanitiseKeepsCode |
| ResetPassword.ShortCodeStillSent | client/src/routes/ResetPassword.js:46-64 | every filled-in draft with matching passwords and a code not six characters long is flagged once validated and is still sent |
| ResetPassword.MessageOr | client/src/routes/ResetPassword.js:82 | the server's message when it has one, the fallback text otherwise |
| ResetPassword.FailureMessage | client/src/routes/ResetPassword.js:80-131 | an error message: the network text for a failed request, the server's message or the fallback otherwise |
| ResetPassword.ResetForm.constructor | client/src/routes/ResetPassword.js:10-24 | empty fields, not validated, inactive, no message |
| ResetPassword.ResetForm.SetCode | client/src/routes/ResetPassword.js:150-154 | the code becomes the sanitised input |
| ResetPassword.ResetForm.SetNewPassword | client/src/routes/ResetPassword.js:176-180 | only the new password changes |
| ResetPassword.ResetForm.SetConfirmPassword | client/src/routes/ResetPassword.js:207-211 | only the confirmation changes |
| ResetPassword.ResetForm.Submit | client/src/routes/ResetPassword.js:43-64 | the form is validated; the verify request is sent exactly when the three fields are filled and the passwords match; a mismatch shows its message |
| ResetPassword.ResetForm.OnVerifyReply | client/src/routes/ResetPassword.js:66-84 | the reset request follows exactly when verification succeeded; otherwise the call failed with the invalid-code or network message |
| ResetPassword.ResetForm.OnResetReply | client/src/routes/ResetPassword.js:86-131 | success clears the form and shows the success message; failure keeps the form and shows the reset or network message |
| UserContext.Session.constructor | client/src/context/UserContext.js:13-14 | nobody is signed in |
| UserContext.Session.Login | client/src/context/UserContext.js:17-20 | the session holds the user and the token |
| UserContext.Session.Logout | client/src/context/UserContext.js:23-26 | nobody is signed in |
| UserContext.LoginThenLogout | client/src/context/UserContext.js:13-26 | a login followed by a logout leaves the session as it starts |
| ShoppingListSchema.SaveItem | server/src/shoppingList/shoppingListModel.js:3-23 | an item is saved exactly when its trimmed name is non-empty and it has a quantity; the name is stored trimmed, the other fields as given |
| ShoppingListSchema.SaveItems | server/src/shoppingList/shoppingListModel.js:44 | the items are saved exactly when each passes the item schema, each as that schema saves it |
| ShoppingListSchema.SaveList | server/src/shoppingList/shoppingListModel.js:25-47 | a list is saved exactly when its trimmed title is non-empty, owner and members are given and every item passes; the title is stored trimmed |
| ShoppingListSchema.SavedListTrimmed | server/src/shoppingList/shoppingListModel.js:25-47 | what is saved has a non-empty trimmed title, non-empty trimmed item names, and `archived` stays absent when not given |
| ShoppingListSchema.SaveListIdempotent | server/src/shoppingList/shoppingListModel.js:25-47 | saving a saved list again gives the same list |
| ShoppingListSchema.ResaveItems | server/src/shoppingList/shoppingListModel.js:3-8 | items with trimmed non-empty names pass the item schema unchanged |
| ShoppingListSchema.ItemAsDoc | server/src/shoppingList/shoppingListModel.js:3-23 | a stored item read back has every field present |
| ShoppingListSchema.AsDoc | server/src/shoppingList/shoppingListModel.js:25-47 | a stored list read back has every field present |
| ShoppingListSchema.BlankTitleRejected | server/src/shoppingList/shoppingListModel.js:26-30 | a title of whitespace only is rejected |
| ShoppingListSchema.AllSpaceTrimStart | server/src/shoppingList/shoppingListModel.js:29 | trimming a string of whitespace only leaves nothing |
| ShoppingListService.CreateDoc | server/src/shoppingList/shoppingListService.js:24-30 | title, owner and members come from the details, `archived` is false, items are empty |
| ShoppingListService.Merge | server/src/shoppingList/shoppingListService.js:62-66 | each field the body gives replaces the stored one (strings trimmed), each absent field is kept |
| ShoppingListService.MergeEmpty | server/src/shoppingList/shoppingListService.js:62-66 | an empty body changes nothing |
| ShoppingListService.MergeIdempotent | server/src/shoppingList/shoppingListService.js:62-66 | applying the same update twice is applying it once |
| ShoppingListService.MergeKeepsTrimmed | server/src/shoppingList/shoppingListService.js:62-66 | an update keeps the stored strings trimmed |
| ShoppingListService.UpdateSkipsValidation | server/src/shoppingList/shoppingListService.js:62-66 | an update with any whitespace-only title stores an empty title, which creation would reject |
| ShoppingListService.ListService.constructor | server/src/shoppingList/shoppingListModel.js:49 | an empty collection |
| ShoppingListService.ListService.List | server/src/shoppingList/shoppingListService.js:5-18 | every stored list |
| ShoppingListService.ListService.Create | server/src/shoppingList/shoppingListService.js:20-40 | never resolves `false`; resolves exactly when the schema accepts the document, which is then stored under the new id; otherwise nothing changes |
| ShoppingListService.ListService.Get | server/src/shoppingList/shoppingListService.js:42-55 | the list with the id exactly when there is one |
| ShoppingListService.ListService.Update | server/src/shoppingList/shoppingListService.js:57-74 | for a known id the merged list is stored and returned; otherwise nothing changes |
| ShoppingListService.ListService.Delete | server/src/shoppingList/shoppingListService.js:76-89 | the list with the id is removed and returned; an unknown id changes nothing |
| ShoppingListController.ListDetails | server/src/shoppingList/shoppingListController.js:14-18 | the body with the caller as owner and only member |
| ShoppingListController.CreateStatus | server/src/shoppingList/shoppingListController.js:22-30 | 200 exactly for `true`, 400 exactly for `false`, 500 exactly for a rejection |
| ShoppingListController.FoundStatus | server/src/shoppingList/shoppingListController.js:39-47 | 200 exactly for a found list, 404 exactly for none, 500 exactly for a rejection |
| ShoppingListController.CreateNever400 | server/src/shoppingList/shoppingListController.js:22-26 | since the service never resolves `false`, creation never answers 400 |
| ShoppingListController.CreateController | server/src/shoppingList/shoppingListController.js:8-31 | 200 exactly when the title is non-empty once trimmed, storing the trimmed title owned by the caller; otherwise 500 and nothing changes |
| ShoppingListController.GetController | server/src/shoppingList/shoppingListController.js:33-48 | 200 with the list exactly when it exists, otherwise 404 |
| ShoppingListController.UpdateController | server/src/shoppingList/shoppingListController.js:50-66 | 200 with the merged list exactly when the id is known, otherwise 404 and nothing changes |
| ShoppingListController.DeleteController | server/src/shoppingList/shoppingListController.js:68-83 | 200 exactly when the id was known; afterwards no list has it |
| ShoppingListController.ListController | server/src/shoppingList/shoppingListController.js:3-6 | every stored list |
| UserSchema.NormaliseEmail | server/src/user/userModel.js:15-16 | the normalised e-mail is no longer than the input and has no whitespace at either end |
| UserSchema.NormaliseIdempotent | server/src/user/userModel.js:15-16 | normalising twice is normalising once, in either order of the setters |
| UserSchema.SplitHasShape | server/src/user/userModel.js:18 | three non-empty runs without whitespace joined by `@` and `.` match the pattern |
| UserSchema.ShapeSplits | server/src/user/userModel.js:18 | every match of the pattern is such a joining |
| UserSchema.EmailShape | server/src/user/userModel.js:18 | the pattern `/^\S+@\S+\.\S+$/` read on indices: no whitespace, an `@` not first, a later `.` neither right after it nor last (SplitHasShape and ShapeSplits prove the reading) |
| UserSchema.EmailValid | server/src/user/userModel.js:11-18 | after trimming and lower-casing, the e-mail is present, at most 60 characters long and of the pattern's shape |
| UserSchema.SaveUser | server/src/user/userModel.js:5-32 | a user is saved exactly when the trimmed name is non-empty, the normalised e-mail is valid and the password has at least six characters; the reset fields start empty |
| UserSchema.SavedUserNormalised | server/src/user/userModel.js:6-24 | a saved user's name and e-mail are already normalised, and the e-mail has 1 to 60 characters and the right shape |
| UserSchema.InsertUser | server/src/user/userModel.js:14 | rejected exactly when the e-mail is taken; otherwise appended, keeping e-mails unique |
| UserSchema.CaseAndSpacesCollide | server/src/user/userModel.js:14-16 | an e-mail that differs from a stored one only in case or surrounding spaces is taken |

## Left out

- Rendering: JSX layout, styling, icons, colours, animation, the chart's labels, and the visual side of "shown" and "hidden". The model states which lists, items, members and controls are offered, not how they look.
- The Czech texts of the language switch. Only the English texts are modelled.
- Network and asynchrony. `fetch`, the JSON bodies and `await` are left out. The replies to the reset page's two requests are parameters, with a thrown request or an unreadable body folded into one failure case. React's batching of state updates is not modelled: every setter takes effect at once.
- Timers and navigation: the redirect to login after a successful reset, `navigate` to the detail page, and the e-mail taken from the router's location state.
- Floating point. Quantities are whole tenths; server quantities are `real`. Numbers large enough for their decimal form to switch to exponent notation (1e21 and above) are not modelled.
- Mongoose internals. Casting errors are not modelled: a malformed id answers 500 in the application and "not found" here. Neither are the `timestamps`, the generation of `_id`, which `Create` takes as a parameter, or the database's own failures, apart from the rejection path the schema gives. The item subdocuments' `_id` is not modelled.
- AddItemModal.AddItemForm.SetQuantity: the "Long" custom-validity flag that the quantity input sets on blur is modelled as part of the form's validity rule, as if every change were followed by a blur.
- AddItemModal.AddItemForm.SetName: the input's `maxLength` of 20 is a precondition on typing, not a runtime check. The same holds for `AddListModal.AddListForm.SetTitle`.
- ListHeader.TitleEditor.Submit: the title input's `maxLength` of 20 is likewise a precondition on the submitted input (and on `Detail.DetailPage.SubmitTitle`), not a runtime check.
- The add-item dialog's close button only hides the dialog and keeps the draft. Showing and hiding dialogs is not modelled.
- The confirmation dialogs DeleteItemModal, DeleteMemberModal and LeaveListModal are not modelled; the handlers they call are. Of DeleteListModal only its submission is modelled (`ShoppingListsRoute.DeleteDialogSubmit`): it passes the list's `listId` (DeleteListModal.js:14), not its `id`. A list added through the form carries `listId: ""`, so deleting it through the dialog calls `deleteList("")`, which keeps every list without an `id` (`AddListModal.DeleteDialogKeepsAddedList`). The seed lists come from `mockData.json`, which is not part of this model; their `listId` is left unconstrained. If a seed list had no `listId`, the dialog would call `deleteList(undefined)` and delete every list added through the form.
- AddListModal.DefaultListDraft: the overview page passes the add-list form a `currentUserId` prop (ShoppingLists.js:222), while the form reads `currentUser.id` when it renders (AddListModal.js:8). As written, `currentUser` is undefined there. The overview page always renders the form (ShoppingLists.js:217-223), and the form builds `defaultForm` in its body, so the overview page itself throws a TypeError on its first render, not only when the dialog opens. The model gives the form its owner id directly, as the intended prop would.
- ShoppingListService.Merge: a field sent as `null` in the update body (`{"title": null}`, `{"items": null}`) is stored as `null` by `$set`, since no validator runs. The model reads both `null` and a missing field as absent, so it keeps the old value instead. Stored fields are never `null` in the model.
- ShoppingListService.Merge: every item in an update body has a `name` and a `quantity`. The real `$set` runs no validators, so it can store an item that lacks either one; the model cannot express such a body.
- ShoppingListsContext.ListStore.GetAllLists, GetListById and GetListsByUser carry no contracts of their own. They return `lists`, `FindById(lists, ·)` and `ListsByUser(lists, ·)`, and those functions carry the properties.
- The third-party services and the remaining pages, which sit outside the core: the user service and controller, the e-mail service, the authentication middleware, the login, registration and forgot-password pages, and the language and mode contexts. The caller's identity reaches the controller as a parameter.
- UserSchema.SaveUser: lengths are counted in Unicode code points, because Dafny strings are sequences of them. JavaScript's `.length`, Mongoose's `minlength`/`maxlength` and HTML's `maxLength` count UTF-16 code units. So the schema, given a raw password of three characters outside the Basic Multilingual Plane (length 6 in UTF-16), saves it, while the model rejects it. In the application this does not arise for the password: server/src/user/userService.js:26-36 stores the bcrypt hash, 60 characters long, so `minlength: 6` never rejects a user there. The same holds for the 60-character limit in `UserSchema.EmailValid`, and for the `maxLength` preconditions of `AddItemModal.AddItemForm.SetName`, `AddListModal.AddListForm.SetTitle` and `ListHeader.TitleEditor.Submit`.
- UserSchema.EmailValid: `toLowerCase` and `\s` are modelled on ASCII letters and on JavaScript's whitespace set. Full Unicode case mapping is not.
- ResetPassword.ResetForm.Submit: the browser's `checkValidity` is modelled as the three `required` fields only.
- ResetPassword.ResetForm.SetNewPassword: the `maxLength` of 20 on both password inputs is not modelled; it limits typing only. The same holds for `ResetPassword.ResetForm.SetConfirmPassword`.
