/** The server's list controller: the details a create passes on, and the
    status each handler answers with, by the service's result. */
module ShoppingListController {

  import opened Common
  import opened ShoppingListSchema
  import opened ShoppingListService

  /** `{ ...req.body, ownerId: userId, memberIds: [userId] }`: the
      authenticated user owns the new list and is its only member, whatever
      the body says. */
  function ListDetails(body: ListBody, userId: Id): (d: ListBody)
    ensures d.ownerId == Some(userId) && d.memberIds == Some([userId])
    ensures d.title == body.title && d.archived == body.archived && d.items == body.items
  {
    body.(ownerId := Some(userId), memberIds := Some([userId]))
  }

  /** The status of a create: success on a truthy result, 400 on a falsy one,
      500 on a rejection. */
  function CreateStatus(outcome: Outcome<bool>): (status: int)
    ensures outcome == Resolved(true) <==> status == 200
    ensures outcome == Resolved(false) <==> status == 400
    ensures outcome.Rejected? <==> status == 500
  {
    match outcome
    case Resolved(b) => if b then 200 else 400
    case Rejected => 500
  }

  /** The status of a get, update or delete: 200 when the service found the
      list, 404 when it returned nothing, 500 on a rejection. */
  function FoundStatus(outcome: Outcome<Option<StoredList>>): (status: int)
    ensures status == 200 <==> outcome.Resolved? && outcome.value.Some?
    ensures status == 404 <==> outcome.Resolved? && outcome.value.None?
    ensures status == 500 <==> outcome.Rejected?
  {
    match outcome
    case Resolved(found) => if found.Some? then 200 else 404
    case Rejected => 500
  }

  /** Since the service never resolves `false`, a create never answers 400. */
  lemma CreateNever400(outcome: Outcome<bool>)
    requires outcome != Resolved(false)
    ensures CreateStatus(outcome) == 200 || CreateStatus(outcome) == 500
  {
  }

  /** `createShoppingListController`: a created list belongs to the
      authenticated user, has that user as its only member, is not archived
      and has no items. */
  method CreateController(service: ListService, userId: Id, body: ListBody, newId: Id) returns (status: int)
    requires service.Valid() && newId !in service.lists
    modifies service
    ensures status == 200 || status == 500
    ensures status == 200 <==> TrimmedPresent(body.title)
    ensures status == 200 ==>
      (newId in service.lists &&
       service.lists == old(service.lists)[newId := service.lists[newId]] &&
       service.lists[newId] == StoredList(Trim(body.title.value), userId, [userId], Some(false), []))
    ensures status == 500 ==> service.lists == old(service.lists)
    ensures service.Valid()
  {
    var outcome := service.Create(ListDetails(body, userId), newId);
    status := CreateStatus(outcome);
  }

  /** `getShoppingListController` */
  method GetController(service: ListService, id: Id) returns (status: int, data: Option<StoredList>)
    ensures status == 200 <==> id in service.lists
    ensures status == 200 || status == 404
    ensures status == 200 ==> data == Some(service.lists[id])
    ensures status == 404 ==> data.None?
  {
    data := service.Get(id);
    status := FoundStatus(Resolved(data));
  }

  /** `updateShoppingListController` */
  method UpdateController(service: ListService, id: Id, body: ListBody) returns (status: int, data: Option<StoredList>)
    requires service.Valid()
    modifies service
    ensures status == 200 || status == 404
    ensures status == 200 <==> id in old(service.lists)
    ensures status == 200 ==> data == Some(Merge(old(service.lists)[id], body)) && service.lists == old(service.lists)[id := data.value]
    ensures status == 404 ==> service.lists == old(service.lists)
    ensures service.Valid()
  {
    data := service.Update(id, body);
    status := FoundStatus(Resolved(data));
  }

  /** `deleteShoppingListController` */
  method DeleteController(service: ListService, id: Id) returns (status: int)
    requires service.Valid()
    modifies service
    ensures status == 200 || status == 404
    ensures status == 200 <==> id in old(service.lists)
    ensures service.lists == old(service.lists) - {id}
    ensures service.Valid()
  {
    var removed := service.Delete(id);
    status := FoundStatus(Resolved(removed));
  }

  /** `listShoppingListsController`: every stored list. */
  method ListController(service: ListService) returns (data: map<Id, StoredList>)
    ensures data == service.lists
  {
    data := service.List();
  }
}
