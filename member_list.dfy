/** The member list of the detail page: inviting and removing members, who
    is listed, and which controls the current user is offered. */
module MemberList {

  import opened Common
  import opened Lists
  import Seqs

  /** `handleMembersInvited(newIds)`: the new ids follow the existing ones in
      their given order, with no deduplication. */
  function MembersInvited(list: ShoppingList, newIds: seq<Id>): (r: ShoppingList)
    ensures r.(memberIds := list.memberIds) == list
    ensures |r.memberIds| == |list.memberIds| + |newIds|
    ensures r.memberIds[..|list.memberIds|] == list.memberIds
    ensures r.memberIds[|list.memberIds|..] == newIds
  {
    list.(memberIds := list.memberIds + newIds)
  }

  /** `handleMemberDeleted(member)`: every occurrence of the member's id goes. */
  function MemberDeleted(list: ShoppingList, member: Person): (r: ShoppingList)
    ensures r.(memberIds := list.memberIds) == list
    ensures forall id :: id in r.memberIds <==> id in list.memberIds && id != member.id
    ensures Seqs.IsSubsequence(r.memberIds, list.memberIds)
    ensures forall id :: multiset(r.memberIds)[id] == if id == member.id then 0 else multiset(list.memberIds)[id]
  {
    WithoutKeepsOrder(list.memberIds, member.id);
    list.(memberIds := Without(list.memberIds, member.id))
  }

  /** The invite control is shown to the owner only. */
  predicate InviteOffered(currentUserId: Id, list: ShoppingList)
  {
    currentUserId == list.ownerId
  }

  /** The remove control is shown to the owner, and never beside the owner. */
  predicate RemoveOffered(currentUserId: Id, list: ShoppingList, target: Id)
  {
    currentUserId == list.ownerId && target != list.ownerId
  }

  /** `users.map(user => memberIds.includes(user.id) && ...)`: the users that
      are listed, in the order of `users`. */
  function ListedMembers(users: seq<Person>, list: ShoppingList): (r: seq<Person>)
    ensures forall u :: u in r <==> u in users && u.id in list.memberIds
    ensures Seqs.IsSubsequence(r, users)
    ensures forall u :: multiset(r)[u] == if u.id in list.memberIds then multiset(users)[u] else 0
  {
    Seqs.FilterIsSubsequence((u: Person) => u.id in list.memberIds, users);
    Seqs.FilterMultiset((u: Person) => u.id in list.memberIds, users);
    Seqs.Filter((u: Person) => u.id in list.memberIds, users)
  }

  /** A removal that the page offers keeps the owner's membership as it was. */
  lemma RemoveOfferedKeepsOwner(currentUserId: Id, list: ShoppingList, member: Person)
    requires RemoveOffered(currentUserId, list, member.id)
    ensures MemberDeleted(list, member).ownerId == list.ownerId
    ensures OwnerIsMember(list) ==> OwnerIsMember(MemberDeleted(list, member))
  {
  }

  /** Removing each of `xs` in turn. */
  function WithoutEach(ids: seq<Id>, xs: seq<Id>): (r: seq<Id>)
    ensures forall y :: y in r <==> y in ids && y !in xs
    decreases |xs|
  {
    if xs == [] then ids else WithoutEach(Without(ids, xs[0]), xs[1..])
  }

  /** Removing ids that `m` does not hold from `m + t`, where `t` holds only
      such ids, gives back `m`. */
  lemma {:induction false} WithoutEachAppended(m: seq<Id>, t: seq<Id>, xs: seq<Id>)
    requires forall x :: x in xs ==> x !in m
    requires forall y :: y in t ==> y in xs
    ensures WithoutEach(m + t, xs) == m
    decreases |xs|
  {
    if xs == [] {
      Seqs.HeadIn(t);
      assert m + t == m;
    } else {
      var x := xs[0];
      WithoutAppend(m, t, x);
      WithoutAbsent(m, x);
      var t' := Without(t, x);
      assert forall y :: y in t' ==> y in xs[1..] by {
        forall y | y in t' ensures y in xs[1..] {
          assert y in xs && y != x;
          var k :| 0 <= k < |xs| && xs[k] == y;
          assert k != 0;
          assert xs[1..][k - 1] == y;
        }
      }
      assert forall y :: y in xs[1..] ==> y in xs;
      WithoutEachAppended(m, t', xs[1..]);
    }
  }

  /** Inviting ids that are not yet members and then removing each of them
      restores the member ids. */
  lemma InviteThenRemoveEach(list: ShoppingList, newIds: seq<Id>)
    requires forall x :: x in newIds ==> x !in list.memberIds
    ensures WithoutEach(MembersInvited(list, newIds).memberIds, newIds) == list.memberIds
  {
    WithoutEachAppended(list.memberIds, newIds, newIds);
  }

  /** Removing the `Person`s one after another, as the page does. */
  function MembersDeleted(list: ShoppingList, members: seq<Person>): (r: ShoppingList)
    ensures r.(memberIds := list.memberIds) == list
    ensures forall id :: id in r.memberIds <==> id in list.memberIds && forall k :: 0 <= k < |members| ==> members[k].id != id
    decreases |members|
  {
    if members == [] then list
    else
      var r := MembersDeleted(MemberDeleted(list, members[0]), members[1..]);
      assert forall k :: 1 <= k < |members| ==> members[k] == members[1..][k - 1];
      r
  }

  /** Inviting users who are not yet members and then removing each of them
      restores the list. */
  lemma InviteThenDeleteMembers(list: ShoppingList, users: seq<Person>)
    requires forall k :: 0 <= k < |users| ==> users[k].id !in list.memberIds
    ensures MembersDeleted(MembersInvited(list, Seqs.Map((u: Person) => u.id, users)), users) == list
  {
    var ids := Seqs.Map((u: Person) => u.id, users);
    InviteDeleteStep(list.memberIds, ids, users, list);
  }

  lemma {:induction false} InviteDeleteStep(m: seq<Id>, t: seq<Id>, users: seq<Person>, list: ShoppingList)
    requires forall k :: 0 <= k < |users| ==> users[k].id !in m
    requires forall y :: y in t ==> exists k :: 0 <= k < |users| && users[k].id == y
    ensures MembersDeleted(list.(memberIds := m + t), users) == list.(memberIds := m)
    decreases |users|
  {
    if users == [] {
      Seqs.HeadIn(t);
      assert m + t == m;
    } else {
      var x := users[0].id;
      WithoutAppend(m, t, x);
      WithoutAbsent(m, x);
      var t' := Without(t, x);
      assert MemberDeleted(list.(memberIds := m + t), users[0]) == list.(memberIds := m + t');
      forall y | y in t' ensures exists k :: 0 <= k < |users[1..]| && users[1..][k].id == y {
        var k :| 0 <= k < |users| && users[k].id == y;
        assert k != 0;
        assert users[1..][k - 1].id == y;
      }
      InviteDeleteStep(m, t', users[1..], list);
    }
  }
}
