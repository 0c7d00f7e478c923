/** The invite dialog: who can be invited, and the selection of user ids
    that is toggled, submitted and cleared. */
module InviteMemberModal {

  import opened Common
  import opened Lists
  import Seqs

  /** No id occurs twice. */
  predicate Distinct(ids: seq<Id>)
  {
    forall i, j :: 0 <= i < j < |ids| ==> ids[i] != ids[j]
  }

  /** `handleUserSelection(userId)`: a selected id is removed, an unselected
      one appended. */
  function SelectionToggled(selected: seq<Id>, userId: Id): (r: seq<Id>)
    ensures userId in r <==> userId !in selected
    ensures forall x :: x != userId ==> (x in r <==> x in selected)
    ensures userId !in selected ==> r == selected + [userId]
    ensures userId in selected ==> r == Without(selected, userId)
    ensures Distinct(selected) ==> Distinct(r)
  {
    if userId in selected then
      WithoutDistinct(selected, userId);
      Without(selected, userId)
    else
      selected + [userId]
  }

  lemma {:induction false} WithoutDistinct(ids: seq<Id>, x: Id)
    ensures Distinct(ids) ==> Distinct(Without(ids, x))
  {
    if Distinct(ids) {
      WithoutKeepsOrder(ids, x);
      SubsequenceDistinct(Without(ids, x), ids);
    }
  }

  /** A subsequence of a duplicate-free sequence is duplicate-free. */
  lemma {:induction false} SubsequenceDistinct(sub: seq<Id>, s: seq<Id>)
    requires Seqs.IsSubsequence(sub, s) && Distinct(s)
    ensures Distinct(sub)
    decreases |s|
  {
    if sub != [] && s != [] {
      assert Distinct(s[1..]) by {
        forall i, j | 0 <= i < j < |s[1..]| ensures s[1..][i] != s[1..][j] {
          assert s[1..][i] == s[i + 1] && s[1..][j] == s[j + 1];
        }
      }
      if sub[0] == s[0] {
        SubsequenceDistinct(sub[1..], s[1..]);
        SubsequenceIn(sub[1..], s[1..]);
        forall j | 0 < j < |sub| ensures sub[0] != sub[j] {
          assert sub[j] == sub[1..][j - 1];
          assert sub[j] in s[1..];
          var k :| 0 <= k < |s[1..]| && s[1..][k] == sub[j];
          assert s[k + 1] == sub[j];
        }
        forall i, j | 0 <= i < j < |sub| ensures sub[i] != sub[j] {
          if 0 < i {
            assert sub[i] == sub[1..][i - 1] && sub[j] == sub[1..][j - 1];
          }
        }
      } else {
        SubsequenceDistinct(sub, s[1..]);
      }
    }
  }

  /** Every element of a subsequence is an element of the sequence. */
  lemma {:induction false} SubsequenceIn(sub: seq<Id>, s: seq<Id>)
    requires Seqs.IsSubsequence(sub, s)
    ensures forall x :: x in sub ==> x in s
    decreases |s|
  {
    if sub != [] && s != [] {
      if sub[0] == s[0] {
        SubsequenceIn(sub[1..], s[1..]);
        assert forall x :: x in sub ==> x == sub[0] || x in sub[1..];
      } else {
        SubsequenceIn(sub, s[1..]);
      }
      assert forall x :: x in s[1..] ==> x in s;
    }
  }

  /** Toggling the same user twice restores the selection as a set, and
      exactly when the user was not selected. */
  lemma SelectionToggledTwice(selected: seq<Id>, userId: Id)
    ensures forall x :: x in SelectionToggled(SelectionToggled(selected, userId), userId) <==> x in selected
    ensures userId !in selected ==> SelectionToggled(SelectionToggled(selected, userId), userId) == selected
  {
    if userId !in selected {
      WithoutAppend(selected, [userId], userId);
      WithoutAbsent(selected, userId);
      assert Without([userId], userId) == [];
    }
  }

  /** `availableUsers`: the users that are neither the owner nor a member. */
  function AvailableUsers(users: seq<Person>, list: ShoppingList): (r: seq<Person>)
    ensures forall u :: u in r <==> u in users && u.id != list.ownerId && u.id !in list.memberIds
    ensures |r| <= |users|
    ensures Seqs.IsSubsequence(r, users)
    ensures forall u :: multiset(r)[u] == if u.id != list.ownerId && u.id !in list.memberIds then multiset(users)[u] else 0
  {
    Seqs.FilterIsSubsequence((u: Person) => u.id != list.ownerId && u.id !in list.memberIds, users);
    Seqs.FilterMultiset((u: Person) => u.id != list.ownerId && u.id !in list.memberIds, users);
    Seqs.Filter((u: Person) => u.id != list.ownerId && u.id !in list.memberIds, users)
  }

  /** The submit button is enabled only for a non-empty selection. */
  predicate SubmitEnabled(selected: seq<Id>)
  {
    |selected| != 0
  }

  /** The dialog's `selectedUsers` state. */
  class InviteSelection {
    var selected: seq<Id>

    constructor ()
      ensures selected == []
    {
      selected := [];
    }

    /** A checkbox click. */
    method Toggle(userId: Id)
      modifies this
      ensures selected == SelectionToggled(old(selected), userId)
    {
      selected := SelectionToggled(selected, userId);
    }

    /** `handleClose`: the selection is cleared. */
    method Close()
      modifies this
      ensures selected == [] && !SubmitEnabled(selected)
    {
      selected := [];
    }

    /** `handleSubmit`: the selection is handed to the member list and then
        cleared. */
    method Submit() returns (invited: seq<Id>)
      modifies this
      ensures invited == old(selected)
      ensures selected == [] && !SubmitEnabled(selected)
    {
      invited := selected;
      selected := [];
    }
  }
}
