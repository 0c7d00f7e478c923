/** The resolved/unresolved chart: two counts over a list's items, and the
    branch taken for a list with no items. */
module ResolvedStateChart {

  import opened Common
  import opened Lists
  import Seqs

  /** `items.filter(item => item.resolved === true).length` */
  function ResolvedCount(items: seq<Item>): (n: nat)
    ensures n <= |items|
    ensures n == 0 <==> forall i :: 0 <= i < |items| ==> items[i].resolved != Some(true)
    ensures n == |items| <==> forall i :: 0 <= i < |items| ==> items[i].resolved == Some(true)
  {
    Seqs.Count((it: Item) => it.resolved == Some(true), items)
  }

  /** `items.filter(item => item.resolved === false).length`: an item with no
      `resolved` value is not counted here either. */
  function UnresolvedCount(items: seq<Item>): (n: nat)
    ensures n <= |items|
    ensures n == 0 <==> forall i :: 0 <= i < |items| ==> items[i].resolved != Some(false)
    ensures n == |items| <==> forall i :: 0 <= i < |items| ==> items[i].resolved == Some(false)
  {
    Seqs.Count((it: Item) => it.resolved == Some(false), items)
  }

  /** The counts item by item: none for no items, and one more resolved
      (or unresolved) count for each item whose `resolved` is `true` (or
      `false`). Together these fix both counts for every list. */
  lemma CountsStep(items: seq<Item>, it: Item)
    ensures ResolvedCount([]) == 0 && UnresolvedCount([]) == 0
    ensures ResolvedCount(items + [it]) == ResolvedCount(items) + (if it.resolved == Some(true) then 1 else 0)
    ensures UnresolvedCount(items + [it]) == UnresolvedCount(items) + (if it.resolved == Some(false) then 1 else 0)
  {
    Seqs.CountSnoc((x: Item) => x.resolved == Some(true), items, it);
    Seqs.CountSnoc((x: Item) => x.resolved == Some(false), items, it);
  }

  /** The two counts never exceed the number of items, and add up to it when
      every item has a boolean `resolved`. */
  lemma CountsAddUp(items: seq<Item>)
    ensures ResolvedCount(items) + UnresolvedCount(items) <= |items|
    ensures (forall i :: 0 <= i < |items| ==> items[i].resolved.Some?) ==>
      ResolvedCount(items) + UnresolvedCount(items) == |items|
  {
    var p := (it: Item) => it.resolved == Some(true);
    var q := (it: Item) => it.resolved == Some(false);
    Seqs.CountDisjoint(p, q, items);
    if forall i :: 0 <= i < |items| ==> items[i].resolved.Some? {
      forall i | 0 <= i < |items| ensures p(items[i]) || q(items[i]) {
        var b := items[i].resolved.value;
        assert items[i].resolved == Some(b);
      }
    }
  }

  /** An item with no `resolved` value is counted in neither total. */
  lemma UndefinedCountsNowhere(items: seq<Item>, it: Item)
    requires it.resolved.None?
    ensures ResolvedCount(items + [it]) == ResolvedCount(items)
    ensures UnresolvedCount(items + [it]) == UnresolvedCount(items)
  {
    Seqs.FilterAppend((x: Item) => x.resolved == Some(true), items, [it]);
    Seqs.FilterAppend((x: Item) => x.resolved == Some(false), items, [it]);
    assert Seqs.Filter((x: Item) => x.resolved == Some(true), [it]) == [];
    assert Seqs.Filter((x: Item) => x.resolved == Some(false), [it]) == [];
  }

  /** `items.length !== 0`: the chart is drawn; otherwise "no data". */
  predicate HasChartData(items: seq<Item>)
  {
    |items| != 0
  }

  /** The "no data" branch is exactly the empty item list, in which both
      counts are zero; a drawn chart has a non-zero total whenever every item
      has a boolean `resolved`. */
  lemma NoDataBranch(items: seq<Item>)
    ensures !HasChartData(items) ==> ResolvedCount(items) == 0 && UnresolvedCount(items) == 0
    ensures HasChartData(items) && (forall i :: 0 <= i < |items| ==> items[i].resolved.Some?) ==>
      ResolvedCount(items) + UnresolvedCount(items) > 0
  {
    CountsAddUp(items);
  }
}
