/** The "add item" dialog: its default draft, the case-insensitive duplicate
    check on names, the quantity rules, the unit choices, and the draft and
    `validated` state that a submission checks and resets. */
module AddItemModal {

  import opened Common
  import opened Lists

  /** The `maxLength` of the name input. */
  const MaxNameLength := 20

  /** The longest printed quantity that is accepted. */
  const MaxQuantityChars := 7

  /** `defaultForm`: an empty name and quantity, no unit, not resolved. The
      draft carries `id: ""` and no `itemId`. */
  function DefaultItemDraft(): (d: Item)
    ensures d.resolved == Some(false) && d.name == [] && d.quantity == Blank && d.unit == []
    ensures d.id == Some([]) && d.itemId.None?
  {
    Item(Some([]), None, [], Blank, [], Some(false))
  }

  // ---------------------------------------------------------------------------
  // The duplicate check
  // ---------------------------------------------------------------------------

  /** `items.find(item => item.name.toLowerCase() === name.toLowerCase())` */
  function FindSameName(items: seq<Item>, name: string): (r: Option<Item>)
    ensures r.None? <==> forall i :: 0 <= i < |items| ==> !SameIgnoringCase(items[i].name, name)
    ensures r.Some? ==> r.value in items && SameIgnoringCase(r.value.name, name)
  {
    if items == [] then None
    else if SameIgnoringCase(items[0].name, name) then Some(items[0])
    else
      assert forall i :: 1 <= i < |items| ==> items[i] == items[1..][i - 1];
      FindSameName(items[1..], name)
  }

  /** The name is a duplicate when some item of the list has it, ignoring
      case. */
  predicate IsDuplicateName(items: seq<Item>, name: string)
  {
    FindSameName(items, name).Some?
  }

  // ---------------------------------------------------------------------------
  // Quantities and their printed form
  // ---------------------------------------------------------------------------

  function DigitChar(d: nat): (c: char)
    requires d < 10
    ensures IsDigit(c)
  {
    "0123456789"[d]
  }

  /** The decimal digits of `n`, with no leading zero. */
  function ShowNat(n: nat): (r: string)
    ensures 1 <= |r|
    ensures forall i :: 0 <= i < |r| ==> IsDigit(r[i])
  {
    if n < 10 then [DigitChar(n)] else ShowNat(n / 10) + [DigitChar(n % 10)]
  }

  /** `Number.prototype.toString` of `t / 10`: an integral value prints
      without a fraction, any other with one decimal. */
  function ShowTenths(t: int): string
  {
    if t < 0 then "-" + ShowMagnitude(-t) else ShowMagnitude(t)
  }

  function ShowMagnitude(n: nat): string
  {
    if n % 10 == 0 then ShowNat(n / 10)
    else ShowNat(n / 10) + "." + [DigitChar(n % 10)]
  }

  function Pow10(k: nat): (p: nat)
    ensures 1 <= p
  {
    if k == 0 then 1 else 10 * Pow10(k - 1)
  }

  /** A number has at most `k` digits exactly when it is below `10^k`. */
  lemma {:induction false} ShowNatLength(n: nat, k: nat)
    requires 1 <= k
    ensures |ShowNat(n)| <= k <==> n < Pow10(k)
  {
    if n >= 10 && k > 1 {
      ShowNatLength(n / 10, k - 1);
    }
  }

  /** `isInvalid` of the quantity: missing, below 0.1, or printed with more
      than seven characters. */
  predicate QuantityInvalid(q: Quantity)
  {
    match q
    case Blank => true
    case NotANumber => true
    case Tenths(t) => t < 1 || |ShowTenths(t)| > MaxQuantityChars
  }

  /** The accepted quantities, stated without the printed form: from 0.1 up
      to 99999.9 in steps of 0.1, and the whole numbers up to 9999999. */
  lemma QuantityValidRange(t: int)
    ensures !QuantityInvalid(Tenths(t)) <==>
      1 <= t && (if t % 10 == 0 then t < 100000000 else t < 1000000)
  {
    if 1 <= t {
      if t % 10 == 0 {
        ShowNatLength(t / 10, 7);
        assert Pow10(7) == 10000000;
      } else {
        ShowNatLength(t / 10, 5);
        assert Pow10(5) == 100000;
      }
    }
  }

  // ---------------------------------------------------------------------------
  // Units
  // ---------------------------------------------------------------------------

  /** The unit choices as (value, label) pairs, in the order offered. */
  const UnitOptions: seq<(string, string)> := [
    ("", "---"), ("ml", "mililiter"), ("dl", "deciliter"), ("l", "liter"),
    ("g", "gram"), ("dkg", "decagram"), ("kg", "kilogram"),
    ("tsp", "teaspoon"), ("tsp", "tablespoon"), ("fl oz", "fluid ounce"),
    ("pc", "piece"), ("c", "cup"), ("pt", "pint"), ("qt", "quart"),
    ("gal", "gallon"), ("lb", "pound"), ("oz", "ounce")]

  /** A unit the select can deliver. */
  predicate IsUnitCode(u: string)
  {
    exists i :: 0 <= i < |UnitOptions| && UnitOptions[i].0 == u
  }

  /** Teaspoon and tablespoon deliver the same value, so the stored unit
      cannot tell them apart; the empty unit is a choice too. */
  lemma TeaspoonIsTablespoon()
    ensures UnitOptions[7].1 != UnitOptions[8].1 && UnitOptions[7].0 == UnitOptions[8].0 == "tsp"
    ensures IsUnitCode("") && IsUnitCode("tsp") && !IsUnitCode("tbsp")
  {
    assert UnitOptions[0].0 == "";
    assert UnitOptions[7].0 == "tsp";
  }

  // ---------------------------------------------------------------------------
  // The form
  // ---------------------------------------------------------------------------

  /** What the form accepts: a name that is present and not a duplicate, and
      a valid quantity. */
  predicate FormValid(draft: Item, items: seq<Item>)
  {
    |draft.name| != 0 && !IsDuplicateName(items, draft.name) && !QuantityInvalid(draft.quantity)
  }

  /** An accepted draft's name matches no item of the list, whatever the case,
      and its quantity is at least 0.1. */
  lemma AcceptedDraft(draft: Item, items: seq<Item>)
    requires FormValid(draft, items)
    ensures draft.name != []
    ensures forall i :: 0 <= i < |items| ==> Lower(items[i].name) != Lower(draft.name)
    ensures draft.quantity.Tenths? && 1 <= draft.quantity.tenths
  {
  }

  /** The default draft is never accepted as it is. */
  lemma DefaultDraftRejected(items: seq<Item>)
    ensures !FormValid(DefaultItemDraft(), items)
  {
  }

  /** The dialog's `formData` and `validated` state. */
  class AddItemForm {
    var formData: Item
    var validated: bool

    /** What the inputs can hold: the name input takes at most twenty
        characters and the select only offers the listed units. */
    predicate Valid()
      reads this
    {
      |formData.name| <= MaxNameLength && IsUnitCode(formData.unit)
    }

    constructor ()
      ensures formData == DefaultItemDraft() && !validated && Valid()
    {
      formData := DefaultItemDraft();
      validated := false;
      assert UnitOptions[0].0 == "";
    }

    /** `setField("name", value)`; the input accepts at most twenty
        characters. */
    method SetName(name: string)
      requires Valid() && |name| <= MaxNameLength
      modifies this
      ensures formData == old(formData).(name := name) && validated == old(validated) && Valid()
    {
      formData := formData.(name := name);
    }

    /** `setField("quantity", parseFloat(value))`: a value that does not
        parse is `NaN`. */
    method SetQuantity(parsed: Option<int>)
      requires Valid()
      modifies this
      ensures formData == old(formData).(quantity := if parsed.None? then NotANumber else Tenths(parsed.value))
      ensures validated == old(validated) && Valid()
    {
      var q := if parsed.None? then NotANumber else Tenths(parsed.value);
      formData := formData.(quantity := q);
    }

    /** `setField("unit", value)` from the select. */
    method SetUnit(unit: string)
      requires Valid() && IsUnitCode(unit)
      modifies this
      ensures formData == old(formData).(unit := unit) && validated == old(validated) && Valid()
    {
      formData := formData.(unit := unit);
    }

    /** `handleSubmit`: a rejected draft stays, with `validated` set so the
        errors show; an accepted one is handed on and the form is reset. */
    method Submit(items: seq<Item>) returns (added: Option<Item>)
      requires Valid()
      modifies this
      ensures added.Some? <==> FormValid(old(formData), items)
      ensures added.Some? ==> added.value == old(formData) && formData == DefaultItemDraft() && !validated
      ensures added.None? ==> formData == old(formData) && validated
      ensures Valid()
    {
      validated := true;
      if !FormValid(formData, items) {
        added := None;
        return;
      }
      added := Some(formData);
      formData := DefaultItemDraft();
      validated := false;
      assert UnitOptions[0].0 == "";
    }
  }
}
