/**
 * The e-mail receipt picker: a selection of receipt ids toggled one at a
 * time, and the suggested items built from the selected receipts.
 */
module Receipts {
  import opened Wrappers
  import opened Calendar

  /** A receipt found in the user's mail; the fields the parser may not find are optional. */
  datatype EmailReceipt = EmailReceipt(
    id: string,
    subject: string,
    date: Date,
    storeName: Option<string>,
    productName: Option<string>,
    purchaseDate: Option<Date>,
    warrantyLength: Option<int>,  // months
    price: Option<real>)

  /** An item proposed for adding, with where it came from. */
  datatype SuggestedItem = SuggestedItem(
    id: string,
    productName: string,
    purchaseDate: Date,
    warrantyLength: int,
    storeName: string,
    price: Option<real>,
    source: string)

  const UnknownProduct: string := "Unknown Product"
  const UnknownStore: string := "Unknown Store"
  const DefaultWarrantyMonths: int := 12
  const EmailSource: string := "email"

  // ------------------------------------------------------------------ selection

  predicate NoDuplicates(s: seq<string>)
  {
    forall i, j :: 0 <= i < j < |s| ==> s[i] != s[j]
  }

  /** `prev.filter(id => id !== itemId)`. */
  function Without(s: seq<string>, id: string): (r: seq<string>)
    ensures forall x :: x in r <==> x in s && x != id
    ensures |r| <= |s|
  {
    if s == [] then []
    else if s[0] == id then Without(s[1..], id)
    else [s[0]] + Without(s[1..], id)
  }

  /** `toggleItemSelection`: drop the id when it is selected, otherwise append it. */
  function Toggle(selected: seq<string>, id: string): (r: seq<string>)
    ensures id in r <==> id !in selected
    ensures forall x :: x != id ==> (x in r <==> x in selected)
  {
    if id in selected then Without(selected, id) else selected + [id]
  }

  /** Removing an id keeps a duplicate-free list duplicate-free. */
  lemma {:induction false} WithoutNoDuplicates(s: seq<string>, id: string)
    requires NoDuplicates(s)
    ensures NoDuplicates(Without(s, id))
  {
    if s != [] {
      WithoutNoDuplicates(s[1..], id);
      var rest := Without(s[1..], id);
      if s[0] != id {
        assert s[0] !in s[1..];
        assert s[0] !in rest;
        var r := [s[0]] + rest;
        forall i, j | 0 <= i < j < |r| ensures r[i] != r[j] {
          if i == 0 {
            assert r[j] == rest[j - 1];
          } else {
            assert r[i] == rest[i - 1] && r[j] == rest[j - 1];
          }
        }
      }
    }
  }

  /** The selection never holds an id twice. */
  lemma ToggleNoDuplicates(selected: seq<string>, id: string)
    requires NoDuplicates(selected)
    ensures NoDuplicates(Toggle(selected, id))
  {
    if id in selected {
      WithoutNoDuplicates(selected, id);
    }
  }

  /** Removing an id that is not there changes nothing. */
  lemma {:induction false} WithoutAbsent(s: seq<string>, id: string)
    requires id !in s
    ensures Without(s, id) == s
  {
    if s != [] {
      WithoutAbsent(s[1..], id);
      assert [s[0]] + s[1..] == s;
    }
  }

  /** Removing an id from a list with that id appended drops just the appended copy. */
  lemma {:induction false} WithoutAppended(s: seq<string>, id: string)
    requires id !in s
    ensures Without(s + [id], id) == s
  {
    if s == [] {
      assert [] + [id] == [id];
    } else {
      assert (s + [id])[1..] == s[1..] + [id];
      WithoutAppended(s[1..], id);
      assert [s[0]] + s[1..] == s;
    }
  }

  /** Selecting and then deselecting an unselected receipt restores the selection exactly. */
  lemma ToggleTwiceAbsent(selected: seq<string>, id: string)
    requires id !in selected
    ensures Toggle(Toggle(selected, id), id) == selected
  {
    WithoutAppended(selected, id);
  }

  // ---------------------------------------------------------------- suggestions

  /** `receipt.x || fallback` for an optional text: the fallback when missing or empty. */
  function TextOr(value: Option<string>, fallback: string): (r: string)
    ensures value.Some? && value.value != "" ==> r == value.value
    ensures value.None? || value.value == "" ==> r == fallback
  {
    if value.Some? && value.value != "" then value.value else fallback
  }

  /** The suggested item for one receipt, with the defaults for what the receipt lacks. */
  function Suggest(r: EmailReceipt): (s: SuggestedItem)
    ensures s.id == r.id && s.price == r.price && s.source == EmailSource
    ensures s.productName == TextOr(r.productName, UnknownProduct) && s.productName != ""
    ensures s.storeName == TextOr(r.storeName, UnknownStore) && s.storeName != ""
    ensures s.purchaseDate == if r.purchaseDate.Some? then r.purchaseDate.value else r.date
    ensures r.warrantyLength.Some? && r.warrantyLength.value != 0 ==> s.warrantyLength == r.warrantyLength.value
    ensures r.warrantyLength.None? || r.warrantyLength.value == 0 ==> s.warrantyLength == DefaultWarrantyMonths
    ensures s.warrantyLength != 0
  {
    SuggestedItem(
      r.id,
      TextOr(r.productName, UnknownProduct),
      if r.purchaseDate.Some? then r.purchaseDate.value else r.date,
      if r.warrantyLength.Some? && r.warrantyLength.value != 0 then r.warrantyLength.value else DefaultWarrantyMonths,
      TextOr(r.storeName, UnknownStore),
      r.price,
      EmailSource)
  }

  /** `receipts.filter(r => selectedItems.includes(r.id)).map(...)`. */
  function Suggestions(receipts: seq<EmailReceipt>, selected: seq<string>): (r: seq<SuggestedItem>)
    ensures |r| <= |receipts|
    ensures forall s :: s in r ==> s.id in selected && exists x :: x in receipts && s == Suggest(x)
  {
    if receipts == [] then []
    else
      var rest := Suggestions(receipts[1..], selected);
      if receipts[0].id in selected then [Suggest(receipts[0])] + rest else rest
  }

  /** The ids of the selected receipts, in receipt order. */
  function SelectedIds(receipts: seq<EmailReceipt>, selected: seq<string>): seq<string>
  {
    if receipts == [] then []
    else if receipts[0].id in selected then [receipts[0].id] + SelectedIds(receipts[1..], selected)
    else SelectedIds(receipts[1..], selected)
  }

  function IdsOf(items: seq<SuggestedItem>): (ids: seq<string>)
    ensures |ids| == |items| && forall i :: 0 <= i < |items| ==> ids[i] == items[i].id
  {
    seq(|items|, i requires 0 <= i < |items| => items[i].id)
  }

  /** The suggestions are exactly the selected receipts, one each, in receipt order. */
  lemma {:induction false} SuggestionsFollowReceipts(receipts: seq<EmailReceipt>, selected: seq<string>)
    ensures IdsOf(Suggestions(receipts, selected)) == SelectedIds(receipts, selected)
  {
    if receipts != [] {
      SuggestionsFollowReceipts(receipts[1..], selected);
      var rest := Suggestions(receipts[1..], selected);
      if receipts[0].id in selected {
        assert IdsOf([Suggest(receipts[0])] + rest) == [receipts[0].id] + IdsOf(rest);
      }
    }
  }

  /** Selecting every receipt suggests every receipt; selecting none suggests nothing. */
  lemma {:induction false} SuggestionsAllOrNone(receipts: seq<EmailReceipt>, selected: seq<string>)
    ensures (forall r :: r in receipts ==> r.id in selected) ==> |Suggestions(receipts, selected)| == |receipts|
    ensures selected == [] ==> Suggestions(receipts, selected) == []
  {
    if receipts != [] {
      SuggestionsAllOrNone(receipts[1..], selected);
      if forall r :: r in receipts ==> r.id in selected {
        assert receipts[0] in receipts;
        assert forall r :: r in receipts[1..] ==> r in receipts;
      }
    }
  }

  // ----------------------------------------------------------------- the picker

  /** The picker's state: the receipts on show and the ids ticked. */
  class ReceiptPicker {
    var selected: seq<string>
    var receipts: seq<EmailReceipt>

    /** Opens with nothing selected and no receipts. */
    constructor ()
      ensures selected == [] && receipts == []
    {
      selected := [];
      receipts := [];
    }

    /** Shows the receipts a mailbox scan found. */
    method ShowReceipts(found: seq<EmailReceipt>)
      modifies this`receipts
      ensures receipts == found
    {
      receipts := found;
    }

    /** `toggleItemSelection`. */
    method ToggleItem(id: string)
      modifies this`selected
      ensures selected == Toggle(old(selected), id)
      ensures NoDuplicates(old(selected)) ==> NoDuplicates(selected)
    {
      if NoDuplicates(selected) {
        ToggleNoDuplicates(selected, id);
      }
      selected := Toggle(selected, id);
    }

    /** `handleAddSelectedItems`: hands over the suggestions and clears the selection. */
    method AddSelectedItems() returns (added: seq<SuggestedItem>)
      modifies this`selected
      ensures added == Suggestions(receipts, old(selected))
      ensures IdsOf(added) == SelectedIds(receipts, old(selected))
      ensures selected == []
    {
      added := Suggestions(receipts, selected);
      SuggestionsFollowReceipts(receipts, selected);
      selected := [];
    }
  }
}
