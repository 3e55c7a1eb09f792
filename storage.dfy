/**
 * The persisted item list: one stored JSON array read, modified and written
 * back by each operation.
 */
module Storage {
  import opened Wrappers
  import opened Types

  /** What the storage key holds: nothing, text that does not parse, or an item array. */
  datatype Slot = Missing | Unparseable | Stored(items: seq<Item>)

  /** `getItems` on a slot: an absent or unreadable value reads as the empty list. */
  function ItemsOf(slot: Slot): (items: seq<Item>)
    ensures slot.Stored? ==> items == slot.items
    ensures !slot.Stored? ==> items == []
  {
    if slot.Stored? then slot.items else []
  }

  /** `findIndex(item => item.id === id)`: the first position holding that id. */
  function IndexOfId(items: seq<Item>, id: string): (r: Option<nat>)
    ensures r.Some? ==> r.value < |items| && items[r.value].id == id
    ensures r.Some? ==> forall j :: 0 <= j < r.value ==> items[j].id != id
    ensures r.None? ==> forall j :: 0 <= j < |items| ==> items[j].id != id
  {
    if items == [] then None
    else if items[0].id == id then Some(0)
    else match IndexOfId(items[1..], id)
      case None => None
      case Some(k) => Some(k + 1)
  }

  /** `filter(item => item.id !== id)`. */
  function RemoveId(items: seq<Item>, id: string): (r: seq<Item>)
    ensures |r| <= |items|
    ensures forall x :: x in r <==> x in items && x.id != id
  {
    if items == [] then []
    else if items[0].id == id then RemoveId(items[1..], id)
    else [items[0]] + RemoveId(items[1..], id)
  }

  /** Removal works piece by piece, so the survivors keep their relative order. */
  lemma {:induction false} RemoveIdAppend(a: seq<Item>, b: seq<Item>, id: string)
    ensures RemoveId(a + b, id) == RemoveId(a, id) + RemoveId(b, id)
  {
    if a == [] {
      assert a + b == b;
    } else {
      assert (a + b)[1..] == a[1..] + b;
      RemoveIdAppend(a[1..], b, id);
    }
  }

  /** Removing an id that no item has changes nothing. */
  lemma {:induction false} RemoveIdAbsent(items: seq<Item>, id: string)
    requires forall j :: 0 <= j < |items| ==> items[j].id != id
    ensures RemoveId(items, id) == items
  {
    if items != [] {
      RemoveIdAbsent(items[1..], id);
    }
  }

  /** Removing twice is removing once. */
  lemma RemoveIdIdempotent(items: seq<Item>, id: string)
    ensures RemoveId(RemoveId(items, id), id) == RemoveId(items, id)
  {
    var r := RemoveId(items, id);
    assert forall j :: 0 <= j < |r| ==> r[j] in r;
    RemoveIdAbsent(r, id);
  }

  /** The stored item list. */
  class ItemStore {
    var slot: Slot

    constructor ()
      ensures slot == Missing
    {
      slot := Missing;
    }

    /** What `getItems` reads when the storage read succeeds. */
    function Items(): seq<Item>
      reads this
    {
      ItemsOf(slot)
    }

    /** What `getItems` returns: a failed or unparseable read is caught and reads as the empty list. */
    function Read(readOk: bool): (items: seq<Item>)
      reads this
      ensures readOk ==> items == Items()
      ensures !readOk ==> items == []
    {
      if readOk then ItemsOf(slot) else []
    }

    /** `getItems`. */
    method GetItems(readOk: bool) returns (items: seq<Item>)
      ensures items == Read(readOk)
    {
      if readOk {
        items := ItemsOf(slot);
      } else {
        items := [];
      }
    }

    /**
     * `saveItem`: appends to what `getItems` returned, with no check for an
     * existing item with the same id.
     */
    method SaveItem(item: Item, readOk: bool)
      modifies this
      ensures slot == Stored(old(Read(readOk)) + [item])
      ensures |Items()| == |old(Read(readOk))| + 1
      ensures Items()[..|old(Read(readOk))|] == old(Read(readOk)) && Items()[|old(Read(readOk))|] == item
    {
      var existing := GetItems(readOk);
      slot := Stored(existing + [item]);
    }

    /**
     * `updateItem`: the first item with the same id is replaced in place; when
     * no item has that id nothing is written and no error is reported.
     */
    method UpdateItem(updated: Item, readOk: bool)
      modifies this
      ensures match IndexOfId(old(Read(readOk)), updated.id)
              case None => slot == old(slot)
              case Some(k) => slot == Stored(old(Read(readOk))[k := updated])
      ensures IndexOfId(old(Read(readOk)), updated.id).Some? ==>
                |Items()| == |old(Read(readOk))| &&
                forall j :: 0 <= j < |Items()| ==>
                  Items()[j] == if Some(j) == IndexOfId(old(Read(readOk)), updated.id) then updated else old(Read(readOk))[j]
    {
      var existing := GetItems(readOk);
      var index := IndexOfId(existing, updated.id);
      if index.Some? {
        existing := existing[index.value := updated];
        slot := Stored(existing);
      }
    }

    /** `deleteItem`: every item with that id goes; the filtered list is always written back. */
    method DeleteItem(id: string, readOk: bool)
      modifies this
      ensures slot == Stored(RemoveId(old(Read(readOk)), id))
      ensures forall x :: x in Items() <==> x in old(Read(readOk)) && x.id != id
    {
      var existing := GetItems(readOk);
      slot := Stored(RemoveId(existing, id));
    }
  }

  /** Two saves of items with the same id leave two entries. */
  lemma SaveKeepsDuplicateIds(stored: seq<Item>, a: Item, b: Item)
    requires a.id == b.id
    ensures var after := ItemsOf(Stored(ItemsOf(Stored(stored + [a])) + [b]));
            |after| == |stored| + 2 && after[|stored|] == a && after[|stored| + 1] == b
  {
  }

  /** Deleting is idempotent and deleting an absent id leaves the item list as it was. */
  lemma DeleteTwiceOrAbsent(stored: seq<Item>, id: string)
    ensures RemoveId(RemoveId(stored, id), id) == RemoveId(stored, id)
    ensures (forall j :: 0 <= j < |stored| ==> stored[j].id != id) ==> RemoveId(stored, id) == stored
  {
    RemoveIdIdempotent(stored, id);
    if forall j :: 0 <= j < |stored| ==> stored[j].id != id {
      RemoveIdAbsent(stored, id);
    }
  }
}
