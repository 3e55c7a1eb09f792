/**
 * The `useWarrantyItems` hook: the loaded item list, its loading flag, and
 * each item enriched with its derived warranty status.
 */
module WarrantyItems {
  import opened Wrappers
  import opened Calendar
  import opened Types
  import opened Warranty
  import opened Storage

  /** What `calculateItemWarrantyStatus(purchaseDate, warrantyLength)` returns. */
  datatype ItemWarranty = ItemWarranty(status: Status, daysLeft: int)

  /**
   * The calculator's verdict for a purchase date and warranty length at `now`,
   * for use where `calculateItemWarrantyStatus` is the status calculator.
   */
  function CalculatorWarranty(purchaseDate: Date, months: int, now: int): (w: ItemWarranty)
    ensures w.status == Classify(w.daysLeft)
    ensures (w.daysLeft - 1) * MsPerDay < AddMonthsTime(purchaseDate, months) - now <= w.daysLeft * MsPerDay
  {
    var ws := CalculateWarrantyStatus(WarrantyItem("", "", purchaseDate, months, None, None, None), now);
    ItemWarranty(ws.status, ws.daysRemaining)
  }

  /**
   * `getItemWithStatus`: the item unchanged, with a status record taken from
   * `warrantyOf` and an expiration date computed by month addition.
   */
  function ItemWithStatusOf(item: Item, warrantyOf: (Date, int) -> ItemWarranty): (r: ItemWithStatus)
    ensures r.item == item
    ensures r.status.isActive <==> warrantyOf(item.purchaseDate, item.warrantyLength).status != Expired
    ensures r.status.status == warrantyOf(item.purchaseDate, item.warrantyLength).status
    ensures r.status.daysRemaining == warrantyOf(item.purchaseDate, item.warrantyLength).daysLeft
    ensures TimeOf(r.status.expirationDate) == AddMonthsTime(item.purchaseDate, item.warrantyLength)
  {
    var warranty := warrantyOf(item.purchaseDate, item.warrantyLength);
    ItemWithStatus(item, WarrantyStatus(
      warranty.status != Expired,
      warranty.daysLeft,
      AddMonths(item.purchaseDate, item.warrantyLength),
      warranty.status))
  }

  /**
   * With the status calculator in place of `warrantyOf`, the enriched record
   * is the one `calculateWarrantyStatus` builds, and it is consistent.
   */
  lemma ItemWithStatusIsCalculated(item: Item, now: int)
    ensures var r := ItemWithStatusOf(item, (d: Date, n: int) => CalculatorWarranty(d, n, now));
            var w := WarrantyItem(item.id, item.productName, item.purchaseDate, item.warrantyLength, None, None, None);
            r.status == CalculateWarrantyStatus(w, now) && Consistent(r.status)
  {
    var f := (d: Date, n: int) => CalculatorWarranty(d, n, now);
    var r := ItemWithStatusOf(item, f);
    var w := WarrantyItem(item.id, item.productName, item.purchaseDate, item.warrantyLength, None, None, None);
    var c := CalculateWarrantyStatus(w, now);
    var v := WarrantyItem("", "", item.purchaseDate, item.warrantyLength, None, None, None);
    // The calculator reads only the purchase date and the warranty length.
    assert CalculateWarrantyStatus(v, now) == c;
    assert f(item.purchaseDate, item.warrantyLength) == ItemWarranty(c.status, c.daysRemaining);
    TimeOfInjective(r.status.expirationDate, c.expirationDate);
  }

  /** `getItemsWithStatus`: `items.map(getItemWithStatus)`. */
  function ItemsWithStatus(items: seq<Item>, warrantyOf: (Date, int) -> ItemWarranty): (r: seq<ItemWithStatus>)
    ensures |r| == |items|
    ensures forall i :: 0 <= i < |items| ==> r[i] == ItemWithStatusOf(items[i], warrantyOf)
  {
    seq(|items|, i requires 0 <= i < |items| => ItemWithStatusOf(items[i], warrantyOf))
  }

  /** Enrichment keeps the items, in their order, and adds nothing. */
  lemma ItemsWithStatusKeepsItems(items: seq<Item>, warrantyOf: (Date, int) -> ItemWarranty)
    ensures var r := ItemsWithStatus(items, warrantyOf);
            |r| == |items| && forall i :: 0 <= i < |items| ==> r[i].item == items[i]
  {
  }

  /** The hook's state, over the item store it reads. */
  class WarrantyItemsState {
    var items: seq<Item>
    var loading: bool
    const store: ItemStore

    /** Starts empty and loading. */
    constructor (store: ItemStore)
      ensures items == [] && loading && this.store == store
    {
      items := [];
      loading := true;
      this.store := store;
    }

    /** `loadItems`: the list read from the store, and loading ends on every path. */
    method LoadItems(readOk: bool)
      modifies this`items, this`loading
      ensures items == store.Read(readOk)
      ensures !loading
    {
      items := store.GetItems(readOk);
      loading := false;
    }

    /** `deleteItem`: delete in the store, then reload from it. */
    method DeleteItem(id: string, deleteReadOk: bool, reloadReadOk: bool)
      modifies this`items, this`loading, store
      ensures store.slot == Stored(RemoveId(old(store.Read(deleteReadOk)), id))
      ensures reloadReadOk ==> items == RemoveId(old(store.Read(deleteReadOk)), id)
      ensures !reloadReadOk ==> items == []
      ensures forall x :: x in items ==> x.id != id
      ensures !loading
    {
      store.DeleteItem(id, deleteReadOk);
      LoadItems(reloadReadOk);
    }
  }
}
