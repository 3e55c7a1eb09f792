/** The records of the application: stored items and the derived warranty status. */
module Types {
  import opened Wrappers
  import opened Calendar

  /** A tracked purchase as the item store keeps it. */
  datatype Item = Item(
    id: string,
    productName: string,
    purchaseDate: Date,
    warrantyLength: int,  // months
    storeName: string,
    createdAt: Date,
    updatedAt: Date)

  /** The older item shape that the status calculator takes. */
  datatype WarrantyItem = WarrantyItem(
    id: string,
    name: string,
    purchaseDate: Date,
    warrantyDuration: int,  // months
    category: Option<string>,
    notes: Option<string>,
    price: Option<real>)

  datatype Status = Active | Expiring | Expired

  /** The derived warranty status of an item; never stored. */
  datatype WarrantyStatus = WarrantyStatus(
    isActive: bool,
    daysRemaining: int,
    expirationDate: Date,
    status: Status)

  /** An item together with its derived status (`WarrantyItemWithStatus`). */
  datatype ItemWithStatus = ItemWithStatus(item: Item, status: WarrantyStatus)
}
