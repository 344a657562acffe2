/** The `Inventory` record stored in the "inventory" collection. */
module InventoryModel {
  import opened Base

  /**
   * A price is a Kotlin `Double`; it is modelled as a totally ordered
   * exact value, without rounding, NaN or infinities.
   */
  type Price = real

  /**
   * One inventory record. `photo` is the download URL of the item's image,
   * the empty string meaning "no photo"; `userId` is the owner that every
   * repository access compares with the signed-in user. `quantity` is any
   * `Int`: only the forms insist on a non-negative value.
   */
  datatype Inventory = Inventory(
    id: string,
    name: string,
    quantity: Int32,
    photo: string,
    price: Price,
    userId: string)

  /** `Inventory()`: the record built from the constructor's default arguments. */
  const DefaultInventory := Inventory("", "", 0, "", 0.0, "")

  /** The "no photo" sentinel is the empty URL. */
  predicate HasPhoto(item: Inventory) {
    item.photo != ""
  }

  /** The default record has no id, no name, no photo, no owner, and zero quantity and price. */
  lemma DefaultIsEmpty()
    ensures DefaultInventory.id == "" && DefaultInventory.name == "" && DefaultInventory.userId == ""
    ensures !HasPhoto(DefaultInventory)
    ensures DefaultInventory.quantity == 0 && DefaultInventory.price == 0.0
  {
  }
}
