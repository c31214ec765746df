/** The plain records the screens display. */
module Models {
  import opened Wrappers
  import opened Uuids

  /** `InventoryItem`: one card of the inventory screen. */
  datatype InventoryItem = InventoryItem(
    id: Uuid, name: string, quantityLabel: string, fill: real, emoji: string,
    category: string, alert: bool, expiresAt: Option<string>, location: Option<string>)
}
