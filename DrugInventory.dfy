/** A pharmacy drug and its `afterUpdate` hook, which reads the saved row
    and emits reorder, out-of-stock and expiry alerts without writing any
    field. Instants are milliseconds. */
module DrugInventory {
  import opened Common

  /** The fields the pharmacy rules read and write. */
  datatype Drug = Drug(
    drugCode: string,
    drugName: string,
    category: string,
    quantityInStock: int,
    reorderLevel: int,
    sellingPrice: real,
    expiryDate: int,
    isActive: bool)

  /** The column defaults of `quantityInStock` and `reorderLevel`. */
  const DefaultQuantityInStock: int := 0
  const DefaultReorderLevel: int := 20

  /** `new Date()` moved 30 days on (calendar days taken as 24 hours). */
  function ThirtyDaysFrom(now: int): int { now + 30 * DayMs }

  datatype DrugAlert = ReorderAlert | OutOfStockAlert | ExpiryAlert

  /** The alerts one save raises, in the order the hook logs them. */
  function AfterUpdateAlerts(d: Drug, now: int): seq<DrugAlert> {
    (if d.quantityInStock <= d.reorderLevel && d.quantityInStock > 0 then [ReorderAlert] else [])
    + (if d.quantityInStock == 0 then [OutOfStockAlert] else [])
    + (if d.expiryDate <= ThirtyDaysFrom(now) then [ExpiryAlert] else [])
  }

  /** When each alert fires: reorder for a stock in `1..reorderLevel`,
      out-of-stock for zero, expiry for an expiry date within thirty days
      (already expired included), whatever the stock. */
  lemma AlertConditions(d: Drug, now: int)
    ensures ReorderAlert in AfterUpdateAlerts(d, now) <==> 0 < d.quantityInStock <= d.reorderLevel
    ensures OutOfStockAlert in AfterUpdateAlerts(d, now) <==> d.quantityInStock == 0
    ensures ExpiryAlert in AfterUpdateAlerts(d, now) <==> d.expiryDate <= ThirtyDaysFrom(now)
  {
  }

  /** The two stock alerts never fire together, so one save raises at most
      two alerts, and each kind at most once. */
  lemma StockAlertsExclusive(d: Drug, now: int)
    ensures !(ReorderAlert in AfterUpdateAlerts(d, now) && OutOfStockAlert in AfterUpdateAlerts(d, now))
    ensures |AfterUpdateAlerts(d, now)| <= 2
    ensures forall i, j :: 0 <= i < j < |AfterUpdateAlerts(d, now)| ==>
              AfterUpdateAlerts(d, now)[i] != AfterUpdateAlerts(d, now)[j]
  {
  }

  /** A saved, already-expired drug with no stock raises both the
      out-of-stock and the expiry alert. */
  lemma ExpiredOutOfStockRaisesBoth(now: int)
    ensures AfterUpdateAlerts(Drug("TAB0001", "Paracetamol", "tablet", 0, DefaultReorderLevel, 2.5, now - DayMs, true), now)
            == [OutOfStockAlert, ExpiryAlert]
  {
  }
}
