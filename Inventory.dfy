/** Hospital inventory: `updateStock` applies a typed stock movement to one
    item and records a stock transaction; the low-stock and expiry alert
    views partition the items; the inventory value sums stock times unit cost;
    item codes and transaction IDs come from the shared sequence generator. */
module Inventory {
  import opened Common
  import opened Ids

  /** The transaction types of the stock-transaction table. */
  datatype TxType = Purchase | Sale | Adjustment | Transfer | Return | Damage | Expired

  /** The name of a type as the request and the table spell it. */
  function TypeName(t: TxType): string {
    match t
    case Purchase => "purchase"
    case Sale => "sale"
    case Adjustment => "adjustment"
    case Transfer => "transfer"
    case Return => "return"
    case Damage => "damage"
    case Expired => "expired"
  }

  /** The six type names `updateStock` accepts (`transfer` is not among
      them). */
  function ParseTxType(name: string): (r: Option<TxType>)
    ensures r.Some? ==> r.value != Transfer && TypeName(r.value) == name
    ensures r.None? <==> name !in {"purchase", "sale", "adjustment", "return", "damage", "expired"}
  {
    match name
    case "purchase" => Some(Purchase)
    case "sale" => Some(Sale)
    case "adjustment" => Some(Adjustment)
    case "return" => Some(Return)
    case "damage" => Some(Damage)
    case "expired" => Some(Expired)
    case _ => None
  }

  /** Every type but `transfer` is accepted under its own name. */
  lemma TypeNamesParse(t: TxType)
    ensures ParseTxType(TypeName(t)) == if t == Transfer then None else Some(t)
  {
  }

  predicate Adds(t: TxType) { t == Purchase || t == Return || t == Adjustment }
  predicate Removes(t: TxType) { t == Sale || t == Damage || t == Expired }

  /** An inventory item; instants (`expiryDate`, now) are milliseconds. */
  datatype Item = Item(
    id: string,
    itemCode: string,
    category: string,
    currentStock: int,
    reorderLevel: int,
    unitCost: real,
    expiryDate: Option<int>,
    isActive: bool)

  datatype StockTransaction = StockTransaction(
    transactionId: string,
    itemKey: string,
    kind: TxType,
    quantity: nat,
    unitCost: real,
    totalCost: real,
    reason: Option<string>,
    referenceNumber: Option<string>,
    notes: Option<string>)

  datatype StockOutcome =
    | InvalidType
    | ItemNotFound
    | InsufficientStock
    | Updated(item: Item, transaction: StockTransaction, lowStockAlert: bool)

  function Abs(q: int): nat { if q < 0 then -q else q }

  function ClampAtZero(n: int): (r: nat)
    ensures r >= n && (n >= 0 ==> r == n) && (n < 0 ==> r == 0)
  {
    if n > 0 then n else 0
  }

  /** The unclamped new stock level, or `None` when a removal exceeds the
      stock. */
  function NewStockLevel(t: TxType, current: int, q: int): Option<int> {
    if Adds(t) && q > 0 then Some(current + q)
    else if Removes(t) && q > 0 then (if current < q then None else Some(current - q))
    else if t == Adjustment && q < 0 then Some(current + q)
    else Some(current)
  }

  // ---------------------------------------------------------------------
  // Properties of a movement

  /** Purchases, returns and positive adjustments add the quantity. */
  lemma AddsIncrease(t: TxType, current: int, q: int)
    requires Adds(t) && q > 0
    ensures NewStockLevel(t, current, q) == Some(current + q)
  {
  }

  /** A sale, damage or expiry is refused exactly when it exceeds the stock,
      and otherwise subtracts the quantity (so never goes below zero from a
      non-negative stock). */
  lemma RemovalRule(t: TxType, current: int, q: int)
    requires Removes(t) && q > 0
    ensures NewStockLevel(t, current, q).None? <==> current < q
    ensures NewStockLevel(t, current, q).Some? ==> NewStockLevel(t, current, q).value == current - q >= 0
  {
  }

  /** Only removals are ever refused; every other accepted type moves the
      stock by at most `|q|`, and a zero quantity moves nothing. */
  lemma MovementBounds(t: TxType, current: int, q: int)
    ensures NewStockLevel(t, current, q).None? ==> Removes(t) && q > current
    ensures NewStockLevel(t, current, q).Some? ==>
              -(Abs(q) as int) <= NewStockLevel(t, current, q).value - current <= Abs(q)
    ensures q == 0 ==> NewStockLevel(t, current, q) == Some(current)
  {
  }

  // ---------------------------------------------------------------------
  // Alert views

  /** The `getLowStockItems` query: active items at or below their reorder
      level. */
  function LowStockItems(items: seq<Item>): seq<Item> {
    Filter(items, (x: Item) => x.isActive && x.currentStock <= x.reorderLevel)
  }

  function OutOfStock(alerts: seq<Item>): seq<Item> {
    Filter(alerts, (x: Item) => x.currentStock == 0)
  }

  function LowButInStock(alerts: seq<Item>): seq<Item> {
    Filter(alerts, (x: Item) => x.currentStock > 0)
  }

  /** With no negative stock (what `updateStock` maintains), out-of-stock and
      low-stock split the alert list, and `totalAlerts` is the sum of the two
      counts. */
  lemma LowStockPartition(items: seq<Item>)
    requires forall x :: x in items ==> x.currentStock >= 0
    ensures var alerts := LowStockItems(items);
      |OutOfStock(alerts)| + |LowButInStock(alerts)| == |alerts|
    ensures forall x :: x in LowStockItems(items) ==>
      (x in OutOfStock(LowStockItems(items)) <==> x.currentStock == 0) &&
      (x in LowButInStock(LowStockItems(items)) <==> x.currentStock > 0)
  {
    var alerts := LowStockItems(items);
    var zero := (x: Item) => x.currentStock == 0;
    var pos := (x: Item) => x.currentStock > 0;
    FilterSplit(alerts, zero, pos);
    forall x | x in alerts
      ensures (x in OutOfStock(alerts) <==> x.currentStock == 0) && (x in LowButInStock(alerts) <==> x.currentStock > 0)
    {
      if x.currentStock == 0 { FilterComplete(alerts, zero, x); }
      if x.currentStock > 0 { FilterComplete(alerts, pos, x); }
    }
  }

  /** `parseInt(req.query.days) || 30`: absent, unparsable and zero all mean
      30. */
  function DaysParam(days: Option<string>): (r: int)
    ensures r != 0
  {
    var parsed := if days.Some? then ParseInt(days.value) else None;
    if parsed.Some? && parsed.value != 0 then parsed.value else 30
  }

  /** The `getExpiringItems` query: active, in stock, with an expiry date no
      later than `days` days from now. */
  function ExpiringItems(items: seq<Item>, now: int, days: int): seq<Item> {
    Filter(items, (x: Item) => x.isActive && x.expiryDate.Some? && x.expiryDate.value <= now + days * DayMs
                               && x.currentStock > 0)
  }

  function ExpiryOf(x: Item): int { if x.expiryDate.Some? then x.expiryDate.value else 0 }

  function ExpiredBucket(fetched: seq<Item>, now: int): seq<Item> {
    Filter(fetched, (x: Item) => ExpiryOf(x) < now)
  }

  function Within7Bucket(fetched: seq<Item>, now: int): seq<Item> {
    Filter(fetched, (x: Item) => now <= ExpiryOf(x) <= now + 7 * DayMs)
  }

  function Beyond7Bucket(fetched: seq<Item>, now: int): seq<Item> {
    Filter(fetched, (x: Item) => ExpiryOf(x) > now + 7 * DayMs)
  }

  /** Each fetched item lands in exactly one of expired, within 7 days and
      beyond 7 days, so the three counts add up to `totalItems`. */
  lemma ExpiryBucketsPartition(items: seq<Item>, now: int, days: int)
    ensures var f := ExpiringItems(items, now, days);
      |ExpiredBucket(f, now)| + |Within7Bucket(f, now)| + |Beyond7Bucket(f, now)| == |f|
    ensures var f := ExpiringItems(items, now, days);
      forall x :: x in f ==>
        && x.isActive && x.currentStock > 0
        && x.expiryDate.Some? && x.expiryDate.value <= now + days * DayMs
        && (x in ExpiredBucket(f, now) <==> x.expiryDate.value < now)
        && (x in Within7Bucket(f, now) <==> now <= x.expiryDate.value <= now + 7 * DayMs)
        && (x in Beyond7Bucket(f, now) <==> x.expiryDate.value > now + 7 * DayMs)
  {
    var f := ExpiringItems(items, now, days);
    var e := (x: Item) => ExpiryOf(x) < now;
    var w := (x: Item) => now <= ExpiryOf(x) <= now + 7 * DayMs;
    var b := (x: Item) => ExpiryOf(x) > now + 7 * DayMs;
    FilterSplit3(f, e, w, b);
    forall x | x in f
      ensures (x in ExpiredBucket(f, now) <==> x.expiryDate.value < now) &&
              (x in Within7Bucket(f, now) <==> now <= x.expiryDate.value <= now + 7 * DayMs) &&
              (x in Beyond7Bucket(f, now) <==> x.expiryDate.value > now + 7 * DayMs)
    {
      if e(x) { FilterComplete(f, e, x); }
      if w(x) { FilterComplete(f, w, x); }
      if b(x) { FilterComplete(f, b, x); }
    }
  }

  /** The `reduce` behind `totalValue`: stock times unit cost over the
      active items. */
  function InventoryValue(items: seq<Item>): real
    decreases |items|
  {
    if items == [] then 0.0
    else
      var x := items[|items| - 1];
      InventoryValue(items[..|items| - 1]) + (if x.isActive then x.currentStock as real * x.unitCost else 0.0)
  }

  lemma {:induction false} InventoryValueNonNegative(items: seq<Item>)
    requires forall x :: x in items ==> x.currentStock >= 0 && x.unitCost >= 0.0
    ensures InventoryValue(items) >= 0.0
    decreases |items|
  {
    if items != [] {
      var init := items[..|items| - 1];
      assert forall x :: x in init ==> x in items;
      InventoryValueNonNegative(init);
      var x := items[|items| - 1];
      assert x in items;
      MulNonNegative(x.currentStock as real, x.unitCost);
    }
  }

  /** Inactive items contribute nothing to the value. */
  lemma {:induction false} InventoryValueAppend(items: seq<Item>, x: Item)
    ensures InventoryValue(items + [x]) ==
            InventoryValue(items) + (if x.isActive then x.currentStock as real * x.unitCost else 0.0)
  {
    assert (items + [x])[..|items + [x]| - 1] == items;
  }

  // ---------------------------------------------------------------------
  // Codes

  /** `generateItemCode(category)`: the category's prefix, then the number
      read with `slice(3)` plus one, padded to 4. */
  function NextItemCode(category: string, codes: seq<string>): string {
    NextId(CategoryScheme(ItemPrefix(category)), "", codes)
  }

  /** `slice(3)` cuts exactly the three-letter prefix, so item codes
      continue for every sequence number (`MED9999` is followed by
      `MED10000`). */
  lemma ItemCodesContinue(category: string, codes: seq<string>, n: nat)
    requires LastIssued(CategoryScheme(ItemPrefix(category)), "", codes) ==
             Some(Format(CategoryScheme(ItemPrefix(category)), "", n))
    ensures NextItemCode(category, codes) == Format(CategoryScheme(ItemPrefix(category)), "", n + 1)
  {
    UndatedScope(CategoryScheme(ItemPrefix(category)), "");
    NextAfterDropScope(CategoryScheme(ItemPrefix(category)), "", codes, n);
  }

  // ---------------------------------------------------------------------
  // The store

  class InventoryStore {
    /** Items by primary key. */
    var items: map<string, Item>
    /** Stock transactions, in creation order. */
    var transactions: seq<StockTransaction>

    /** No item holds negative stock. */
    ghost predicate Valid()
      reads this
    {
      forall k :: k in items ==> items[k].currentStock >= 0
    }

    constructor (initial: map<string, Item>)
      ensures items == initial && transactions == []
    {
      items, transactions := initial, [];
    }

    /** `updateStock`. */
    method UpdateStock(key: string, quantity: int, transactionType: string, reason: Option<string>,
                       referenceNumber: Option<string>, notes: Option<string>, today: string)
      returns (r: StockOutcome)
      modifies this
      ensures old(Valid()) ==> Valid()
      ensures ParseTxType(transactionType).None? ==> r == InvalidType && unchanged(this)
      ensures ParseTxType(transactionType).Some? && key !in old(items) ==> r == ItemNotFound && unchanged(this)
      ensures ParseTxType(transactionType).Some? && key in old(items) ==>
                Moved(old(items), old(transactions), key, ParseTxType(transactionType).value, quantity,
                      reason, referenceNumber, notes, today, r, items, transactions)
    {
      var kind := ParseTxType(transactionType);
      if kind.None? {
        return InvalidType;
      }
      if key !in items {
        return ItemNotFound;
      }
      r := Move(key, kind.value, quantity, reason, referenceNumber, notes, today);
    }

    /** The part of `updateStock` after the type check and the lookup. */
    method Move(key: string, t: TxType, quantity: int, reason: Option<string>,
                referenceNumber: Option<string>, notes: Option<string>, today: string)
      returns (r: StockOutcome)
      requires key in items
      modifies this
      ensures old(Valid()) ==> Valid()
      ensures Moved(old(items), old(transactions), key, t, quantity, reason, referenceNumber, notes, today,
                    r, items, transactions)
    {
      var item := items[key];
      var accepted, newStock := MoveStock(t, item.currentStock, quantity);
      if !accepted {
        return InsufficientStock;
      }
      var transactionId := NextTransactionId(today, transactions);
      var tx := TransactionFor(transactionId, key, item, t, quantity, reason, referenceNumber, notes);
      transactions := transactions + [tx];
      var updated := item.(currentStock := ClampAtZero(newStock));
      items := items[key := updated];
      r := Updated(updated, tx, newStock <= item.reorderLevel);
    }
  }

  /** The transaction row `updateStock` creates: the absolute quantity, the
      item's unit cost and their product. */
  function TransactionFor(id: string, key: string, item: Item, t: TxType, quantity: int, reason: Option<string>,
                          referenceNumber: Option<string>, notes: Option<string>): (tx: StockTransaction)
    ensures tx.quantity == Abs(quantity) && tx.totalCost == item.unitCost * tx.quantity as real
  {
    StockTransaction(id, key, t, Abs(quantity), item.unitCost, item.unitCost * Abs(quantity) as real,
                     reason, referenceNumber, notes)
  }

  /** The outcome and new state of an accepted type on an existing item: a
      refused removal changes nothing; otherwise exactly one transaction of
      `|quantity|` at the item's unit cost is appended, the item's stock
      becomes the new level clamped at zero, and the alert is raised when
      the unclamped level is at or below the reorder level. */
  ghost predicate Moved(items: map<string, Item>, ts: seq<StockTransaction>, key: string, t: TxType,
                        quantity: int, reason: Option<string>, referenceNumber: Option<string>,
                        notes: Option<string>, today: string,
                        r: StockOutcome, items': map<string, Item>, ts': seq<StockTransaction>)
    requires key in items
  {
    var item := items[key];
    match NewStockLevel(t, item.currentStock, quantity)
    case None => r == InsufficientStock && items' == items && ts' == ts
    case Some(newStock) =>
      var tx := TransactionFor(NextTransactionId(today, ts), key, item, t, quantity, reason, referenceNumber, notes);
      var updated := item.(currentStock := ClampAtZero(newStock));
      && ts' == ts + [tx]
      && items' == items[key := updated]
      && r == Updated(updated, tx, newStock <= item.reorderLevel)
  }

  /** The `newStock` branches of `updateStock`; `accepted` is false for a
      removal that exceeds the stock. */
  method MoveStock(t: TxType, current: int, quantity: int) returns (accepted: bool, newStock: int)
    ensures accepted <==> NewStockLevel(t, current, quantity).Some?
    ensures accepted ==> newStock == NewStockLevel(t, current, quantity).value
  {
    accepted, newStock := true, current;
    if Adds(t) && quantity > 0 {
      newStock := newStock + quantity;
    } else if Removes(t) && quantity > 0 {
      if current < quantity {
        return false, current;
      }
      newStock := newStock - quantity;
    } else if t == Adjustment && quantity < 0 {
      newStock := newStock + quantity;
    }
  }

  /** `generateTransactionId`: the next `TXN<yyyymmdd><nnnn>` of the day. */
  function NextTransactionId(today: string, ts: seq<StockTransaction>): string {
    NextId(TransactionIds, today, TransactionIdsOf(ts))
  }

  /** Each transaction ID continues the day's sequence, up to number 9999. */
  lemma NextTransactionIdContinues(today: string, ts: seq<StockTransaction>, n: nat)
    requires n < 10000
    requires LastIssued(TransactionIds, today, TransactionIdsOf(ts)) == Some(Format(TransactionIds, today, n))
    ensures NextTransactionId(today, ts) == Format(TransactionIds, today, n + 1)
  {
    DatedContinues("TXN", today, TransactionIdsOf(ts), n);
  }

  function TransactionIdsOf(ts: seq<StockTransaction>): (r: seq<string>)
    ensures |r| == |ts| && forall i :: 0 <= i < |ts| ==> r[i] == ts[i].transactionId
  {
    if ts == [] then [] else TransactionIdsOf(ts[..|ts| - 1]) + [ts[|ts| - 1].transactionId]
  }
}
