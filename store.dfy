/**
 * The two tables every operation reads and writes: `drinks_inventory` (one mutable row per
 * product) and the append-only `daily_sales` ledger, behind one store handle.
 */
module Store {
  import opened Prelude

  /** Primary key of an inventory row. */
  type Id = int

  datatype SaleType = Pack | Piece

  /** A server timestamp: the calendar day (`sale_date::date`) and a time within it. */
  datatype Timestamp = Timestamp(day: int, timeOfDay: int)

  /** Strictly earlier in time. */
  predicate Before(a: Timestamp, b: Timestamp) {
    a.day < b.day || (a.day == b.day && a.timeOfDay < b.timeOfDay)
  }

  /** One row of `drinks_inventory`; prices are nullable NUMERIC columns. */
  datatype Item = Item(
    id: Id,
    name: string,
    packSize: PosInt,
    packsInStock: int,
    piecesInStock: int,
    sellingPricePack: Option<real>,
    purchasePricePack: Option<real>,
    sellingPricePiece: Option<real>,
    purchasePricePiece: Option<real>,
    lowStockThreshold: Option<real>,
    lowStockNotified: bool)

  /** One row of `daily_sales`: unit prices are a snapshot taken at sale time. */
  datatype SaleRecord = SaleRecord(
    inventoryId: Id,
    saleType: SaleType,
    quantity: int,
    sellingPrice: real,
    purchasePrice: real,
    profit: real,
    saleDate: Timestamp)

  /** The columns that an UPDATE statement of the core may assign. */
  datatype Column = PacksInStock | PiecesInStock | PurchasePricePack | SellingPricePack {
    predicate IsStock() { PacksInStock? || PiecesInStock? }

    function Name(): string {
      match this
      case PacksInStock => "packs_in_stock"
      case PiecesInStock => "pieces_in_stock"
      case PurchasePricePack => "purchase_price_pack"
      case SellingPricePack => "selling_price_pack"
    }
  }

  /**
   * A connection or lock failure of the store (a TransientStoreError): `FailsAtWrite(n)` makes the
   * n-th write statement of a transaction (counted from 0) throw. Reads, `BEGIN` and `COMMIT`
   * do not fail in this model.
   */
  datatype StoreFault = Healthy | FailsAtWrite(n: nat) {
    predicate Hits(k: nat) { FailsAtWrite? && n == k }
  }

  /** The error a transaction reports after such a failure and its rollback. */
  datatype StoreFailure = TransientStoreError

  /** JavaScript truthiness of a nullable number: present and non-zero. */
  predicate Truthy(p: Option<real>) {
    p.Some? && p.value != 0.0
  }

  /** All stock of an item counted in pieces. */
  function TotalPieces(it: Item): int {
    it.packsInStock * it.packSize + it.piecesInStock
  }

  predicate StockNonNegative(it: Item) {
    it.packsInStock >= 0 && it.piecesInStock >= 0
  }

  predicate AllStockNonNegative(items: map<Id, Item>) {
    forall k :: k in items ==> StockNonNegative(items[k])
  }

  /** `it` after `UPDATE ... SET col = col + delta` on a stock column. */
  function AddToStock(it: Item, col: Column, delta: int): (r: Item)
    requires col.IsStock()
    ensures col == PacksInStock ==> r == it.(packsInStock := it.packsInStock + delta)
    ensures col == PiecesInStock ==> r == it.(piecesInStock := it.piecesInStock + delta)
    ensures TotalPieces(r) == TotalPieces(it) + delta * (if col == PacksInStock then it.packSize else 1)
  {
    if col == PacksInStock then it.(packsInStock := it.packsInStock + delta)
    else it.(piecesInStock := it.piecesInStock + delta)
  }

  /** The keys of the table, listed in row order, are exactly its rows. */
  predicate RowOrder(items: map<Id, Item>, order: seq<Id>) {
    && Distinct(order)
    && (forall i :: 0 <= i < |order| ==> order[i] in items)
    && (forall k :: k in items ==> k in order)
  }

  /** The table's rows in row order (`SELECT *` without `ORDER BY`). */
  function Rows(items: map<Id, Item>, order: seq<Id>): (rows: seq<Item>)
    requires forall i :: 0 <= i < |order| ==> order[i] in items
    ensures |rows| == |order|
    ensures forall i :: 0 <= i < |order| ==> rows[i] == items[order[i]]
  {
    seq(|order|, i requires 0 <= i < |order| => items[order[i]])
  }

  /** The store handle: the inventory table, its row order and the sales ledger. */
  class Database {
    var items: map<Id, Item>
    var order: seq<Id>
    var sales: seq<SaleRecord>

    ghost predicate Valid()
      reads this
    {
      RowOrder(items, order) && forall k :: k in items ==> items[k].id == k
    }

    constructor (items0: map<Id, Item>, order0: seq<Id>, sales0: seq<SaleRecord>)
      requires RowOrder(items0, order0) && forall k :: k in items0 ==> items0[k].id == k
      ensures Valid()
      ensures items == items0 && order == order0 && sales == sales0
    {
      items, order, sales := items0, order0, sales0;
    }
  }
}
