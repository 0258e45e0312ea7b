/** Processing one sale against the inventory, as one transaction. */
module Sales {
  import opened Prelude
  import opened Store
  import Pricing

  /** A sale request; the HTTP layer admits it only with a positive quantity. */
  datatype SaleInput = SaleInput(inventoryId: Id, saleType: SaleType, quantity: int)

  datatype SaleError =
    | ItemNotFound
    | NotEnoughPacks
    | PackPricingNotConfigured
    | NotEnoughPieces
    | PricingUnresolved
    | StoreError
  {
    /** The reason string the caller receives; for a store error, the route's fallback text stands in for the store's own message. */
    function Message(): string {
      match this
      case ItemNotFound => "Item not found"
      case NotEnoughPacks => "Not enough packs in stock"
      case PackPricingNotConfigured => "Pack pricing not configured"
      case NotEnoughPieces => "Not enough pieces in stock"
      case PricingUnresolved => "Unable to resolve per-piece pricing"
      case StoreError => "Failed to process sale"
    }
  }

  /** The unit prices a sale is booked at. */
  datatype UnitPrices = UnitPrices(sellingPrice: real, purchasePrice: real)

  /** The stock column a sale of this type draws from. */
  function StockColumn(t: SaleType): (c: Column)
    ensures c.IsStock()
  {
    if t == Pack then PacksInStock else PiecesInStock
  }

  /** Pieces in one unit of this sale type. */
  function PiecesPerUnit(t: SaleType, packSize: PosInt): int {
    if t == Pack then packSize else 1
  }

  /** The stock and pricing checks of one sale and the unit prices it is booked at. */
  function UnitPricesFor(item: Item, input: SaleInput): (r: Result<UnitPrices, SaleError>)
    ensures input.saleType == Pack && item.packsInStock < input.quantity ==> r == Failure(NotEnoughPacks)
    ensures input.saleType == Pack && item.packsInStock >= input.quantity ==>
              (r.Success? <==> Truthy(item.sellingPricePack) && Truthy(item.purchasePricePack))
    ensures input.saleType == Pack && r.Failure? && item.packsInStock >= input.quantity ==>
              r == Failure(PackPricingNotConfigured)
    ensures input.saleType == Pack && r.Success? ==>
              r.value == UnitPrices(item.sellingPricePack.value, item.purchasePricePack.value)
    ensures input.saleType == Piece && item.piecesInStock < input.quantity ==> r == Failure(NotEnoughPieces)
    ensures input.saleType == Piece && item.piecesInStock >= input.quantity ==>
              match Pricing.ResolvePricing(item.packSize, item.sellingPricePack, item.sellingPricePiece,
                                           item.purchasePricePack, item.purchasePricePiece)
              case Failure(_) => r == Failure(PricingUnresolved)
              case Success(p) => r == Success(UnitPrices(p.sellingPricePiece, p.purchasePricePiece))
    ensures r.Success? ==> r.value.sellingPrice != 0.0 && r.value.purchasePrice != 0.0
  {
    if input.saleType == Pack then
      if item.packsInStock < input.quantity then Failure(NotEnoughPacks)
      else if !Truthy(item.sellingPricePack) || !Truthy(item.purchasePricePack) then Failure(PackPricingNotConfigured)
      else Success(UnitPrices(item.sellingPricePack.value, item.purchasePricePack.value))
    else if item.piecesInStock < input.quantity then Failure(NotEnoughPieces)
    else
      match Pricing.ResolvePricing(item.packSize, item.sellingPricePack, item.sellingPricePiece,
                                   item.purchasePricePack, item.purchasePricePiece)
      case Failure(_) => Failure(PricingUnresolved)
      case Success(p) => Success(UnitPrices(p.sellingPricePiece, p.purchasePricePiece))
  }

  /** The item after the sale's single stock decrement. */
  function Decremented(item: Item, t: SaleType, quantity: int): (r: Item)
    ensures t == Pack ==> r.packsInStock == item.packsInStock - quantity && r.piecesInStock == item.piecesInStock
    ensures t == Piece ==> r.piecesInStock == item.piecesInStock - quantity && r.packsInStock == item.packsInStock
    ensures r.(packsInStock := item.packsInStock, piecesInStock := item.piecesInStock) == item
    ensures TotalPieces(r) == TotalPieces(item) - quantity * PiecesPerUnit(t, item.packSize)
  {
    AddToStock(item, StockColumn(t), -quantity)
  }

  /**
   * The effect of a committed sale: the updated row and the appended ledger record,
   * or the error the sale throws.
   */
  function SaleOutcome(items: map<Id, Item>, input: SaleInput, now: Timestamp): (r: Result<(Item, SaleRecord), SaleError>)
    ensures input.inventoryId !in items <==> r == Failure(ItemNotFound)
    ensures input.inventoryId in items ==>
              (r.Failure? <==> UnitPricesFor(items[input.inventoryId], input).Failure?)
    ensures input.inventoryId in items && r.Failure? ==> r.error == UnitPricesFor(items[input.inventoryId], input).error
    ensures r.Success? ==>
              var item := items[input.inventoryId];
              var prices := UnitPricesFor(item, input).value;
              var (updated, record) := r.value;
              && record == SaleRecord(input.inventoryId, input.saleType, input.quantity,
                                      prices.sellingPrice, prices.purchasePrice,
                                      (prices.sellingPrice - prices.purchasePrice) * input.quantity as real, now)
              && updated == Decremented(item, input.saleType, input.quantity)
              && (StockNonNegative(item) ==> StockNonNegative(updated))
              && updated.id == item.id
  {
    if input.inventoryId !in items then Failure(ItemNotFound)
    else
      var item := items[input.inventoryId];
      match UnitPricesFor(item, input)
      case Failure(e) => Failure(e)
      case Success(prices) =>
        var profit := (prices.sellingPrice - prices.purchasePrice) * input.quantity as real;
        Success((Decremented(item, input.saleType, input.quantity),
                 SaleRecord(input.inventoryId, input.saleType, input.quantity,
                            prices.sellingPrice, prices.purchasePrice, profit, now)))
  }

  /**
   * `processSale`: lock and read the row, check stock and prices, insert the ledger record
   * (write 0), decrement one stock field (write 1), commit. Any throw rolls back all writes.
   * `now` is the server's NOW().
   */
  method ProcessSale(db: Database, input: SaleInput, now: Timestamp, fault: StoreFault)
    returns (r: Result<real, SaleError>)
    requires db.Valid()
    requires input.quantity > 0
    modifies db
    ensures db.Valid() && db.order == old(db.order)
    ensures r.Failure? ==> db.items == old(db.items) && db.sales == old(db.sales)
    ensures match SaleOutcome(old(db.items), input, now)
            case Failure(e) => r == Failure(e)
            case Success(outcome) =>
              if fault.Hits(0) || fault.Hits(1) then r == Failure(StoreError)
              else
                && r == Success(outcome.1.profit)
                && db.sales == old(db.sales) + [outcome.1]
                && db.items == old(db.items)[input.inventoryId := outcome.0]
    ensures r.Success? ==> AllStockNonNegative(old(db.items)) ==> AllStockNonNegative(db.items)
  {
    if input.inventoryId !in db.items {
      return Failure(ItemNotFound);
    }
    var item := db.items[input.inventoryId];

    var sellingPrice: real;
    var purchasePrice: real;
    var stockField: Column;
    if input.saleType == Pack {
      if item.packsInStock < input.quantity {
        return Failure(NotEnoughPacks);
      }
      if !Truthy(item.sellingPricePack) || !Truthy(item.purchasePricePack) {
        return Failure(PackPricingNotConfigured);
      }
      sellingPrice := item.sellingPricePack.value;
      purchasePrice := item.purchasePricePack.value;
      stockField := PacksInStock;
    } else {
      if item.piecesInStock < input.quantity {
        return Failure(NotEnoughPieces);
      }
      var pricing := Pricing.ResolvePricing(item.packSize, item.sellingPricePack, item.sellingPricePiece,
                                            item.purchasePricePack, item.purchasePricePiece);
      if pricing.Failure? {
        return Failure(PricingUnresolved);
      }
      sellingPrice := pricing.value.sellingPricePiece;
      purchasePrice := pricing.value.purchasePricePiece;
      stockField := PiecesInStock;
    }

    var profit := (sellingPrice - purchasePrice) * input.quantity as real;

    var ledgerBefore := db.sales;
    if fault.Hits(0) {
      return Failure(StoreError);
    }
    db.sales := db.sales + [SaleRecord(input.inventoryId, input.saleType, input.quantity,
                                       sellingPrice, purchasePrice, profit, now)];
    if fault.Hits(1) {
      db.sales := ledgerBefore;
      return Failure(StoreError);
    }
    db.items := db.items[input.inventoryId := AddToStock(item, stockField, -input.quantity)];
    return Success(profit);
  }

  /** A sale that passes the stock check never drives stock below zero. */
  lemma SaleKeepsStockNonNegative(items: map<Id, Item>, input: SaleInput, now: Timestamp)
    requires AllStockNonNegative(items)
    requires SaleOutcome(items, input, now).Success?
    ensures AllStockNonNegative(items[input.inventoryId := SaleOutcome(items, input, now).value.0])
  {
  }
}
