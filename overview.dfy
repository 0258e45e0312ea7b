/** The inventory overview: every row with its derived per-piece prices and stock figures, ordered by name. */
module Overview {
  import opened Prelude
  import opened Store
  import opened Sorting
  import Pricing

  /** One row of the overview. */
  datatype OverviewRow = OverviewRow(
    id: Id,
    name: string,
    packSize: int,
    packsInStock: int,
    piecesInStock: int,
    sellingPricePack: Option<real>,
    purchasePricePack: Option<real>,
    sellingPricePiece: real,
    purchasePricePiece: real,
    totalPieces: int,
    stockValue: real,
    stockCost: real,
    potentialProfit: real)

  /**
   * `COALESCE(piece, pack / NULLIF(pack_size, 0), 0)`: the stored piece price, else the pack
   * price split over the pack when both are non-null, else 0. Never fails.
   */
  function DerivedPiecePrice(piece: Option<real>, pack: Option<real>, packSize: int): (p: real)
    ensures piece.Some? ==> p == piece.value
    ensures piece.None? && pack.Some? && packSize != 0 ==> p * packSize as real == pack.value
    ensures piece.None? && (pack.None? || packSize == 0) ==> p == 0.0
  {
    var share := if pack.None? || packSize == 0 then None else Some(pack.value / packSize as real);
    if piece.Some? then piece.value
    else if share.Some? then share.value
    else 0.0
  }

  /** The overview's columns for one inventory row. */
  function DeriveRow(it: Item): (r: OverviewRow)
    ensures r.id == it.id && r.name == it.name && r.packSize == it.packSize
    ensures r.packsInStock == it.packsInStock && r.piecesInStock == it.piecesInStock
    ensures r.sellingPricePack == it.sellingPricePack && r.purchasePricePack == it.purchasePricePack
    ensures r.sellingPricePiece == DerivedPiecePrice(it.sellingPricePiece, it.sellingPricePack, it.packSize)
    ensures r.purchasePricePiece == DerivedPiecePrice(it.purchasePricePiece, it.purchasePricePack, it.packSize)
    ensures r.totalPieces == TotalPieces(it)
    ensures r.stockValue == r.totalPieces as real * r.sellingPricePiece
    ensures r.stockCost == r.totalPieces as real * r.purchasePricePiece
    ensures r.potentialProfit == r.totalPieces as real * (r.sellingPricePiece - r.purchasePricePiece)
  {
    var sell := DerivedPiecePrice(it.sellingPricePiece, it.sellingPricePack, it.packSize);
    var purchase := DerivedPiecePrice(it.purchasePricePiece, it.purchasePricePack, it.packSize);
    var total := it.packsInStock * it.packSize + it.piecesInStock;
    OverviewRow(it.id, it.name, it.packSize, it.packsInStock, it.piecesInStock,
                it.sellingPricePack, it.purchasePricePack, sell, purchase, total,
                total as real * sell, total as real * purchase,
                total as real * sell - total as real * purchase)
  }

  /**
   * The overview's piece prices agree with the sale path's resolver wherever the resolver
   * succeeds, and the resolver fails exactly when one of them comes out as 0.
   */
  lemma DerivedPricesAgreeWithResolver(it: Item)
    ensures var r := DeriveRow(it);
            var resolved := Pricing.ResolvePricing(it.packSize, it.sellingPricePack, it.sellingPricePiece,
                                                   it.purchasePricePack, it.purchasePricePiece);
            && (resolved.Success? <==> r.sellingPricePiece != 0.0 && r.purchasePricePiece != 0.0)
            && (resolved.Success? ==> resolved.value == Pricing.PiecePrices(r.sellingPricePiece, r.purchasePricePiece))
  {
  }

  /** Strings in lexicographic order of their character codes; a prefix comes first. */
  predicate StringLe(a: string, b: string)
    decreases |a|
  {
    a == [] || (b != [] && (a[0] < b[0] || (a[0] == b[0] && StringLe(a[1..], b[1..]))))
  }

  lemma {:induction false} StringLeTotal(a: string, b: string)
    ensures StringLe(a, b) || StringLe(b, a)
    decreases |a|
  {
    if a != [] && b != [] && a[0] == b[0] {
      StringLeTotal(a[1..], b[1..]);
    }
  }

  /** `ORDER BY d.name`. */
  predicate NameOrder(x: OverviewRow, y: OverviewRow) {
    StringLe(x.name, y.name)
  }

  lemma NameOrderTotal()
    ensures Total(NameOrder)
  {
    forall x: OverviewRow, y: OverviewRow ensures NameOrder(x, y) || NameOrder(y, x) {
      StringLeTotal(x.name, y.name);
    }
  }

  /** The derived columns of every row, in row order. */
  function DerivedRows(items: map<Id, Item>, order: seq<Id>): (rows: seq<OverviewRow>)
    requires forall i :: 0 <= i < |order| ==> order[i] in items
    ensures |rows| == |order| && forall i :: 0 <= i < |order| ==> rows[i] == DeriveRow(items[order[i]])
  {
    seq(|order|, i requires 0 <= i < |order| => DeriveRow(items[order[i]]))
  }

  /** `getInventoryOverview`: one derived row per inventory row, sorted by name. */
  function InventoryOverview(items: map<Id, Item>, order: seq<Id>): (rows: seq<OverviewRow>)
    requires forall i :: 0 <= i < |order| ==> order[i] in items
    ensures SortedBy(rows, NameOrder)
    ensures multiset(rows) == multiset(DerivedRows(items, order))
    ensures |rows| == |order|
  {
    NameOrderTotal();
    SortBy(DerivedRows(items, order), NameOrder)
  }

  /** Every inventory row appears in the overview with its derived columns. */
  lemma OverviewListsEveryRow(items: map<Id, Item>, order: seq<Id>, i: nat)
    requires forall j :: 0 <= j < |order| ==> order[j] in items
    requires i < |order|
    ensures DeriveRow(items[order[i]]) in InventoryOverview(items, order)
  {
    var derived := DerivedRows(items, order);
    assert derived[i] in multiset(derived);
  }
}
