/** Resolving the per-piece selling and purchase prices of an item. */
module Pricing {
  import opened Prelude
  import opened Store

  datatype PiecePrices = PiecePrices(sellingPricePiece: real, purchasePricePiece: real)

  /** "Unable to resolve per-piece pricing". */
  datatype PricingError = PricingUnresolved

  /** `piece ?? (pack ? pack / packSize : null)`: the piece price, else the truthy pack price split over the pack. */
  function ResolvePiece(piece: Option<real>, pack: Option<real>, packSize: PosInt): Option<real> {
    if piece.Some? then piece
    else if Truthy(pack) then Some(pack.value / packSize as real)
    else None
  }

  /**
   * A price pair that resolves to something usable: an explicit piece price must be non-zero,
   * and without one the pack price must be present and non-zero.
   */
  predicate Configured(piece: Option<real>, pack: Option<real>) {
    if piece.Some? then piece.value != 0.0 else Truthy(pack)
  }

  /** Resolve both per-piece prices; fails when either resolves to null or 0. */
  function ResolvePricing(
    packSize: PosInt,
    sellingPricePack: Option<real>,
    sellingPricePiece: Option<real>,
    purchasePricePack: Option<real>,
    purchasePricePiece: Option<real>): (r: Result<PiecePrices, PricingError>)
    ensures r.Success? <==>
              Configured(sellingPricePiece, sellingPricePack) && Configured(purchasePricePiece, purchasePricePack)
    ensures r.Success? ==> r.value.sellingPricePiece != 0.0 && r.value.purchasePricePiece != 0.0
    ensures r.Success? && sellingPricePiece.Some? ==> r.value.sellingPricePiece == sellingPricePiece.value
    ensures r.Success? && purchasePricePiece.Some? ==> r.value.purchasePricePiece == purchasePricePiece.value
    ensures r.Success? && sellingPricePiece.None? ==>
              r.value.sellingPricePiece * packSize as real == sellingPricePack.value
    ensures r.Success? && purchasePricePiece.None? ==>
              r.value.purchasePricePiece * packSize as real == purchasePricePack.value
  {
    var resolvedSellingPiece := ResolvePiece(sellingPricePiece, sellingPricePack, packSize);
    var resolvedPurchasePiece := ResolvePiece(purchasePricePiece, purchasePricePack, packSize);
    if !Truthy(resolvedSellingPiece) || !Truthy(resolvedPurchasePiece) then Failure(PricingUnresolved)
    else Success(PiecePrices(resolvedSellingPiece.value, resolvedPurchasePiece.value))
  }

  /** A pack of 12 sold for 120 and bought for 60 gives 10 and 5 per piece. */
  lemma ResolvePricingFromPackPrices()
    ensures ResolvePricing(12, Some(120.0), None, Some(60.0), None) == Success(PiecePrices(10.0, 5.0))
  {
  }
}
