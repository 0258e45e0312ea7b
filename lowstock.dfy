/** The daily low-stock scan: find un-notified items below their threshold, mail them, flag them. */
module LowStock {
  import opened Prelude
  import opened Store

  /** `calculateTotalStock`: packs plus the loose pieces as a fraction of a pack. */
  function TotalStock(it: Item): (t: real)
    ensures t * it.packSize as real == TotalPieces(it) as real
  {
    it.packsInStock as real + it.piecesInStock as real / it.packSize as real
  }

  /** Comparing total stock with a threshold is comparing whole pieces with the threshold's pieces. */
  lemma TotalStockCrossMultiplied(it: Item, threshold: real)
    ensures TotalStock(it) < threshold <==> (TotalPieces(it) as real) < threshold * it.packSize as real
  {
    var size := it.packSize as real;
    var t := TotalStock(it);
    if t < threshold {
      assert t * size < threshold * size;
    } else {
      assert threshold * size <= t * size;
    }
  }

  /** The row has a threshold and its total stock is below it. */
  predicate IsLow(it: Item) {
    it.lowStockThreshold.Some? && TotalStock(it) < it.lowStockThreshold.value
  }

  /** `low_stock_notified = false AND low_stock_threshold IS NOT NULL`. */
  predicate ScanCandidate(it: Item) {
    !it.lowStockNotified && it.lowStockThreshold.Some?
  }

  /** The rows the scan's SELECT returns, in row order. */
  function ScanRows(items: map<Id, Item>, order: seq<Id>): (rows: seq<Item>)
    requires forall i :: 0 <= i < |order| ==> order[i] in items
    ensures forall i :: 0 <= i < |rows| ==> ScanCandidate(rows[i])
    ensures forall i :: 0 <= i < |order| && ScanCandidate(items[order[i]]) ==> items[order[i]] in rows
    ensures Subsequence(rows, Rows(items, order))
  {
    FilterFacts(Rows(items, order), ScanCandidate);
    Filter(Rows(items, order), ScanCandidate)
  }

  /** The items the scan reports: un-notified, with a threshold, and below it, in row order. */
  function LowStockScan(items: map<Id, Item>, order: seq<Id>): (low: seq<Item>)
    requires forall i :: 0 <= i < |order| ==> order[i] in items
    ensures forall i :: 0 <= i < |low| ==> ScanCandidate(low[i]) && IsLow(low[i]) && low[i] in Rows(items, order)
    ensures forall i :: 0 <= i < |order| ==>
              (items[order[i]] in low <==> ScanCandidate(items[order[i]]) && IsLow(items[order[i]]))
    ensures Subsequence(low, Rows(items, order))
  {
    var rows := ScanRows(items, order);
    var low := Filter(rows, IsLow);
    FilterFacts(rows, IsLow);
    SubsequenceTransitive(low, rows, Rows(items, order));
    forall i | 0 <= i < |low| ensures low[i] in Rows(items, order) {
      var j :| 0 <= j < |rows| && rows[j] == low[i];
      SubsequenceMember(rows, Rows(items, order), j);
    }
    low
  }

  /** The loop over the selected rows that keeps those below their threshold. */
  method CollectLowStock(rows: seq<Item>) returns (lowStockItems: seq<Item>)
    requires forall i :: 0 <= i < |rows| ==> rows[i].lowStockThreshold.Some?
    ensures lowStockItems == Filter(rows, IsLow)
    ensures forall i :: 0 <= i < |lowStockItems| ==>
              lowStockItems[i].lowStockThreshold.Some? && TotalStock(lowStockItems[i]) < lowStockItems[i].lowStockThreshold.value
  {
    lowStockItems := [];
    for i := 0 to |rows|
      invariant lowStockItems == Filter(rows[..i], IsLow)
    {
      var item := rows[i];
      var totalStock := TotalStock(item);
      FilterAppend(rows[..i], [item], IsLow);
      assert rows[..i + 1] == rows[..i] + [item];
      if totalStock < item.lowStockThreshold.value {
        lowStockItems := lowStockItems + [item];
      }
    }
    assert rows[..|rows|] == rows;
    FilterFacts(rows, IsLow);
  }

  /** `items.map(item => item.id)`. */
  function Ids(items: seq<Item>): (ids: seq<Id>)
    ensures |ids| == |items| && forall i :: 0 <= i < |items| ==> ids[i] == items[i].id
  {
    seq(|items|, i requires 0 <= i < |items| => items[i].id)
  }

  /** The table after `UPDATE ... SET low_stock_notified = true WHERE id = ANY(ids)`. */
  function MarkNotified(items: map<Id, Item>, ids: seq<Id>): (r: map<Id, Item>)
    ensures r.Keys == items.Keys
    ensures forall k :: k in items && k in ids ==> r[k] == items[k].(lowStockNotified := true)
    ensures forall k :: k in items && k !in ids ==> r[k] == items[k]
  {
    map k | k in items :: if k in ids then items[k].(lowStockNotified := true) else items[k]
  }

  /**
   * `checkLowStockAndNotify`: select the candidates, collect those below threshold, and if there
   * are any, mail them and then flag them. A failed mail (`mailDelivered` false) or a failed UPDATE
   * is logged and swallowed, so no flag is set. Returns the items handed to the mailer.
   */
  method CheckLowStockAndNotify(db: Database, mailDelivered: bool, fault: StoreFault) returns (mailed: seq<Item>)
    requires db.Valid()
    modifies db
    ensures db.Valid() && db.order == old(db.order) && db.sales == old(db.sales)
    ensures mailed == LowStockScan(old(db.items), old(db.order))
    ensures if mailed != [] && mailDelivered && !fault.Hits(0) then db.items == MarkNotified(old(db.items), Ids(mailed))
            else db.items == old(db.items)
  {
    var rows := ScanRows(db.items, db.order);
    var lowStockItems := CollectLowStock(rows);
    if |lowStockItems| > 0 {
      if !mailDelivered {
        return lowStockItems;
      }
      var ids := Ids(lowStockItems);
      if fault.Hits(0) {
        return lowStockItems;
      }
      db.items := MarkNotified(db.items, ids);
    }
    return lowStockItems;
  }

  /**
   * Once the scan's items are flagged, a second scan of the same table finds nothing:
   * every item it reported is now notified, and every other item was not eligible anyway.
   */
  lemma ScanIdempotent(items: map<Id, Item>, order: seq<Id>)
    requires RowOrder(items, order) && forall k :: k in items ==> items[k].id == k
    ensures LowStockScan(MarkNotified(items, Ids(LowStockScan(items, order))), order) == []
  {
    var low := LowStockScan(items, order);
    var ids := Ids(low);
    var marked := MarkNotified(items, ids);
    forall i | 0 <= i < |order|
      ensures !(ScanCandidate(marked[order[i]]) && IsLow(marked[order[i]]))
    {
      var k := order[i];
      if k !in ids {
        forall j | 0 <= j < |low| ensures low[j] != items[k] {
          assert low[j].id == ids[j] != k;
        }
      }
    }

  }
}
