/** The notification endpoints: resetting one item's flag and listing every item below threshold. */
module Notifications {
  import opened Prelude
  import opened Store
  import opened LowStock

  /**
   * `POST /reset-notification/:id`: `UPDATE ... SET low_stock_notified = false WHERE id = $1`
   * (write 0). Reports success whenever the statement runs, whether or not a row matched.
   */
  method ResetNotification(db: Database, id: Id, fault: StoreFault) returns (success: bool)
    requires db.Valid()
    modifies db
    ensures db.Valid() && db.order == old(db.order) && db.sales == old(db.sales)
    ensures success <==> !fault.Hits(0)
    ensures success && id in old(db.items) ==>
              db.items == old(db.items)[id := old(db.items)[id].(lowStockNotified := false)]
    ensures !success || id !in old(db.items) ==> db.items == old(db.items)
  {
    if fault.Hits(0) {
      return false;
    }
    if id in db.items {
      db.items := db.items[id := db.items[id].(lowStockNotified := false)];
    }
    return true;
  }

  /** `low_stock_threshold IS NOT NULL`. */
  predicate HasThreshold(it: Item) {
    it.lowStockThreshold.Some?
  }

  /** The row's flag is clear. */
  predicate Unnotified(it: Item) {
    !it.lowStockNotified
  }

  /**
   * `GET /low-stock`: the rows with a threshold, filtered to those below it,
   * whatever their notified flag, in row order.
   */
  function LowStockListing(items: map<Id, Item>, order: seq<Id>): (listed: seq<Item>)
    requires forall i :: 0 <= i < |order| ==> order[i] in items
    ensures forall i :: 0 <= i < |listed| ==> IsLow(listed[i])
    ensures forall i :: 0 <= i < |order| ==> (items[order[i]] in listed <==> IsLow(items[order[i]]))
    ensures Subsequence(listed, Rows(items, order))
  {
    var rows := Filter(Rows(items, order), HasThreshold);
    var listed := Filter(rows, IsLow);
    FilterFacts(Rows(items, order), HasThreshold);
    FilterFacts(rows, IsLow);
    SubsequenceTransitive(listed, rows, Rows(items, order));
    forall i | 0 <= i < |listed| ensures listed[i] in Rows(items, order) {
      var j :| 0 <= j < |rows| && rows[j] == listed[i];
      SubsequenceMember(rows, Rows(items, order), j);
    }
    listed
  }

  /** The scan reports exactly the listed items whose flag is still clear, in the same order. */
  lemma ScanIsUnnotifiedListing(items: map<Id, Item>, order: seq<Id>)
    requires forall i :: 0 <= i < |order| ==> order[i] in items
    ensures LowStockScan(items, order) == Filter(LowStockListing(items, order), Unnotified)
  {
    var rows := Rows(items, order);
    var withThreshold := Filter(rows, HasThreshold);
    FilterTwice(withThreshold, IsLow, Unnotified, Unnotified, IsLow);
    FilterConj(rows, HasThreshold, Unnotified, ScanCandidate);
  }

  /** After a reset, an item below its threshold is reported again by the next scan. */
  lemma ResetMakesEligible(items: map<Id, Item>, order: seq<Id>, id: Id)
    requires RowOrder(items, order) && id in items && IsLow(items[id])
    ensures items[id].(lowStockNotified := false) in LowStockScan(items[id := items[id].(lowStockNotified := false)], order)
  {
    var reset := items[id := items[id].(lowStockNotified := false)];
    var i :| 0 <= i < |order| && order[i] == id;
    assert reset[order[i]] == items[id].(lowStockNotified := false);
  }
}
