/** The auto-replenish pass: open packs into loose pieces for items running low on pieces. */
module Replenish {
  import opened Prelude
  import opened Store

  /** An item is replenished while it has fewer loose pieces than this. */
  const PieceThreshold: int := 5

  /** The pass's selection: `pieces_in_stock < 5 AND packs_in_stock > 0`. */
  predicate NeedsReplenish(it: Item) {
    it.piecesInStock < PieceThreshold && it.packsInStock > 0
  }

  /** `Math.max(1, Math.floor(packs / 2))` (Dafny's `/` by 2 is the floor). */
  function PacksToOpen(packs: int): (n: int)
    ensures n >= 1
    ensures packs >= 1 ==> n <= packs
    ensures packs == 1 ==> n == 1
    ensures packs >= 2 ==> 2 * n <= packs < 2 * n + 2 && packs - n == (packs + 1) / 2
  {
    var half := packs / 2;
    if half > 1 then half else 1
  }

  /** One entry of the pass's report. */
  datatype ReplenishResult = ReplenishResult(
    itemId: Id,
    itemName: string,
    packsUsed: int,
    piecesAdded: int,
    newPiecesStock: int,
    newPacksStock: int)

  /** The row after its packs are opened. */
  function Replenished(it: Item): (r: Item)
    ensures r.packsInStock == it.packsInStock - PacksToOpen(it.packsInStock)
    ensures r.piecesInStock == it.piecesInStock + PacksToOpen(it.packsInStock) * it.packSize
    ensures r.(packsInStock := it.packsInStock, piecesInStock := it.piecesInStock) == it
    ensures TotalPieces(r) == TotalPieces(it)
    ensures NeedsReplenish(it) ==> StockNonNegative(it) ==> StockNonNegative(r)
  {
    var packsToOpen := PacksToOpen(it.packsInStock);
    it.(packsInStock := it.packsInStock - packsToOpen,
        piecesInStock := it.piecesInStock + packsToOpen * it.packSize)
  }

  /** The ids the pass locks and updates, in row order. */
  function Selection(items: map<Id, Item>, order: seq<Id>): (ids: seq<Id>)
    ensures forall i :: 0 <= i < |ids| ==> ids[i] in order && ids[i] in items && NeedsReplenish(items[ids[i]])
    ensures forall i :: 0 <= i < |order| && order[i] in items && NeedsReplenish(items[order[i]]) ==> order[i] in ids
    ensures Subsequence(ids, order)
    ensures Distinct(order) ==> Distinct(ids)
  {
    var selects := (id: Id) => id in items && NeedsReplenish(items[id]);
    FilterFacts(order, selects);
    Filter(order, selects)
  }

  /** The table after the rows listed in `ids` are replenished. */
  function ReplenishedItems(items: map<Id, Item>, ids: seq<Id>): (r: map<Id, Item>)
    ensures r.Keys == items.Keys
    ensures forall k :: k in items ==> r[k].id == items[k].id
  {
    map k | k in items :: if k in ids then Replenished(items[k]) else items[k]
  }

  lemma ReplenishedItemsStep(items: map<Id, Item>, ids: seq<Id>, k: Id)
    requires k in items && k !in ids
    ensures ReplenishedItems(items, ids + [k]) == ReplenishedItems(items, ids)[k := Replenished(items[k])]
  {
  }

  lemma ReportStep(items: map<Id, Item>, ids: seq<Id>, k: Id)
    requires forall i :: 0 <= i < |ids| ==> ids[i] in items
    requires k in items
    ensures Report(items, ids + [k]) == Report(items, ids) + [ResultFor(items[k])]
  {
    assert (ids + [k])[..|ids|] == ids;
  }

  /** One iteration of the pass: the i-th selected row is still as selected, and updating it extends both the table and the report. */
  lemma ReplenishIteration(before: map<Id, Item>, selected: seq<Id>, i: nat)
    requires Distinct(selected) && i < |selected|
    requires forall j :: 0 <= j < |selected| ==> selected[j] in before
    ensures var k := selected[i];
            && ReplenishedItems(before, selected[..i])[k] == before[k]
            && ReplenishedItems(before, selected[..i + 1]) == ReplenishedItems(before, selected[..i])[k := Replenished(before[k])]
            && Report(before, selected[..i + 1]) == Report(before, selected[..i]) + [ResultFor(before[k])]
  {
    var k := selected[i];
    assert selected[..i + 1] == selected[..i] + [k];
    assert k !in selected[..i];
    ReplenishedItemsStep(before, selected[..i], k);
    ReportStep(before, selected[..i], k);
  }

  /** The report entry for one replenished row: what was opened and the stock left afterwards. */
  function ResultFor(it: Item): (e: ReplenishResult)
    ensures e.itemId == it.id && e.itemName == it.name
    ensures e.packsUsed == PacksToOpen(it.packsInStock) && e.piecesAdded == e.packsUsed * it.packSize
    ensures e.newPacksStock == it.packsInStock - e.packsUsed && e.newPiecesStock == it.piecesInStock + e.piecesAdded
    ensures e.newPacksStock * it.packSize + e.newPiecesStock == TotalPieces(it)
  {
    var r := Replenished(it);
    ReplenishResult(it.id, r.name, PacksToOpen(it.packsInStock), PacksToOpen(it.packsInStock) * it.packSize,
                    r.piecesInStock, r.packsInStock)
  }

  /** The pass's report: one entry per id of `ids`, in that order. */
  function Report(items: map<Id, Item>, ids: seq<Id>): (rs: seq<ReplenishResult>)
    requires forall i :: 0 <= i < |ids| ==> ids[i] in items
    ensures |rs| == |ids|
  {
    if ids == [] then []
    else Report(items, ids[..|ids| - 1]) + [ResultFor(items[ids[|ids| - 1]])]
  }

  /** The report lists, in order, one entry per id, each describing that row's replenishment. */
  lemma {:induction false} ReportEntries(items: map<Id, Item>, ids: seq<Id>)
    requires forall i :: 0 <= i < |ids| ==> ids[i] in items
    ensures forall i :: 0 <= i < |ids| ==> Report(items, ids)[i] == ResultFor(items[ids[i]])
    decreases |ids|
  {
    if ids != [] {
      var prefix := ids[..|ids| - 1];
      ReportEntries(items, prefix);
      forall i | 0 <= i < |ids|
        ensures Report(items, ids)[i] == ResultFor(items[ids[i]])
      {
        if i < |prefix| {
          assert ids[i] == prefix[i];
        }
      }
    }
  }

  /**
   * The whole pass on a table: exactly the selected rows change, each converting
   * `PacksToOpen` packs into pieces, and every row keeps its total pieces.
   */
  lemma {:induction false} ReplenishPass(items: map<Id, Item>, order: seq<Id>)
    requires forall i :: 0 <= i < |order| ==> order[i] in items
    ensures var r := ReplenishedItems(items, Selection(items, order));
            && r.Keys == items.Keys
            && (forall i :: 0 <= i < |order| ==>
                  var k := order[i];
                  if NeedsReplenish(items[k]) then r[k] == Replenished(items[k]) else r[k] == items[k])
            && (forall k :: k in items ==> TotalPieces(r[k]) == TotalPieces(items[k]))
            && (AllStockNonNegative(items) ==> AllStockNonNegative(r))
  {
    var sel := Selection(items, order);
    var r := ReplenishedItems(items, sel);
    forall k | k in items && AllStockNonNegative(items)
      ensures StockNonNegative(r[k])
    {
      if k in sel {
        var i :| 0 <= i < |sel| && sel[i] == k;
        assert NeedsReplenish(items[k]);
      }
    }
  }

  /** Worked examples: 4 packs of 12 with 2 pieces, and 1 pack of 6 with no pieces. */
  lemma ReplenishExamples(it: Item)
    ensures it.packSize == 12 && it.packsInStock == 4 && it.piecesInStock == 2 ==>
              Replenished(it).packsInStock == 2 && Replenished(it).piecesInStock == 26
    ensures it.packSize == 6 && it.packsInStock == 1 && it.piecesInStock == 0 ==>
              Replenished(it).packsInStock == 0 && Replenished(it).piecesInStock == 6
              && !NeedsReplenish(Replenished(it))
  {
  }

  /** `UPDATE ... SET packs_in_stock = packs_in_stock - $1, pieces_in_stock = pieces_in_stock + $2 WHERE id = $3 RETURNING ...` */
  method OpenPacks(db: Database, id: Id, packsToOpen: int, piecesToAdd: int) returns (updated: Item)
    requires db.Valid() && id in db.items
    modifies db
    ensures db.Valid() && db.order == old(db.order) && db.sales == old(db.sales)
    ensures updated == old(db.items)[id].(packsInStock := old(db.items)[id].packsInStock - packsToOpen,
                                          piecesInStock := old(db.items)[id].piecesInStock + piecesToAdd)
    ensures db.items == old(db.items)[id := updated]
  {
    var current := db.items[id];
    db.items := db.items[id := current.(packsInStock := current.packsInStock - packsToOpen,
                                        piecesInStock := current.piecesInStock + piecesToAdd)];
    updated := db.items[id];
  }

  /** The pass after its first `i` updates: the table and the report cover `selected[..i]`. */
  ghost predicate Progress(items: map<Id, Item>, report: seq<ReplenishResult>, before: map<Id, Item>, selected: seq<Id>, i: nat) {
    && i <= |selected|
    && Distinct(selected)
    && (forall j :: 0 <= j < |selected| ==> selected[j] in before)
    && items == ReplenishedItems(before, selected[..i])
    && report == Report(before, selected[..i])
  }

  /** Before the first update nothing has changed and the report is empty. */
  lemma ProgressStart(items: map<Id, Item>, order: seq<Id>)
    requires RowOrder(items, order)
    ensures Progress(items, [], items, Selection(items, order), 0)
  {
    var sel := Selection(items, order);
    assert sel[..0] == [];
    assert ReplenishedItems(items, []) == items;
  }

  /** After the last update the table and the report cover the whole selection. */
  lemma ProgressDone(items: map<Id, Item>, report: seq<ReplenishResult>, before: map<Id, Item>, selected: seq<Id>)
    requires Progress(items, report, before, selected, |selected|)
    ensures items == ReplenishedItems(before, selected) && report == Report(before, selected)
  {
    assert selected[..|selected|] == selected;
  }

  /**
   * One iteration of the pass on the `i`-th selected row `item`, as read by the locking
   * SELECT: compute how many packs to open, run the UPDATE and append the report entry.
   */
  method ReplenishRow(db: Database, ghost before: map<Id, Item>, ghost selected: seq<Id>, i: nat, item: Item,
                      report: seq<ReplenishResult>)
    returns (report': seq<ReplenishResult>)
    requires db.Valid() && Progress(db.items, report, before, selected, i) && i < |selected|
    requires item == before[selected[i]]
    modifies db
    ensures db.Valid() && db.order == old(db.order) && db.sales == old(db.sales)
    ensures Progress(db.items, report', before, selected, i + 1)
  {
    ReplenishIteration(before, selected, i);
    assert item.id == selected[i];
    var packsToOpen := PacksToOpen(item.packsInStock);
    var piecesToAdd := packsToOpen * item.packSize;
    var updated := OpenPacks(db, item.id, packsToOpen, piecesToAdd);
    assert updated == Replenished(item);
    var entry := ReplenishResult(item.id, updated.name, packsToOpen, piecesToAdd, updated.piecesInStock, updated.packsInStock);
    assert entry == ResultFor(item);
    report' := report + [entry];
  }

  /**
   * `autoReplenishStock`: select and lock the rows that need replenishing, update each
   * (write i is the UPDATE of the i-th selected row) and collect the report; commit, or on
   * any failure roll the whole batch back.
   */
  method AutoReplenishStock(db: Database, fault: StoreFault) returns (r: Result<seq<ReplenishResult>, StoreFailure>)
    requires db.Valid()
    modifies db
    ensures db.Valid() && db.order == old(db.order) && db.sales == old(db.sales)
    ensures var sel := Selection(old(db.items), old(db.order));
            && (r.Failure? <==> fault.FailsAtWrite? && fault.n < |sel|)
            && (r.Failure? ==> db.items == old(db.items))
            && (r.Success? ==> db.items == ReplenishedItems(old(db.items), sel) && r.value == Report(old(db.items), sel))
  {
    var selected := Selection(db.items, db.order);
    ghost var before := db.items;
    var snapshot := db.items;
    var replenishedItems: seq<ReplenishResult> := [];
    ProgressStart(db.items, db.order);
    for i := 0 to |selected|
      invariant Progress(db.items, replenishedItems, before, selected, i)
      invariant fault.FailsAtWrite? ==> fault.n >= i
      invariant db.Valid() && db.order == old(db.order) && db.sales == old(db.sales)
    {
      if fault.Hits(i) {
        db.items := snapshot;
        return Failure(TransientStoreError);
      }
      replenishedItems := ReplenishRow(db, before, selected, i, snapshot[selected[i]], replenishedItems);
    }
    ProgressDone(db.items, replenishedItems, before, selected);
    return Success(replenishedItems);
  }
}
