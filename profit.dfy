/** Profit reports over the sales ledger. */
module Profit {
  import opened Prelude
  import opened Store
  import opened Sorting

  function ProfitOf(s: SaleRecord): real {
    s.profit
  }

  function QuantityOf(s: SaleRecord): int {
    s.quantity
  }

  /** `sale_date::date = CURRENT_DATE`. */
  function OnDay(today: int): SaleRecord -> bool {
    (s: SaleRecord) => s.saleDate.day == today
  }

  /** `getTodayProfit`: `COALESCE(SUM(profit), 0)` over the sales dated `today`. */
  function TodayProfit(sales: seq<SaleRecord>, today: int): (total: real)
    ensures (forall i :: 0 <= i < |sales| ==> sales[i].saleDate.day != today) ==> total == 0.0
  {
    var todays := Filter(sales, OnDay(today));
    FilterFacts(sales, OnDay(today));
    assert todays != [] ==> todays[0] in sales;
    SumOf(todays, ProfitOf)
  }

  /** Recording a sale adds its profit to today's total if it is dated today, and nothing otherwise. */
  lemma TodayProfitAfterSale(sales: seq<SaleRecord>, record: SaleRecord, today: int)
    ensures TodayProfit(sales + [record], today)
            == TodayProfit(sales, today) + (if record.saleDate.day == today then record.profit else 0.0)
  {
    FilterAppend(sales, [record], OnDay(today));
    SumOfAppend(Filter(sales, OnDay(today)), Filter([record], OnDay(today)), ProfitOf);
  }

  /** The grouping key `(d.name, s.sale_date)`. */
  datatype GroupKey = GroupKey(name: string, saleDate: Timestamp)

  /** The sale joins an inventory row (`JOIN ... ON d.id = s.inventory_id`). */
  function Joins(items: map<Id, Item>): SaleRecord -> bool {
    (s: SaleRecord) => s.inventoryId in items
  }

  /** The sale joins a row and falls in the group `key`. */
  function InGroup(items: map<Id, Item>, key: GroupKey): SaleRecord -> bool {
    (s: SaleRecord) => s.inventoryId in items && GroupKey(items[s.inventoryId].name, s.saleDate) == key
  }

  /** `SUM(s.profit)` within one group. */
  function GroupProfit(items: map<Id, Item>, sales: seq<SaleRecord>, key: GroupKey): real {
    SumOf(Filter(sales, InGroup(items, key)), ProfitOf)
  }

  /** `SUM(s.quantity)` within one group. */
  function GroupUnits(items: map<Id, Item>, sales: seq<SaleRecord>, key: GroupKey): int {
    IntSumOf(Filter(sales, InGroup(items, key)), QuantityOf)
  }

  /** The groups that occur, each once, in order of their first sale. */
  function GroupKeys(items: map<Id, Item>, sales: seq<SaleRecord>): (keys: seq<GroupKey>)
    ensures Distinct(keys)
    ensures forall i :: 0 <= i < |keys| ==> exists j :: 0 <= j < |sales| && InGroup(items, keys[i])(sales[j])
    ensures forall j :: 0 <= j < |sales| && sales[j].inventoryId in items ==>
              GroupKey(items[sales[j].inventoryId].name, sales[j].saleDate) in keys
    decreases |sales|
  {
    if sales == [] then []
    else
      var front := sales[..|sales| - 1];
      var s := sales[|sales| - 1];
      var keys := GroupKeys(items, front);
      assert forall i :: 0 <= i < |front| ==> front[i] == sales[i];
      if s.inventoryId !in items || GroupKey(items[s.inventoryId].name, s.saleDate) in keys then keys
      else keys + [GroupKey(items[s.inventoryId].name, s.saleDate)]
  }

  /** One row of the per-product report. */
  datatype ProductProfit = ProductProfit(name: string, saleDate: Timestamp, totalProfit: real, totalUnitsSold: int)

  function TotalProfitOf(r: ProductProfit): real {
    r.totalProfit
  }

  /** One report row per key, in the order of `keys`. */
  function GroupRows(items: map<Id, Item>, sales: seq<SaleRecord>, keys: seq<GroupKey>): (rows: seq<ProductProfit>)
    ensures |rows| == |keys|
    ensures forall i :: 0 <= i < |keys| ==>
              rows[i] == ProductProfit(keys[i].name, keys[i].saleDate,
                                       GroupProfit(items, sales, keys[i]), GroupUnits(items, sales, keys[i]))
  {
    if keys == [] then []
    else [ProductProfit(keys[0].name, keys[0].saleDate, GroupProfit(items, sales, keys[0]), GroupUnits(items, sales, keys[0]))]
         + GroupRows(items, sales, keys[1..])
  }

  /** `ORDER BY s.sale_date DESC, total_profit DESC`. */
  predicate ProfitOrder(x: ProductProfit, y: ProductProfit) {
    Before(y.saleDate, x.saleDate) || (x.saleDate == y.saleDate && x.totalProfit >= y.totalProfit)
  }

  lemma ProfitOrderTotal()
    ensures Total(ProfitOrder)
  {
  }

  /** `getProfitByProduct`: the grouped rows, latest date first, then highest profit first. */
  function ProfitByProduct(items: map<Id, Item>, sales: seq<SaleRecord>): (rows: seq<ProductProfit>)
    ensures SortedBy(rows, ProfitOrder)
    ensures multiset(rows) == multiset(GroupRows(items, sales, GroupKeys(items, sales)))
    ensures |rows| == |GroupKeys(items, sales)|
  {
    ProfitOrderTotal();
    SortBy(GroupRows(items, sales, GroupKeys(items, sales)), ProfitOrder)
  }

  /** The sum of the groups' profits, over `keys`. */
  function GroupTotal(items: map<Id, Item>, sales: seq<SaleRecord>, keys: seq<GroupKey>): real {
    if keys == [] then 0.0 else GroupProfit(items, sales, keys[0]) + GroupTotal(items, sales, keys[1..])
  }

  lemma {:induction false} GroupRowsTotal(items: map<Id, Item>, sales: seq<SaleRecord>, keys: seq<GroupKey>)
    ensures SumOf(GroupRows(items, sales, keys), TotalProfitOf) == GroupTotal(items, sales, keys)
  {
    if keys != [] {
      GroupRowsTotal(items, sales, keys[1..]);
    }
  }

  lemma {:induction false} GroupTotalAppendKey(items: map<Id, Item>, sales: seq<SaleRecord>, keys: seq<GroupKey>, k: GroupKey)
    ensures GroupTotal(items, sales, keys + [k]) == GroupTotal(items, sales, keys) + GroupProfit(items, sales, k)
  {
    if keys != [] {
      assert (keys + [k])[1..] == keys[1..] + [k];
      GroupTotalAppendKey(items, sales, keys[1..], k);
    }
  }

  /** A new sale adds its profit to its own group and to no other. */
  lemma GroupProfitAppend(items: map<Id, Item>, sales: seq<SaleRecord>, s: SaleRecord, k: GroupKey)
    ensures GroupProfit(items, sales + [s], k)
            == GroupProfit(items, sales, k) + (if InGroup(items, k)(s) then s.profit else 0.0)
  {
    FilterAppend(sales, [s], InGroup(items, k));
    SumOfAppend(Filter(sales, InGroup(items, k)), Filter([s], InGroup(items, k)), ProfitOf);
  }

  /** Over distinct keys, a new sale adds its profit once if its group is among them, else not at all. */
  lemma {:induction false} GroupTotalAppendSale(items: map<Id, Item>, sales: seq<SaleRecord>, s: SaleRecord, keys: seq<GroupKey>)
    requires Distinct(keys)
    ensures GroupTotal(items, sales + [s], keys)
            == GroupTotal(items, sales, keys)
               + (if exists i :: 0 <= i < |keys| && InGroup(items, keys[i])(s) then s.profit else 0.0)
  {
    if keys != [] {
      GroupTotalAppendSale(items, sales, s, keys[1..]);
      GroupProfitAppend(items, sales, s, keys[0]);
      if InGroup(items, keys[0])(s) {
        forall i | 0 <= i < |keys[1..]| ensures !InGroup(items, keys[1..][i])(s) {
          assert keys[1..][i] == keys[i + 1] != keys[0];
        }
      } else {
        if exists i :: 0 <= i < |keys| && InGroup(items, keys[i])(s) {
          var i :| 0 <= i < |keys| && InGroup(items, keys[i])(s);
          assert keys[1..][i - 1] == keys[i];
        }
      }
    }
  }

  /** A group with no sales has profit 0. */
  lemma GroupProfitEmpty(items: map<Id, Item>, sales: seq<SaleRecord>, k: GroupKey)
    requires forall j :: 0 <= j < |sales| ==> !InGroup(items, k)(sales[j])
    ensures GroupProfit(items, sales, k) == 0.0
  {
    FilterFacts(sales, InGroup(items, k));
    assert Filter(sales, InGroup(items, k)) == [];
  }

  /** One more sale adds its profit to the groups' total exactly when it joins a row. */
  lemma PartitionStep(items: map<Id, Item>, front: seq<SaleRecord>, s: SaleRecord)
    ensures GroupTotal(items, front + [s], GroupKeys(items, front + [s]))
            == GroupTotal(items, front, GroupKeys(items, front)) + (if s.inventoryId in items then s.profit else 0.0)
  {
    var sales := front + [s];
    var keys := GroupKeys(items, front);
    assert sales[..|sales| - 1] == front;
    GroupTotalAppendSale(items, front, s, keys);
    if s.inventoryId in items {
      var k := GroupKey(items[s.inventoryId].name, s.saleDate);
      if k in keys {
        var i :| 0 <= i < |keys| && keys[i] == k;
        assert InGroup(items, keys[i])(s);
      } else {
        GroupTotalAppendKey(items, sales, keys, k);
        forall j | 0 <= j < |front| ensures !InGroup(items, k)(front[j]) {
          assert front[j] == sales[j];
        }
        GroupProfitEmpty(items, front, k);
        GroupProfitAppend(items, front, s, k);
      }
    }
  }

  /**
   * Grouping loses and duplicates nothing: the groups' profits add up to the profit of
   * all sales that join an inventory row.
   */
  lemma {:induction false} GroupsPartitionJoinedSales(items: map<Id, Item>, sales: seq<SaleRecord>)
    ensures GroupTotal(items, sales, GroupKeys(items, sales)) == SumOf(Filter(sales, Joins(items)), ProfitOf)
    decreases |sales|
  {
    if sales != [] {
      var front := sales[..|sales| - 1];
      var s := sales[|sales| - 1];
      assert sales == front + [s];
      GroupsPartitionJoinedSales(items, front);
      FilterAppend(front, [s], Joins(items));
      SumOfAppend(Filter(front, Joins(items)), Filter([s], Joins(items)), ProfitOf);
      PartitionStep(items, front, s);
    }
  }

  /** The report's rows add up to the total profit of the sales that join an inventory row. */
  lemma ProfitByProductTotal(items: map<Id, Item>, sales: seq<SaleRecord>)
    ensures SumOf(ProfitByProduct(items, sales), TotalProfitOf) == SumOf(Filter(sales, Joins(items)), ProfitOf)
  {
    var keys := GroupKeys(items, sales);
    ProfitOrderTotal();
    SumOfSortBy(GroupRows(items, sales, keys), ProfitOrder, TotalProfitOf);
    GroupRowsTotal(items, sales, keys);
    GroupsPartitionJoinedSales(items, sales);
  }
}
