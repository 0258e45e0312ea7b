/** Restocking one item: a partial `UPDATE` built from whichever inputs are supplied. */
module Restock {
  import opened Prelude
  import opened Store

  /** The request body: stock deltas and new pack prices, each optional. */
  datatype RestockInput = RestockInput(
    inventoryId: Id,
    packsAdded: Option<int>,
    piecesAdded: Option<int>,
    purchasePricePack: Option<real>,
    sellingPricePack: Option<real>)

  /** `NoRestockData` is "No restock data provided"; `StoreError` is the store's own error, rethrown. */
  datatype RestockError = NoRestockData | StoreError

  /** JavaScript truthiness of a nullable integer: present and non-zero. */
  predicate TruthyInt(d: Option<int>) {
    d.Some? && d.value != 0
  }

  /** Whether the input supplies a value for this column (a truthy field). */
  predicate Supplies(input: RestockInput, c: Column) {
    match c
    case PacksInStock => TruthyInt(input.packsAdded)
    case PiecesInStock => TruthyInt(input.piecesAdded)
    case PurchasePricePack => Truthy(input.purchasePricePack)
    case SellingPricePack => Truthy(input.sellingPricePack)
  }

  /** All four inputs are falsy. */
  predicate NoData(input: RestockInput) {
    !TruthyInt(input.packsAdded) && !TruthyInt(input.piecesAdded)
    && !Truthy(input.purchasePricePack) && !Truthy(input.sellingPricePack)
  }

  /** The position at which the builder considers a column. */
  function Rank(c: Column): nat {
    match c
    case PacksInStock => 0
    case PiecesInStock => 1
    case PurchasePricePack => 2
    case SellingPricePack => 3
  }

  /** The column the builder considers at position `j`. */
  function ColumnAt(j: nat): (c: Column)
    requires j < 4
    ensures Rank(c) == j
  {
    if j == 0 then PacksInStock else if j == 1 then PiecesInStock
    else if j == 2 then PurchasePricePack else SellingPricePack
  }

  /** A bound statement parameter. */
  datatype Param = IntParam(i: int) | PriceParam(p: real)

  /**
   * One entry of `updates`: `col = col + $k` for a stock column,
   * `col = $k` for a price column, where k is `placeholder`.
   */
  datatype SetClause = SetClause(column: Column, placeholder: nat)

  /** `UPDATE drinks_inventory SET <sets> WHERE id = $<whereParam> RETURNING *`. */
  datatype UpdateStatement = UpdateStatement(sets: seq<SetClause>, whereParam: nat)

  /** A decimal digit character. */
  predicate IsDigit(ch: char) {
    '0' <= ch <= '9'
  }

  /** The decimal numeral of `n`, as JavaScript's template string renders it. */
  function NatToString(n: nat): (s: string)
    ensures |s| >= 1 && forall i :: 0 <= i < |s| ==> IsDigit(s[i])
    decreases n
  {
    var last := ((n % 10) + '0' as int) as char;
    if n < 10 then [last] else NatToString(n / 10) + [last]
  }

  /** The number a non-empty string of decimal digits denotes; `None` for anything else. */
  function ParseNat(s: string): Option<nat>
    decreases |s|
  {
    if s == [] || !IsDigit(s[|s| - 1]) then None
    else
      var d := (s[|s| - 1] as int) - ('0' as int);
      if |s| == 1 then Some(d)
      else
        match ParseNat(s[..|s| - 1])
        case None => None
        case Some(m) => Some(m * 10 + d)
  }

  /** Reading a rendered placeholder number gives the number back. */
  lemma {:induction false} ParseNatToString(n: nat)
    ensures ParseNat(NatToString(n)) == Some(n)
    decreases n
  {
    var s := NatToString(n);
    if n >= 10 {
      ParseNatToString(n / 10);
      assert s[..|s| - 1] == NatToString(n / 10);
    }
  }

  /** The text after the last `$` of `s`, or `None` when `s` has no `$`. */
  function AfterLastDollar(s: string): Option<string>
    decreases |s|
  {
    if s == [] then None
    else if s[|s| - 1] == '$' then Some([])
    else
      match AfterLastDollar(s[..|s| - 1])
      case None => None
      case Some(t) => Some(t + [s[|s| - 1]])
  }

  lemma {:induction false} AfterLastDollarDigits(prefix: string, digits: string)
    requires forall i :: 0 <= i < |digits| ==> IsDigit(digits[i])
    ensures AfterLastDollar(prefix + "$" + digits) == Some(digits)
    decreases |digits|
  {
    var s := prefix + "$" + digits;
    if digits != [] {
      var front := digits[..|digits| - 1];
      AfterLastDollarDigits(prefix, front);
      assert s[..|s| - 1] == prefix + "$" + front;
      assert front + [digits[|digits| - 1]] == digits;
    } else {
      assert s[|s| - 1] == '$';
    }
  }

  /** The placeholder number a rendered clause refers to: the numeral after its last `$`. */
  function PlaceholderOf(text: string): Option<nat> {
    match AfterLastDollar(text)
    case None => None
    case Some(t) => ParseNat(t)
  }

  /** The text pushed onto `updates` for a clause: `col = col + $k` or `col = $k`. */
  function ClauseText(c: SetClause): (text: string)
    ensures PlaceholderOf(text) == Some(c.placeholder)
  {
    var name := c.column.Name();
    var target := if c.column.IsStock() then name + " = " + name + " + " else name + " = ";
    AfterLastDollarDigits(target, NatToString(c.placeholder));
    ParseNatToString(c.placeholder);
    target + "$" + NatToString(c.placeholder)
  }

  /** The row the restock is meant to produce: deltas added to stock, supplied prices overwritten. */
  function RestockRow(row: Item, input: RestockInput): (r: Item)
    ensures r.packsInStock == row.packsInStock + (if TruthyInt(input.packsAdded) then input.packsAdded.value else 0)
    ensures r.piecesInStock == row.piecesInStock + (if TruthyInt(input.piecesAdded) then input.piecesAdded.value else 0)
    ensures r.purchasePricePack == (if Truthy(input.purchasePricePack) then input.purchasePricePack else row.purchasePricePack)
    ensures r.sellingPricePack == (if Truthy(input.sellingPricePack) then input.sellingPricePack else row.sellingPricePack)
    ensures r.(packsInStock := row.packsInStock, piecesInStock := row.piecesInStock,
               purchasePricePack := row.purchasePricePack, sellingPricePack := row.sellingPricePack) == row
    ensures NoData(input) ==> r == row
  {
    var packs := if TruthyInt(input.packsAdded) then row.packsInStock + input.packsAdded.value else row.packsInStock;
    var pieces := if TruthyInt(input.piecesAdded) then row.piecesInStock + input.piecesAdded.value else row.piecesInStock;
    var purchase := if Truthy(input.purchasePricePack) then input.purchasePricePack else row.purchasePricePack;
    var selling := if Truthy(input.sellingPricePack) then input.sellingPricePack else row.sellingPricePack;
    row.(packsInStock := packs, piecesInStock := pieces, purchasePricePack := purchase, sellingPricePack := selling)
  }

  /**
   * SQL's meaning of one SET clause: its right-hand side is evaluated on the original row
   * `orig` and assigned into `acc`; a placeholder out of range or a parameter of the wrong
   * kind makes the statement fail.
   */
  function ApplyClause(orig: Item, acc: Item, c: SetClause, params: seq<Param>): Option<Item> {
    if c.placeholder < 1 || c.placeholder > |params| then None
    else
      match (c.column, params[c.placeholder - 1])
      case (PacksInStock, IntParam(d)) => Some(acc.(packsInStock := orig.packsInStock + d))
      case (PiecesInStock, IntParam(d)) => Some(acc.(piecesInStock := orig.piecesInStock + d))
      case (PurchasePricePack, PriceParam(p)) => Some(acc.(purchasePricePack := Some(p)))
      case (SellingPricePack, PriceParam(p)) => Some(acc.(sellingPricePack := Some(p)))
      case _ => None
  }

  /** A whole SET list on one row: all clauses read `orig`, the assignments accumulate. */
  function ExecuteSets(orig: Item, sets: seq<SetClause>, params: seq<Param>): Option<Item>
    decreases |sets|
  {
    if sets == [] then Some(orig)
    else
      match ExecuteSets(orig, sets[..|sets| - 1], params)
      case None => None
      case Some(acc) => ApplyClause(orig, acc, sets[|sets| - 1], params)
  }

  /** Every placeholder of `sets` refers to one of the first `n` parameters. */
  predicate Bound(sets: seq<SetClause>, n: nat) {
    forall k :: 0 <= k < |sets| ==> 1 <= sets[k].placeholder <= n
  }

  /** Binding more parameters does not change a SET list whose placeholders are all bound already. */
  lemma {:induction false} ExecuteSetsExtend(orig: Item, sets: seq<SetClause>, params: seq<Param>, extra: seq<Param>)
    requires Bound(sets, |params|)
    ensures ExecuteSets(orig, sets, params + extra) == ExecuteSets(orig, sets, params)
    decreases |sets|
  {
    if sets != [] {
      var front := sets[..|sets| - 1];
      assert Bound(front, |params|) by {
        forall k | 0 <= k < |front| ensures 1 <= front[k].placeholder <= |params| {
          assert front[k] == sets[k];
        }
      }
      ExecuteSetsExtend(orig, front, params, extra);
      var last := sets[|sets| - 1];
      assert (params + extra)[last.placeholder - 1] == params[last.placeholder - 1];
    }
  }

  /** What the statement does to the table, and the rows `RETURNING *` yields; `None` if it fails. */
  function RunUpdate(items: map<Id, Item>, stmt: UpdateStatement, params: seq<Param>): Option<(map<Id, Item>, seq<Item>)> {
    if stmt.whereParam < 1 || stmt.whereParam > |params| || !params[stmt.whereParam - 1].IntParam? then None
    else
      var id := params[stmt.whereParam - 1].i;
      if id !in items then Some((items, []))
      else
        match ExecuteSets(items[id], stmt.sets, params)
        case None => None
        case Some(row) => Some((items[id := row], [row]))
  }

  /** `input` with only the fields the builder considers before position `j`. */
  function Upto(input: RestockInput, j: nat): RestockInput {
    RestockInput(input.inventoryId,
                 if j > 0 then input.packsAdded else None,
                 if j > 1 then input.piecesAdded else None,
                 if j > 2 then input.purchasePricePack else None,
                 if j > 3 then input.sellingPricePack else None)
  }

  /** The parameter bound for a supplied column. */
  function ParamFor(input: RestockInput, c: Column): Param
    requires Supplies(input, c)
  {
    match c
    case PacksInStock => IntParam(input.packsAdded.value)
    case PiecesInStock => IntParam(input.piecesAdded.value)
    case PurchasePricePack => PriceParam(input.purchasePricePack.value)
    case SellingPricePack => PriceParam(input.sellingPricePack.value)
  }

  /** The builder's state once the columns before position `j` have been considered. */
  ghost predicate Built(input: RestockInput, j: nat, updates: seq<SetClause>, values: seq<Param>, idx: nat) {
    && idx == |updates| + 1 && |values| == |updates|
    && (forall k :: 0 <= k < |updates| ==> updates[k].placeholder == k + 1)
    && (forall k :: 0 <= k < |updates| ==> Supplies(input, updates[k].column) && Rank(updates[k].column) < j)
    && (forall c: Column :: Supplies(input, c) && Rank(c) < j ==> exists k :: 0 <= k < |updates| && updates[k].column == c)
    && (forall i, k :: 0 <= i < k < |updates| ==> Rank(updates[i].column) < Rank(updates[k].column))
    && (forall row: Item :: ExecuteSets(row, updates, values) == Some(RestockRow(row, Upto(input, j))))
  }

  lemma BuiltStart(input: RestockInput)
    ensures Built(input, 0, [], [], 1)
  {
  }

  /** Considering a column the input does not supply changes nothing. */
  lemma BuiltSkip(input: RestockInput, j: nat, updates: seq<SetClause>, values: seq<Param>, idx: nat)
    requires j < 4 && Built(input, j, updates, values, idx) && !Supplies(input, ColumnAt(j))
    ensures Built(input, j + 1, updates, values, idx)
  {
    forall row: Item ensures RestockRow(row, Upto(input, j + 1)) == RestockRow(row, Upto(input, j)) {
    }
    forall c: Column | Supplies(input, c) && Rank(c) < j + 1
      ensures exists k :: 0 <= k < |updates| && updates[k].column == c
    {
      assert Rank(c) != j;
    }
  }

  /** On one row, the clause of the `j`-th column, applied after the earlier ones, adds that column's update. */
  lemma PushRow(row: Item, input: RestockInput, j: nat, updates: seq<SetClause>, values: seq<Param>)
    requires j < 4 && Supplies(input, ColumnAt(j))
    requires Bound(updates, |values|)
    requires ExecuteSets(row, updates, values) == Some(RestockRow(row, Upto(input, j)))
    ensures ExecuteSets(row, updates + [SetClause(ColumnAt(j), |values| + 1)], values + [ParamFor(input, ColumnAt(j))])
            == Some(RestockRow(row, Upto(input, j + 1)))
  {
    var p := ParamFor(input, ColumnAt(j));
    var updates' := updates + [SetClause(ColumnAt(j), |values| + 1)];
    var values' := values + [p];
    ExecuteSetsExtend(row, updates, values, [p]);
    assert updates'[..|updates'| - 1] == updates;
    assert values'[|values|] == p;
  }

  /** Considering a column the input supplies appends its clause `$idx` and its value. */
  lemma BuiltPush(input: RestockInput, j: nat, c: Column, p: Param, updates: seq<SetClause>, values: seq<Param>, idx: nat)
    requires j < 4 && Built(input, j, updates, values, idx)
    requires c == ColumnAt(j) && Supplies(input, c) && p == ParamFor(input, c)
    ensures Built(input, j + 1, updates + [SetClause(c, idx)], values + [p], idx + 1)
  {
    var updates' := updates + [SetClause(c, idx)];
    var values' := values + [p];
    assert Bound(updates, |values|);
    forall row: Item ensures ExecuteSets(row, updates', values') == Some(RestockRow(row, Upto(input, j + 1))) {
      PushRow(row, input, j, updates, values);
    }
    forall c': Column | Supplies(input, c') && Rank(c') < j + 1
      ensures exists k :: 0 <= k < |updates'| && updates'[k].column == c'
    {
      if Rank(c') == j {
        assert updates'[|updates|].column == c';
      } else {
        var k :| 0 <= k < |updates| && updates[k].column == c';
        assert updates'[k].column == c';
      }
    }
  }

  /** After all four columns, the builder's state is the finished statement. */
  lemma BuiltDone(input: RestockInput, updates: seq<SetClause>, values: seq<Param>, idx: nat)
    requires Built(input, 4, updates, values, idx)
    ensures idx == |updates| + 1 && |values| == |updates|
    ensures forall k :: 0 <= k < |updates| ==> updates[k].placeholder == k + 1
    ensures forall k :: 0 <= k < |updates| ==> Supplies(input, updates[k].column)
    ensures forall j, k :: 0 <= j < k < |updates| ==> Rank(updates[j].column) < Rank(updates[k].column)
    ensures forall c: Column :: Supplies(input, c) ==> exists k :: 0 <= k < |updates| && updates[k].column == c
    ensures updates == [] <==> NoData(input)
    ensures forall row: Item :: ExecuteSets(row, updates, values) == Some(RestockRow(row, input))
  {
    assert Upto(input, 4) == input;
    forall c: Column | Supplies(input, c) ensures exists k :: 0 <= k < |updates| && updates[k].column == c {
      assert Rank(c) < 4;
    }
    if updates == [] {
      assert !Supplies(input, PacksInStock) && !Supplies(input, PiecesInStock);
      assert !Supplies(input, PurchasePricePack) && !Supplies(input, SellingPricePack);
    } else {
      assert Supplies(input, updates[0].column);
    }
  }

  /**
   * One `if (input.<field>) { updates.push(...); values.push(...); idx++ }` block of the
   * builder, for the column at position `j`.
   */
  method ConsiderColumn(input: RestockInput, j: nat, updates: seq<SetClause>, values: seq<Param>, idx: nat)
    returns (updates': seq<SetClause>, values': seq<Param>, idx': nat)
    requires j < 4 && Built(input, j, updates, values, idx)
    ensures Built(input, j + 1, updates', values', idx')
  {
    var column := ColumnAt(j);
    if Supplies(input, column) {
      var p := ParamFor(input, column);
      BuiltPush(input, j, column, p, updates, values, idx);
      updates' := updates + [SetClause(column, idx)];
      values' := values + [p];
      idx' := idx + 1;
    } else {
      BuiltSkip(input, j, updates, values, idx);
      updates', values', idx' := updates, values, idx;
    }
  }

  /**
   * The builder: one clause per supplied input, in the order packs, pieces, purchase price,
   * selling price, numbered `$1, $2, ...`, with `values[k]` bound to `$(k+1)`.
   */
  method BuildSetClauses(input: RestockInput) returns (updates: seq<SetClause>, values: seq<Param>, idx: nat)
    ensures idx == |updates| + 1 && |values| == |updates|
    ensures forall k :: 0 <= k < |updates| ==> updates[k].placeholder == k + 1
    ensures forall k :: 0 <= k < |updates| ==> Supplies(input, updates[k].column)
    ensures forall c: Column :: Supplies(input, c) ==> exists k :: 0 <= k < |updates| && updates[k].column == c
    ensures forall j, k :: 0 <= j < k < |updates| ==> Rank(updates[j].column) < Rank(updates[k].column)
    ensures updates == [] <==> NoData(input)
    ensures forall row: Item :: ExecuteSets(row, updates, values) == Some(RestockRow(row, input))
  {
    updates, values, idx := [], [], 1;
    BuiltStart(input);
    updates, values, idx := ConsiderColumn(input, 0, updates, values, idx);
    updates, values, idx := ConsiderColumn(input, 1, updates, values, idx);
    updates, values, idx := ConsiderColumn(input, 2, updates, values, idx);
    updates, values, idx := ConsiderColumn(input, 3, updates, values, idx);
    BuiltDone(input, updates, values, idx);
  }

  /**
   * `restockItem`: build the update, reject an empty one, bind the id last and run the
   * statement (write 0); a missing row updates nothing and yields no row.
   */
  method RestockItem(db: Database, input: RestockInput, fault: StoreFault) returns (r: Result<Option<Item>, RestockError>)
    requires db.Valid()
    modifies db
    ensures db.Valid() && db.order == old(db.order) && db.sales == old(db.sales)
    ensures NoData(input) ==> r == Failure(NoRestockData)
    ensures !NoData(input) && fault.Hits(0) ==> r == Failure(StoreError)
    ensures r.Failure? ==> db.items == old(db.items)
    ensures !NoData(input) && !fault.Hits(0) ==>
              if input.inventoryId in old(db.items) then
                var row := RestockRow(old(db.items)[input.inventoryId], input);
                r == Success(Some(row)) && db.items == old(db.items)[input.inventoryId := row]
              else
                r == Success(None) && db.items == old(db.items)
  {
    var updates, values, idx := BuildSetClauses(input);
    if |updates| == 0 {
      return Failure(NoRestockData);
    }
    if input.inventoryId in db.items {
      ExecuteSetsExtend(db.items[input.inventoryId], updates, values, [IntParam(input.inventoryId)]);
    }
    values := values + [IntParam(input.inventoryId)];
    var stmt := UpdateStatement(updates, idx);
    if fault.Hits(0) {
      return Failure(StoreError);
    }
    var outcome := RunUpdate(db.items, stmt, values);
    assert outcome.Some?;
    db.items := outcome.value.0;
    var rows := outcome.value.1;
    return Success(if |rows| > 0 then Some(rows[0]) else None);
  }

  /** A restock changes a row's total pieces by exactly the supplied deltas. */
  lemma RestockChangesTotalByDeltas(row: Item, input: RestockInput)
    ensures TotalPieces(RestockRow(row, input)) == TotalPieces(row)
              + (if TruthyInt(input.packsAdded) then input.packsAdded.value * row.packSize else 0)
              + (if TruthyInt(input.piecesAdded) then input.piecesAdded.value else 0)
  {
  }

  /** With non-negative deltas, a restock keeps stock non-negative. */
  lemma RestockKeepsStockNonNegative(row: Item, input: RestockInput)
    requires StockNonNegative(row)
    requires input.packsAdded.Some? ==> input.packsAdded.value >= 0
    requires input.piecesAdded.Some? ==> input.piecesAdded.value >= 0
    ensures StockNonNegative(RestockRow(row, input))
  {
  }
}
