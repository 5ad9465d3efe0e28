/** `SaleService` over the peewee tables. Its `create_sale` is not a
    transaction: the sale row is created first, every line then looks its
    part up, reduces it and saves it, and a failure part way leaves what the
    earlier lines did. */
module SaleService {
  import opened Sorting
  import opened Schema
  import opened PartModel
  import opened SaleModel

  /** One entry of `items`: `{'part_id', 'quantity', 'price'}`. */
  datatype SaleLine = SaleLine(partId: int, quantity: int, price: Money)

  // ---------------------------------------------------------------------------
  // The parts table of the peewee database
  // ---------------------------------------------------------------------------

  type Table = seq<PartRecord>

  /** The primary key. */
  predicate IdsUnique(parts: Table) {
    forall i, j :: 0 <= i < j < |parts| ==> parts[i].id != parts[j].id
  }

  /** `Part.get_by_id(id)`: the row with that id, or DoesNotExist. */
  function FindPart(parts: Table, id: int): (r: Option<PartRecord>)
    ensures r.None? <==> forall k :: 0 <= k < |parts| ==> parts[k].id != id
    ensures r.Some? ==> r.value.id == id && exists k :: 0 <= k < |parts| && parts[k] == r.value
  {
    if parts == [] then None
    else if parts[0].id == id then Some(parts[0])
    else
      var r := FindPart(parts[1..], id);
      assert r.Some? ==> exists k :: 0 <= k < |parts[1..]| && parts[1..][k] == r.value;
      assert r.Some? ==> exists k :: 0 <= k < |parts| && parts[k] == r.value by {
        if r.Some? {
          var k :| 0 <= k < |parts[1..]| && parts[1..][k] == r.value;
          assert parts[k + 1] == r.value;
        }
      }
      r
  }

  /** With unique ids, the row found is the row at that id's position. */
  lemma FindPartAt(parts: Table, k: int)
    requires IdsUnique(parts) && 0 <= k < |parts|
    ensures FindPart(parts, parts[k].id) == Some(parts[k])
  {
    var r := FindPart(parts, parts[k].id);
    var j :| 0 <= j < |parts| && parts[j] == r.value;
  }

  /** `part.save()`: the row with the record's id is overwritten. */
  function Save(parts: Table, rec: PartRecord): (r: Table)
    ensures |r| == |parts|
    ensures forall k :: 0 <= k < |parts| ==> r[k] == (if parts[k].id == rec.id then rec else parts[k])
  {
    seq(|parts|, k requires 0 <= k < |parts| => if parts[k].id == rec.id then rec else parts[k])
  }

  // ---------------------------------------------------------------------------
  // create_sale, line by line
  // ---------------------------------------------------------------------------

  /** The line's part exists and `reduce_quantity` succeeds on it. */
  predicate Fits(parts: Table, line: SaleLine) {
    FindPart(parts, line.partId).Some? && CanReduce(FindPart(parts, line.partId).value, line.quantity)
  }

  /** The parts table after lines have been reduced in turn; a line that
      does not fit changes nothing. */
  function Apply(parts: Table, lines: seq<SaleLine>, now: Timestamp): (r: Table)
    ensures |r| == |parts|
    ensures forall k :: 0 <= k < |parts| ==> r[k].id == parts[k].id
  {
    if lines == [] then parts
    else
      var p := Apply(parts, lines[..|lines| - 1], now);
      var line := lines[|lines| - 1];
      if Fits(p, line) then Save(p, Reduced(FindPart(p, line.partId).value, line.quantity, now)) else p
  }

  /** The index of the first line that does not fit once its predecessors
      have been applied, or the number of lines when all fit. */
  function FirstMisfit(parts: Table, lines: seq<SaleLine>, now: Timestamp): (r: nat)
    ensures r <= |lines|
  {
    if lines == [] then 0
    else
      var init := lines[..|lines| - 1];
      var f := FirstMisfit(parts, init, now);
      if f < |init| then f
      else if Fits(Apply(parts, init, now), lines[|lines| - 1]) then |lines|
      else |init|
  }

  /** Once a line has failed, later lines do not move the failure. */
  lemma {:induction false} MisfitSticks(parts: Table, lines: seq<SaleLine>, now: Timestamp, k: int)
    requires 0 <= k <= |lines| && FirstMisfit(parts, lines[..k], now) < k
    ensures FirstMisfit(parts, lines, now) == FirstMisfit(parts, lines[..k], now)
    decreases |lines| - k
  {
    if k == |lines| {
      assert lines[..k] == lines;
    } else {
      var pre := lines[..k + 1];
      assert pre[..k] == lines[..k];
      assert FirstMisfit(parts, pre, now) == FirstMisfit(parts, lines[..k], now);
      MisfitSticks(parts, lines, now, k + 1);
    }
  }

  /** The sale_items rows of the lines, ids counting up from `firstId`. */
  function ItemsFor(firstId: int, saleId: int, lines: seq<SaleLine>): (r: seq<SaleItemRecord>)
    ensures |r| == |lines|
  {
    seq(|lines|, k requires 0 <= k < |lines| =>
      SaleItemRecord(firstId + k, saleId, lines[k].partId, lines[k].quantity, lines[k].price))
  }

  /** `total += quantity * price` over the lines. */
  function LinesTotal(lines: seq<SaleLine>): Money {
    if lines == [] then 0
    else LinesTotal(lines[..|lines| - 1]) + lines[|lines| - 1].quantity * lines[|lines| - 1].price
  }

  // ---------------------------------------------------------------------------
  // The peewee tables
  // ---------------------------------------------------------------------------

  function SaleIdOf(s: SaleRecord): int { s.id }
  function ItemIdOf(it: SaleItemRecord): int { it.id }

  /** The id SQLite gives a new row of a table whose primary key is a plain
      `INTEGER PRIMARY KEY` (peewee's implicit `AutoField`, no AUTOINCREMENT):
      one more than the largest id in the table, or 1 when the table is empty.
      Once the newest row is deleted, its id is handed out again. */
  function NextRowId<T>(rows: seq<T>, id: T -> int): (r: int)
    ensures r >= 1
    ensures forall k :: 0 <= k < |rows| ==> id(rows[k]) < r
    ensures r == 1 || exists k :: 0 <= k < |rows| && id(rows[k]) == r - 1
  {
    if rows == [] then 1
    else
      var init := rows[..|rows| - 1];
      var r0 := NextRowId(init, id);
      assert forall k :: 0 <= k < |init| ==> rows[k] == init[k];
      if id(rows[|rows| - 1]) + 1 > r0 then id(rows[|rows| - 1]) + 1 else r0
  }

  predicate SaleIdsUnique(sales: seq<SaleRecord>) {
    forall i, j :: 0 <= i < j < |sales| ==> sales[i].id != sales[j].id
  }

  predicate ItemIdsUnique(items: seq<SaleItemRecord>) {
    forall i, j :: 0 <= i < j < |items| ==> items[i].id != items[j].id
  }

  ghost predicate HasSale(sales: seq<SaleRecord>, saleId: int) {
    exists j :: 0 <= j < |sales| && sales[j].id == saleId
  }

  /** Every item row points at a sale that exists. */
  ghost predicate ItemsBelongToSales(sales: seq<SaleRecord>, items: seq<SaleItemRecord>) {
    forall k :: 0 <= k < |items| ==> HasSale(sales, items[k].saleId)
  }

  /** Item rows written one after another from the next free id take ids
      counting up from it, and leave the id after the last one free. */
  lemma {:induction false} NextRowIdAfterItems(items0: seq<SaleItemRecord>, saleId: int, lines: seq<SaleLine>)
    ensures var first := NextRowId(items0, ItemIdOf);
      NextRowId(items0 + ItemsFor(first, saleId, lines), ItemIdOf) == first + |lines|
  {
    var first := NextRowId(items0, ItemIdOf);
    if lines == [] {
      assert items0 + ItemsFor(first, saleId, lines) == items0;
    } else {
      var init := lines[..|lines| - 1];
      NextRowIdAfterItems(items0, saleId, init);
      var all := items0 + ItemsFor(first, saleId, lines);
      assert all[..|all| - 1] == items0 + ItemsFor(first, saleId, init);
      assert all[|all| - 1].id == first + |lines| - 1;
    }
  }

  /** The item rows of a sale written from the next free id keep item ids
      unique. */
  lemma ItemsForKeepsIdsUnique(items0: seq<SaleItemRecord>, saleId: int, lines: seq<SaleLine>)
    requires ItemIdsUnique(items0)
    ensures ItemIdsUnique(items0 + ItemsFor(NextRowId(items0, ItemIdOf), saleId, lines))
  {
    var first := NextRowId(items0, ItemIdOf);
    var all := items0 + ItemsFor(first, saleId, lines);
    forall i, j | 0 <= i < j < |all| ensures all[i].id != all[j].id {
      if j < |items0| {
        assert all[i] == items0[i] && all[j] == items0[j];
      } else if i < |items0| {
        assert ItemIdOf(items0[i]) < first && all[i] == items0[i];
        assert all[j].id == first + (j - |items0|);
      } else {
        assert all[i].id == first + (i - |items0|) && all[j].id == first + (j - |items0|);
      }
    }
  }

  class Store {
    var parts: Table
    var sales: seq<SaleRecord>
    var saleItems: seq<SaleItemRecord>

    /** The ids are the primary keys of their tables. */
    ghost predicate Valid()
      reads this
    {
      IdsUnique(parts) && SaleIdsUnique(sales) && ItemIdsUnique(saleItems)
    }

    /** The tables as `create_tables` leaves them, with the parts added. */
    constructor (parts: Table)
      requires IdsUnique(parts)
      ensures Valid() && ItemsBelongToSales(sales, saleItems)
      ensures this.parts == parts && sales == [] && saleItems == []
    {
      this.parts, sales, saleItems := parts, [], [];
    }
  }

  /** One more line of the loop: it either fits, and the prefix grows by
      one, or it is the first misfit of all the lines. */
  lemma SellStep(parts0: Table, lines: seq<SaleLine>, now: Timestamp, i: int)
    requires 0 <= i < |lines| && FirstMisfit(parts0, lines[..i], now) == i
    ensures var p := Apply(parts0, lines[..i], now);
      && (Fits(p, lines[i]) ==>
            && FirstMisfit(parts0, lines[..i + 1], now) == i + 1
            && Apply(parts0, lines[..i + 1], now)
               == Save(p, Reduced(FindPart(p, lines[i].partId).value, lines[i].quantity, now)))
      && (!Fits(p, lines[i]) ==> FirstMisfit(parts0, lines, now) == i)
  {
    var pre := lines[..i + 1];
    assert pre[..i] == lines[..i] && pre[i] == lines[i];
    if !Fits(Apply(parts0, lines[..i], now), lines[i]) {
      MisfitSticks(parts0, lines, now, i + 1);
    }
  }

  /** The item row and the amount one more line adds. */
  lemma SellStepRows(lines: seq<SaleLine>, firstItem: int, saleId: int, i: int)
    requires 0 <= i < |lines|
    ensures ItemsFor(firstItem, saleId, lines[..i + 1])
      == ItemsFor(firstItem, saleId, lines[..i]) + [SaleItemRecord(firstItem + i, saleId, lines[i].partId, lines[i].quantity, lines[i].price)]
    ensures LinesTotal(lines[..i + 1]) == LinesTotal(lines[..i]) + lines[i].quantity * lines[i].price
  {
    var pre := lines[..i + 1];
    assert pre[..i] == lines[..i] && pre[i] == lines[i];
  }

  /** The id `SaleItem.create` gets for line `i`: the next free id of the
      item table with the rows of the lines before it added. */
  method NextItemId(items0: seq<SaleItemRecord>, added: seq<SaleItemRecord>, saleId: int, lines: seq<SaleLine>, i: int)
    returns (itemId: int)
    requires 0 <= i <= |lines| && added == ItemsFor(NextRowId(items0, ItemIdOf), saleId, lines[..i])
    ensures itemId == NextRowId(items0, ItemIdOf) + i
  {
    NextRowIdAfterItems(items0, saleId, lines[..i]);
    itemId := NextRowId(items0 + added, ItemIdOf);
  }

  /** The loop of create_sale over the lines: it stops at the first line
      whose part is missing or whose stock is short, and returns the parts
      table, the item rows written (each `SaleItem.create` taking the next
      free id of the growing table), and the running total so far. */
  method SellLines(parts0: Table, items0: seq<SaleItemRecord>, lines: seq<SaleLine>, now: Timestamp, saleId: int)
    returns (p: Table, added: seq<SaleItemRecord>, total: Money, i: nat)
    requires IdsUnique(parts0)
    ensures i == FirstMisfit(parts0, lines, now)
    ensures p == Apply(parts0, lines[..i], now) && IdsUnique(p)
    ensures added == ItemsFor(NextRowId(items0, ItemIdOf), saleId, lines[..i])
    ensures i == |lines| ==> total == LinesTotal(lines)
  {
    var firstItem := NextRowId(items0, ItemIdOf);
    p, added, total, i := parts0, [], 0, 0;
    while i < |lines|
      invariant 0 <= i <= |lines|
      invariant FirstMisfit(parts0, lines[..i], now) == i
      invariant p == Apply(parts0, lines[..i], now)
      invariant added == ItemsFor(firstItem, saleId, lines[..i])
      invariant total == LinesTotal(lines[..i])
      invariant IdsUnique(p)
    {
      var line := lines[i];
      SellStep(parts0, lines, now, i);
      SellStepRows(lines, firstItem, saleId, i);
      var found := FindPart(p, line.partId);
      if found.None? {
        // Part.DoesNotExist, caught by the handler around the loop
        return;
      }
      var part := new Part(found.value);
      var reduced := part.ReduceQuantity(line.quantity, now);
      if !reduced {
        return;
      }
      p := Save(p, part.Record());
      var itemId := NextItemId(items0, added, saleId, lines, i);
      var row := SaleItemRecord(itemId, saleId, part.id, line.quantity, line.price);
      assert row == SaleItemRecord(firstItem + i, saleId, lines[i].partId, lines[i].quantity, lines[i].price);
      added := added + [row];
      total := total + line.quantity * line.price;
      i := i + 1;
    }
    assert lines[..|lines|] == lines;
  }

  /** `SaleService.create_sale`. The sale gets the next free sale id; with
      `m` the first line that does not fit, the parts and items reflect
      exactly the lines before `m`; on success the sale carries the total of
      all lines; when line `m` names no part the sale row stays with total 0;
      when its stock is short the sale row is deleted, while the item rows of
      the lines before `m` stay and keep pointing at its id. */
  method CreateSale(store: Store, lines: seq<SaleLine>, now: Timestamp) returns (sale: Option<SaleRecord>, ok: bool)
    requires store.Valid()
    modifies store
    ensures store.Valid()
    ensures var m := FirstMisfit(old(store.parts), lines, now);
      var saleId := NextRowId(old(store.sales), SaleIdOf);
      && ok == (m == |lines|)
      && store.parts == Apply(old(store.parts), lines[..m], now)
      && store.saleItems == old(store.saleItems) + ItemsFor(NextRowId(old(store.saleItems), ItemIdOf), saleId, lines[..m])
      && (ok ==> sale == Some(SaleRecord(saleId, now, LinesTotal(lines)))
                 && store.sales == old(store.sales) + [sale.value])
      && (!ok ==> sale.None?)
      && (!ok && FindPart(store.parts, lines[m].partId).None? ==>
            store.sales == old(store.sales) + [SaleRecord(saleId, now, 0)])
      && (!ok && FindPart(store.parts, lines[m].partId).Some? ==> store.sales == old(store.sales))
  {
    // Sale.create(total=0)
    var sales0, items0 := store.sales, store.saleItems;
    var saleId := NextRowId(sales0, SaleIdOf);
    store.sales := sales0 + [SaleRecord(saleId, now, 0)];
    var p, added, total, m := SellLines(store.parts, items0, lines, now, saleId);
    ItemsForKeepsIdsUnique(items0, saleId, lines[..m]);
    store.parts, store.saleItems := p, items0 + added;
    if m < |lines| {
      if FindPart(p, lines[m].partId).Some? {
        // reduce_quantity failed: sale.delete_instance() removes the sale
        // row only
        store.sales := sales0;
      }
      return None, false;
    }
    // sale.total = total; sale.save()
    store.sales := sales0 + [SaleRecord(saleId, now, total)];
    return Some(SaleRecord(saleId, now, total)), true;
  }

  // ---------------------------------------------------------------------------
  // What create_sale guarantees
  // ---------------------------------------------------------------------------

  predicate StockNonNegative(parts: Table) {
    forall k :: 0 <= k < |parts| ==> parts[k].quantity >= 0
  }

  /** Every line is checked against the stock left by the lines before it,
      so no stock ever goes negative, even when lines repeat a part. */
  lemma {:induction false} ApplyKeepsStockNonNegative(parts: Table, lines: seq<SaleLine>, now: Timestamp)
    requires StockNonNegative(parts)
    ensures StockNonNegative(Apply(parts, lines, now))
  {
    if lines != [] {
      var p := Apply(parts, lines[..|lines| - 1], now);
      ApplyKeepsStockNonNegative(parts, lines[..|lines| - 1], now);
      var line := lines[|lines| - 1];
      if Fits(p, line) {
        var found := FindPart(p, line.partId).value;
        var k :| 0 <= k < |p| && p[k] == found;
        ReduceKeepsStockNonNegative(found, line.quantity, now);
      }
    }
  }

  /** The total quantity the lines name for part `id`. */
  function QuantityFor(lines: seq<SaleLine>, id: int): int {
    if lines == [] then 0
    else QuantityFor(lines[..|lines| - 1], id) + (if lines[|lines| - 1].partId == id then lines[|lines| - 1].quantity else 0)
  }

  /** One fitting line: the row of its part loses the line's quantity and
      every other row stays. */
  lemma ApplyStep(p: Table, line: SaleLine, now: Timestamp, k: int)
    requires IdsUnique(p) && Fits(p, line) && 0 <= k < |p|
    ensures var q := Save(p, Reduced(FindPart(p, line.partId).value, line.quantity, now));
      && q[k].quantity == p[k].quantity - (if p[k].id == line.partId then line.quantity else 0)
      && q[k].(quantity := 0, updatedAt := 0) == p[k].(quantity := 0, updatedAt := 0)
  {
    if p[k].id == line.partId {
      FindPartAt(p, k);
    }
  }

  /** When every line fits, each part loses exactly what the lines name for
      it and keeps everything else but its modification time. */
  lemma {:induction false} ApplyEffect(parts: Table, lines: seq<SaleLine>, now: Timestamp)
    requires IdsUnique(parts) && FirstMisfit(parts, lines, now) == |lines|
    ensures forall k :: 0 <= k < |parts| ==>
      && Apply(parts, lines, now)[k].quantity == parts[k].quantity - QuantityFor(lines, parts[k].id)
      && Apply(parts, lines, now)[k].(quantity := 0, updatedAt := 0) == parts[k].(quantity := 0, updatedAt := 0)
  {
    if lines != [] {
      var init := lines[..|lines| - 1];
      var line := lines[|lines| - 1];
      var p := Apply(parts, init, now);
      ApplyEffect(parts, init, now);
      assert IdsUnique(p);
      assert Fits(p, line);
      forall k | 0 <= k < |parts|
        ensures Apply(parts, lines, now)[k].quantity == parts[k].quantity - QuantityFor(lines, parts[k].id)
        ensures Apply(parts, lines, now)[k].(quantity := 0, updatedAt := 0) == parts[k].(quantity := 0, updatedAt := 0)
      {
        ApplyStep(p, line, now, k);
      }
    }
  }

  /** When the lines name distinct parts, each part sold from ends with its
      old stock less that one line's quantity. */
  lemma {:induction false} QuantityForDistinct(lines: seq<SaleLine>, k: int)
    requires 0 <= k < |lines|
    requires forall i, j :: 0 <= i < j < |lines| ==> lines[i].partId != lines[j].partId
    ensures QuantityFor(lines, lines[k].partId) == lines[k].quantity
  {
    var init := lines[..|lines| - 1];
    if k == |lines| - 1 {
      QuantityForAbsent(init, lines[k].partId);
    } else {
      QuantityForDistinct(init, k);
    }
  }

  lemma {:induction false} QuantityForAbsent(lines: seq<SaleLine>, id: int)
    requires forall k :: 0 <= k < |lines| ==> lines[k].partId != id
    ensures QuantityFor(lines, id) == 0
  {
    if lines != [] {
      QuantityForAbsent(lines[..|lines| - 1], id);
    }
  }

  /** The item rows a sale writes are added to whatever rows already point
      at its id: `sale.items` is those rows followed by one row per line, and
      `items_count` and `calculate_total` count both. */
  lemma NewSaleItems(items: seq<SaleItemRecord>, firstId: int, saleId: int, lines: seq<SaleLine>)
    ensures ItemsOf(items + ItemsFor(firstId, saleId, lines), saleId) == ItemsOf(items, saleId) + ItemsFor(firstId, saleId, lines)
    ensures ItemsCount(items + ItemsFor(firstId, saleId, lines), saleId) == ItemsCount(items, saleId) + |lines|
    ensures ItemsTotal(ItemsOf(items + ItemsFor(firstId, saleId, lines), saleId))
         == ItemsTotal(ItemsOf(items, saleId)) + LinesTotal(lines)
  {
    var p := (it: SaleItemRecord) => it.saleId == saleId;
    FilterConcat(items, ItemsFor(firstId, saleId, lines), p);
    FilterAll(ItemsFor(firstId, saleId, lines), p);
    ItemsForTotal(firstId, saleId, lines);
    ItemsTotalConcat(ItemsOf(items, saleId), ItemsFor(firstId, saleId, lines));
  }

  /** When no row pointed at the sale's id before, its items are exactly its
      lines: `items_count` is the number of lines and `calculate_total` gives
      back the total the sale was saved with. */
  lemma NewSaleOwnItems(items: seq<SaleItemRecord>, firstId: int, saleId: int, lines: seq<SaleLine>)
    requires forall k :: 0 <= k < |items| ==> items[k].saleId != saleId
    ensures ItemsOf(items + ItemsFor(firstId, saleId, lines), saleId) == ItemsFor(firstId, saleId, lines)
    ensures ItemsCount(items + ItemsFor(firstId, saleId, lines), saleId) == |lines|
    ensures ItemsTotal(ItemsOf(items + ItemsFor(firstId, saleId, lines), saleId)) == LinesTotal(lines)
  {
    NewSaleItems(items, firstId, saleId, lines);
    FilterNone(items, (it: SaleItemRecord) => it.saleId == saleId);
  }

  lemma {:induction false} ItemsForTotal(firstId: int, saleId: int, lines: seq<SaleLine>)
    ensures ItemsTotal(ItemsFor(firstId, saleId, lines)) == LinesTotal(lines)
  {
    if lines != [] {
      var all := ItemsFor(firstId, saleId, lines);
      assert all[..|all| - 1] == ItemsFor(firstId, saleId, lines[..|lines| - 1]);
      ItemsForTotal(firstId, saleId, lines[..|lines| - 1]);
    }
  }

  /** A part missing from the table makes its line fail, and a line asking
      for more than the stock left fails too. */
  lemma MisfitReasons(parts: Table, line: SaleLine)
    ensures (forall k :: 0 <= k < |parts| ==> parts[k].id != line.partId) ==> !Fits(parts, line)
    ensures ((exists k :: 0 <= k < |parts| && parts[k].id == line.partId && parts[k].quantity < line.quantity)
             && IdsUnique(parts)) ==> !Fits(parts, line)
  {
    if k :| 0 <= k < |parts| && parts[k].id == line.partId && parts[k].quantity < line.quantity {
      if IdsUnique(parts) {
        FindPartAt(parts, k);
      }
    }
  }

  // ---------------------------------------------------------------------------
  // A failed sale's rows and the next sale's id
  // ---------------------------------------------------------------------------

  /** A table whose items all point at existing sales has none pointing at
      the id the next sale gets. */
  lemma NextSaleHasNoItems(sales: seq<SaleRecord>, items: seq<SaleItemRecord>)
    requires ItemsBelongToSales(sales, items)
    ensures forall k :: 0 <= k < |items| ==> items[k].saleId != NextRowId(sales, SaleIdOf)
  {
    forall k | 0 <= k < |items| ensures items[k].saleId != NextRowId(sales, SaleIdOf) {
      var j :| 0 <= j < |sales| && sales[j].id == items[k].saleId;
      assert SaleIdOf(sales[j]) < NextRowId(sales, SaleIdOf);
    }
  }

  /** A new sale together with its own item rows keeps every item attached
      to an existing sale. */
  lemma NewSaleKeepsItemsBelonging(sales: seq<SaleRecord>, items: seq<SaleItemRecord>, row: SaleRecord,
                                   firstId: int, lines: seq<SaleLine>)
    requires ItemsBelongToSales(sales, items)
    ensures ItemsBelongToSales(sales + [row], items + ItemsFor(firstId, row.id, lines))
  {
    var s2, i2 := sales + [row], items + ItemsFor(firstId, row.id, lines);
    forall k | 0 <= k < |i2| ensures HasSale(s2, i2[k].saleId) {
      if k < |items| {
        var j :| 0 <= j < |sales| && sales[j].id == items[k].saleId;
        assert s2[j] == sales[j] && i2[k] == items[k];
      } else {
        assert i2[k] == ItemsFor(firstId, row.id, lines)[k - |items|];
        assert i2[k].saleId == row.id == s2[|sales|].id;
      }
    }
  }

  /** `create_sale` as its "roll back" comment means it: the lines are tried
      on a copy of the tables, and nothing is written unless all of them fit.
      Every item then belongs to an existing sale, and a new sale's items are
      exactly its lines. */
  method CreateSaleAtomic(store: Store, lines: seq<SaleLine>, now: Timestamp) returns (sale: Option<SaleRecord>, ok: bool)
    requires store.Valid() && ItemsBelongToSales(store.sales, store.saleItems)
    modifies store
    ensures store.Valid() && ItemsBelongToSales(store.sales, store.saleItems)
    ensures var saleId := NextRowId(old(store.sales), SaleIdOf);
      && ok == (FirstMisfit(old(store.parts), lines, now) == |lines|)
      && (ok ==> && sale == Some(SaleRecord(saleId, now, LinesTotal(lines)))
                 && store.sales == old(store.sales) + [sale.value]
                 && store.parts == Apply(old(store.parts), lines, now)
                 && store.saleItems == old(store.saleItems) + ItemsFor(NextRowId(old(store.saleItems), ItemIdOf), saleId, lines))
      && (!ok ==> && sale.None? && store.parts == old(store.parts)
                  && store.sales == old(store.sales) && store.saleItems == old(store.saleItems))
    ensures ok ==> && ItemsCount(store.saleItems, sale.value.id) == |lines|
                   && ItemsTotal(ItemsOf(store.saleItems, sale.value.id)) == sale.value.total
  {
    var sales0, items0 := store.sales, store.saleItems;
    var saleId := NextRowId(sales0, SaleIdOf);
    var p, added, total, m := SellLines(store.parts, items0, lines, now, saleId);
    if m < |lines| {
      return None, false;
    }
    assert lines[..m] == lines;
    var row := SaleRecord(saleId, now, total);
    ItemsForKeepsIdsUnique(items0, saleId, lines);
    NextSaleHasNoItems(sales0, items0);
    NewSaleOwnItems(items0, NextRowId(items0, ItemIdOf), saleId, lines);
    NewSaleKeepsItemsBelonging(sales0, items0, row, NextRowId(items0, ItemIdOf), lines);
    store.parts, store.saleItems, store.sales := p, items0 + added, sales0 + [row];
    return Some(row), true;
  }

  /** The first sale of the scenario below: the oil filter fits, the pump
      is short. */
  lemma OrphanScenarioFirst(a: PartRecord, b: PartRecord, lines: seq<SaleLine>)
    requires a.id == 1 && a.quantity == 5 && b.id == 2 && b.quantity == 1
    requires lines == [SaleLine(1, 1, 150), SaleLine(2, 999, 1200)]
    ensures FirstMisfit([a, b], lines, 1) == 1
    ensures Apply([a, b], lines[..1], 1) == [Reduced(a, 1, 1), b]
    ensures FindPart([Reduced(a, 1, 1), b], 2) == Some(b)
  {
    assert lines[..1][..0] == [] && lines[..1] == [lines[0]];
    assert FindPart([a, b], 1) == Some(a);
    assert Save([a, b], Reduced(a, 1, 1)) == [Reduced(a, 1, 1), b];
    assert FindPart([Reduced(a, 1, 1), b], 2) == Some(b);
  }

  /** The second sale of the scenario below: the oil filter fits again. */
  lemma OrphanScenarioSecond(a1: PartRecord, b: PartRecord, lines: seq<SaleLine>)
    requires a1.id == 1 && a1.quantity == 4 && b.id == 2
    requires lines == [SaleLine(1, 1, 150)]
    ensures FirstMisfit([a1, b], lines, 2) == 1
    ensures lines[..1] == lines && LinesTotal(lines) == 150
  {
    assert lines[..0] == [];
    assert FindPart([a1, b], 1) == Some(a1);
  }

  /** The first `create_sale` of the scenario below: the sale row is
      deleted, the oil filter's item row stays. */
  method OrphanScenarioFirstSale(store: Store, a: PartRecord, b: PartRecord) returns (sale: Option<SaleRecord>)
    requires store.Valid() && a.id == 1 && a.quantity == 5 && b.id == 2 && b.quantity == 1
    requires store.parts == [a, b] && store.sales == [] && store.saleItems == []
    modifies store
    ensures store.Valid() && sale.None?
    ensures store.parts == [Reduced(a, 1, 1), b] && store.sales == []
    ensures store.saleItems == [SaleItemRecord(1, 1, 1, 1, 150)]
  {
    var lines := [SaleLine(1, 1, 150), SaleLine(2, 999, 1200)];
    OrphanScenarioFirst(a, b, lines);
    var ok;
    sale, ok := CreateSale(store, lines, 1);
    assert [] + ItemsFor(1, 1, lines[..1]) == [SaleItemRecord(1, 1, 1, 1, 150)];
  }

  /** The second `create_sale` of the scenario below: it succeeds, under the
      id the deleted sale had. */
  method OrphanScenarioSecondSale(store: Store, a1: PartRecord, b: PartRecord) returns (sale: Option<SaleRecord>)
    requires store.Valid() && a1.id == 1 && a1.quantity == 4 && b.id == 2
    requires store.parts == [a1, b] && store.sales == [] && store.saleItems == [SaleItemRecord(1, 1, 1, 1, 150)]
    modifies store
    ensures sale == Some(SaleRecord(1, 2, 150))
    ensures store.saleItems == [SaleItemRecord(1, 1, 1, 1, 150), SaleItemRecord(2, 1, 1, 1, 150)]
  {
    var lines := [SaleLine(1, 1, 150)];
    OrphanScenarioSecond(a1, b, lines);
    var ok;
    sale, ok := CreateSale(store, lines, 2);
    assert NextRowId([SaleItemRecord(1, 1, 1, 1, 150)], ItemIdOf) == 2;
  }

  /** As written, a short stock after a line that fitted deletes the sale
      row but keeps that line's item row. SQLite then gives the next sale the
      same id, and the next sale takes the orphan row over: one line sold at
      150, yet two items and a recalculated total of 300. */
  method OrphanItemsJoinNextSale() returns (first: Option<SaleRecord>, second: Option<SaleRecord>,
                                          secondItems: seq<SaleItemRecord>)
    ensures first.None? && second.Some? && second.value.total == 150
    ensures |secondItems| == 2 && ItemsTotal(secondItems) == 300
  {
    var a := PartRecord(1, "OF-1", "Oil filter", "Bosch", "Camry", "Engine", 5, 100, 150, "", 0, 0);
    var b := PartRecord(2, "WP-1", "Water pump", "Aisin", "Camry", "Engine", 1, 900, 1200, "", 0, 0);
    var store := new Store([a, b]);
    first := OrphanScenarioFirstSale(store, a, b);
    second := OrphanScenarioSecondSale(store, Reduced(a, 1, 1), b);
    var items := store.saleItems;
    secondItems := ItemsOf(items, 1);
    var p := (it: SaleItemRecord) => it.saleId == 1;
    FilterAll(items, p);
    assert items[..1] == [items[0]] && items[..1][..0] == [];
    assert ItemsTotal(items[..1]) == 150;
  }

  // ---------------------------------------------------------------------------
  // validate_sale_items
  // ---------------------------------------------------------------------------

  /** The messages of validate_sale_items; positions count from 1. */
  datatype SaleError =
    | NoItems
    | NotPositive(position: nat)
    | ShortStock(position: nat, available: int, required: int)
    | NotFound(position: nat)

  /** The errors of the line at `position`: a missing part gives only
      "not found"; otherwise a non-positive quantity and a short stock are
      reported independently, in that order. */
  function LineErrors(parts: Table, position: nat, line: SaleLine): seq<SaleError> {
    match FindPart(parts, line.partId)
    case None => [NotFound(position)]
    case Some(p) =>
      (if line.quantity <= 0 then [NotPositive(position)] else [])
      + (if p.quantity < line.quantity then [ShortStock(position, p.quantity, line.quantity)] else [])
  }

  function ErrorsFor(parts: Table, lines: seq<SaleLine>): seq<SaleError> {
    if lines == [] then []
    else ErrorsFor(parts, lines[..|lines| - 1]) + LineErrors(parts, |lines|, lines[|lines| - 1])
  }

  method ValidateSaleItems(parts: Table, lines: seq<SaleLine>) returns (valid: bool, errors: seq<SaleError>)
    ensures lines == [] ==> errors == [NoItems]
    ensures lines != [] ==> errors == ErrorsFor(parts, lines)
    ensures valid <==> errors == []
  {
    errors := [];
    if lines == [] {
      errors := errors + [NoItems];
      return false, errors;
    }
    var i := 0;
    while i < |lines|
      invariant 0 <= i <= |lines|
      invariant errors == ErrorsFor(parts, lines[..i])
    {
      var line := lines[i];
      assert lines[..i + 1][..i] == lines[..i];
      var found := FindPart(parts, line.partId);
      if found.None? {
        errors := errors + [NotFound(i + 1)];
      } else {
        if line.quantity <= 0 {
          errors := errors + [NotPositive(i + 1)];
        }
        if found.value.quantity < line.quantity {
          errors := errors + [ShortStock(i + 1, found.value.quantity, line.quantity)];
        }
      }
      i := i + 1;
    }
    assert lines[..|lines|] == lines;
    valid := |errors| == 0;
  }

  /** A line passes when its part exists, the quantity is positive and the
      stock covers it. */
  predicate LineOk(parts: Table, line: SaleLine) {
    && FindPart(parts, line.partId).Some?
    && line.quantity > 0
    && FindPart(parts, line.partId).value.quantity >= line.quantity
  }

  /** No error at all exactly when every line passes. */
  lemma {:induction false} NoErrorsIffAllLinesOk(parts: Table, lines: seq<SaleLine>)
    ensures ErrorsFor(parts, lines) == [] <==> forall k :: 0 <= k < |lines| ==> LineOk(parts, lines[k])
  {
    if lines != [] {
      var init := lines[..|lines| - 1];
      NoErrorsIffAllLinesOk(parts, init);
      assert forall k :: 0 <= k < |init| ==> init[k] == lines[k];
    }
  }

  /** Every error names a position between 1 and the number of lines. */
  lemma {:induction false} ErrorPositionsInRange(parts: Table, lines: seq<SaleLine>)
    ensures forall e :: e in ErrorsFor(parts, lines) ==> !e.NoItems? && 1 <= e.position <= |lines|
  {
    if lines != [] {
      ErrorPositionsInRange(parts, lines[..|lines| - 1]);
    }
  }

  /** Saving a row leaves the lookup of every other id as it was. */
  lemma SaveElsewhere(p: Table, rec: PartRecord, id: int)
    requires IdsUnique(p) && rec.id != id
    requires exists k :: 0 <= k < |p| && p[k].id == rec.id
    ensures FindPart(Save(p, rec), id) == FindPart(p, id)
  {
    var q := Save(p, rec);
    assert forall k :: 0 <= k < |p| ==> q[k].id == p[k].id;
    assert IdsUnique(q);
    if FindPart(p, id).Some? {
      var j :| 0 <= j < |p| && p[j] == FindPart(p, id).value;
      assert q[j] == p[j];
      FindPartAt(q, j);
    }
  }

  /** Reducing other parts leaves a part's row as it was. */
  lemma {:induction false} ApplyElsewhere(parts: Table, lines: seq<SaleLine>, now: Timestamp, id: int)
    requires IdsUnique(parts)
    requires forall k :: 0 <= k < |lines| ==> lines[k].partId != id
    ensures FindPart(Apply(parts, lines, now), id) == FindPart(parts, id)
  {
    if lines != [] {
      var init := lines[..|lines| - 1];
      var line := lines[|lines| - 1];
      assert forall k :: 0 <= k < |init| ==> init[k] == lines[k];
      ApplyElsewhere(parts, init, now, id);
      var p := Apply(parts, init, now);
      assert IdsUnique(p);
      if Fits(p, line) {
        SaveElsewhere(p, Reduced(FindPart(p, line.partId).value, line.quantity, now), id);
      }
    }
  }

  /** Lines that pass validation and name distinct parts all fit, so
      create_sale then succeeds. */
  lemma {:induction false} ValidatedSaleSucceeds(parts: Table, lines: seq<SaleLine>, now: Timestamp)
    requires IdsUnique(parts)
    requires ErrorsFor(parts, lines) == []
    requires forall i, j :: 0 <= i < j < |lines| ==> lines[i].partId != lines[j].partId
    ensures FirstMisfit(parts, lines, now) == |lines|
  {
    NoErrorsIffAllLinesOk(parts, lines);
    if lines != [] {
      var init := lines[..|lines| - 1];
      var line := lines[|lines| - 1];
      assert forall k :: 0 <= k < |init| ==> init[k] == lines[k];
      NoErrorsIffAllLinesOk(parts, init);
      ValidatedSaleSucceeds(parts, init, now);
      ApplyElsewhere(parts, init, now, line.partId);
    }
  }

  /** Validation checks each line against the whole stock, so it accepts two
      lines for the single unit of one part; create_sale then fails on the
      second line. */
  lemma ValidationIgnoresRepeatedParts()
    ensures var parts := [PartRecord(1, "A1", "n", "b", "m", "c", 1, 100, 150, "", 0, 0)];
      var lines := [SaleLine(1, 1, 150), SaleLine(1, 1, 150)];
      ErrorsFor(parts, lines) == [] && FirstMisfit(parts, lines, 7) == 1
  {
    var parts := [PartRecord(1, "A1", "n", "b", "m", "c", 1, 100, 150, "", 0, 0)];
    var line := SaleLine(1, 1, 150);
    var lines := [line, line];
    var one := [line];
    assert lines[..1] == one && one[..0] == [] && lines[..2] == lines;
    assert FindPart(parts, 1) == Some(parts[0]);
    assert Apply(parts, one[..0], 7) == parts;
    assert Fits(parts, line);
    var after := Apply(parts, one, 7);
    assert after == Save(parts, Reduced(parts[0], 1, 7));
    assert FindPart(after, 1) == Some(after[0]);
    assert FirstMisfit(parts, one, 7) == 1;
  }

  // ---------------------------------------------------------------------------
  // calculate_change
  // ---------------------------------------------------------------------------

  /** `paid - total if paid >= total else 0` */
  function CalculateChange(total: Money, paid: Money): (r: Money)
    ensures r >= 0
  {
    if paid >= total then paid - total else 0
  }

  /** The change plus the total is exactly what was paid when the payment
      covers the total; an underpayment gets no change. */
  lemma ChangeSettlesPayment(total: Money, paid: Money)
    ensures paid >= total ==> total + CalculateChange(total, paid) == paid
    ensures paid < total ==> CalculateChange(total, paid) == 0
    ensures CalculateChange(total, total) == 0
  {
  }
}
