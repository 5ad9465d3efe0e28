/** The data layer the application runs on: five SQLite tables (parts,
    sales, sale_items, receipts, receipt_items) modelled as in-memory tables.
    AUTOINCREMENT is a per-table counter of fresh ids starting at 1, and a
    transaction that ends in ROLLBACK, or a statement that fails, leaves every
    table and counter as it was. */
module SimpleDb {
  import opened Text
  import opened Sorting
  import opened Schema

  // ---------------------------------------------------------------------------
  // Rows and request lines
  // ---------------------------------------------------------------------------

  /** One entry of the `items` argument of create_sale. */
  datatype SaleLine = SaleLine(partId: int, quantity: int, price: Money)

  /** One entry of the `items` argument of create_receipt. */
  datatype ReceiptLine = ReceiptLine(partId: int, quantity: int, buyPrice: Money)

  datatype SaleRow = SaleRow(id: int, date: Timestamp, total: Money)
  datatype SaleItemRow = SaleItemRow(id: int, saleId: int, partId: int, quantity: int, price: Money)
  datatype ReceiptRow = ReceiptRow(id: int, date: Timestamp, supplier: string, total: Money, notes: string)
  datatype ReceiptItemRow = ReceiptItemRow(id: int, receiptId: int, partId: int, quantity: int, buyPrice: Money)

  /** A row of get_all_sales. */
  datatype SaleSummary = SaleSummary(id: int, date: Timestamp, total: Money, itemsCount: nat)

  /** A row of get_all_receipts. */
  datatype ReceiptSummary = ReceiptSummary(
    id: int, date: Timestamp, supplier: string, total: Money, notes: string, itemsCount: nat)

  /** A row of get_sale_items: the item joined with its part's article and name. */
  datatype SaleItemView = SaleItemView(item: SaleItemRow, article: string, name: string)

  /** A row of get_receipt_items. */
  datatype ReceiptItemView = ReceiptItemView(item: ReceiptItemRow, article: string, name: string)

  /** The keyword arguments of update_part: a column is set when it is named. */
  datatype PartUpdate = PartUpdate(
    article: Option<string>,
    name: Option<string>,
    brand: Option<string>,
    carModel: Option<string>,
    category: Option<string>,
    quantity: Option<int>,
    buyPrice: Option<Money>,
    sellPrice: Option<Money>,
    description: Option<string>)

  // ---------------------------------------------------------------------------
  // The parts table
  // ---------------------------------------------------------------------------

  type PartTable = map<int, PartRecord>

  /** The UNIQUE constraint on `parts.article`. */
  ghost predicate ArticlesUnique(parts: PartTable) {
    forall a, b :: a in parts && b in parts && a != b ==> parts[a].article != parts[b].article
  }

  predicate ArticleTaken(parts: PartTable, article: string) {
    exists id :: id in parts && parts[id].article == article
  }

  predicate NamesNoColumn(u: PartUpdate) {
    && u.article.None? && u.name.None? && u.brand.None? && u.carModel.None?
    && u.category.None? && u.quantity.None? && u.buyPrice.None? && u.sellPrice.None?
    && u.description.None?
  }

  /** Setting `article` to a value another part already carries violates the
      UNIQUE constraint. */
  predicate ArticleClash(parts: PartTable, id: int, u: PartUpdate) {
    u.article.Some? && exists other :: other in parts && other != id && parts[other].article == u.article.value
  }

  function OrElse<T>(o: Option<T>, otherwise: T): T {
    if o.Some? then o.value else otherwise
  }

  /** The row after `UPDATE parts SET <named columns>, updated_at = now`. */
  function ApplyUpdate(p: PartRecord, u: PartUpdate, now: Timestamp): PartRecord {
    p.(article := OrElse(u.article, p.article),
       name := OrElse(u.name, p.name),
       brand := OrElse(u.brand, p.brand),
       carModel := OrElse(u.carModel, p.carModel),
       category := OrElse(u.category, p.category),
       quantity := OrElse(u.quantity, p.quantity),
       buyPrice := OrElse(u.buyPrice, p.buyPrice),
       sellPrice := OrElse(u.sellPrice, p.sellPrice),
       description := OrElse(u.description, p.description),
       updatedAt := now)
  }

  /** An update keeps the row's identity and creation time, and writing the
      same columns again at the same time changes nothing further. */
  lemma ApplyUpdateIdempotent(p: PartRecord, u: PartUpdate, now: Timestamp)
    ensures var q := ApplyUpdate(p, u, now);
      && q.id == p.id && q.createdAt == p.createdAt && q.updatedAt == now
      && ApplyUpdate(q, u, now) == q
  {
  }

  /** An update that names no column other than `quantity` leaves the
      descriptive columns as they were. */
  lemma ApplyUpdateQuantityOnly(p: PartRecord, q: int, now: Timestamp)
    ensures var r := ApplyUpdate(p, PartUpdate(None, None, None, None, None, Some(q), None, None, None), now);
      r == p.(quantity := q, updatedAt := now)
  {
  }

  // ---------------------------------------------------------------------------
  // search_parts
  // ---------------------------------------------------------------------------

  /** `LOWER(column) LIKE '%' || query.lower() || '%'` as written: the query is
      folded by Python, the column by SQLite's ASCII-only LOWER(). */
  predicate FieldMatchesAsWritten(query: string, field: string) {
    IsSubstring(PyLower(query), SqlLower(field))
  }

  predicate MatchesAsWritten(query: string, p: PartRecord) {
    || FieldMatchesAsWritten(query, p.article)
    || FieldMatchesAsWritten(query, p.name)
    || FieldMatchesAsWritten(query, p.brand)
    || FieldMatchesAsWritten(query, p.carModel)
    || FieldMatchesAsWritten(query, p.category)
  }

  /** The case-insensitive match the search promises: both sides folded alike. */
  predicate FieldMatches(query: string, field: string) {
    IsSubstring(PyLower(query), PyLower(field))
  }

  predicate Matches(query: string, p: PartRecord) {
    || FieldMatches(query, p.article)
    || FieldMatches(query, p.name)
    || FieldMatches(query, p.brand)
    || FieldMatches(query, p.carModel)
    || FieldMatches(query, p.category)
  }

  /** As written, searching for a part's own Cyrillic category misses it: the
      query is folded to lower case, the stored column is not. */
  lemma SearchAsWrittenMissesOwnCategory()
    ensures var p := PartRecord(1, "", "", "", "", "Двигатель", 5, 100, 150, "", 0, 0);
      !MatchesAsWritten("Двигатель", p) && Matches("Двигатель", p)
  {
    var p := PartRecord(1, "", "", "", "", "Двигатель", 5, 100, 150, "", 0, 0);
    var q := PyLower("Двигатель");
    assert q[0] == 'д';
    assert SqlLower("Двигатель")[0] == 'Д';
    assert !OccursAt(q, SqlLower("Двигатель"), 0);
    assert !FieldMatchesAsWritten("Двигатель", p.category);
    SelfIsSubstring(p.category);
    PyLowerKeepsSubstring(p.category, p.category);
  }

  /** With matching folding, a part is found by any piece of any of its five
      searched columns, whatever the case of the query. */
  lemma {:induction false} SearchFindsEverySubstring(query: string, p: PartRecord)
    requires || IsSubstring(query, p.article) || IsSubstring(query, p.name)
             || IsSubstring(query, p.brand) || IsSubstring(query, p.carModel)
             || IsSubstring(query, p.category)
    ensures Matches(query, p)
  {
    if IsSubstring(query, p.article) { PyLowerKeepsSubstring(query, p.article); }
    else if IsSubstring(query, p.name) { PyLowerKeepsSubstring(query, p.name); }
    else if IsSubstring(query, p.brand) { PyLowerKeepsSubstring(query, p.brand); }
    else if IsSubstring(query, p.carModel) { PyLowerKeepsSubstring(query, p.carModel); }
    else { PyLowerKeepsSubstring(query, p.category); }
  }

  /** The search does not depend on the case of the query. */
  lemma SearchIgnoresQueryCase(query: string, p: PartRecord)
    ensures Matches(PyLower(query), p) == Matches(query, p)
  {
    PyLowerIdempotent(query);
  }

  // ---------------------------------------------------------------------------
  // create_sale
  // ---------------------------------------------------------------------------

  /** The availability check of one line: the part exists and its stock, as it
      was before the sale, covers the line. */
  predicate LineCovered(parts: PartTable, line: SaleLine) {
    line.partId in parts && parts[line.partId].quantity >= line.quantity
  }

  predicate SaleAccepted(parts: PartTable, lines: seq<SaleLine>) {
    forall k :: 0 <= k < |lines| ==> LineCovered(parts, lines[k])
  }

  /** `sum(item['quantity'] * item['price'] for item in items)` */
  function SaleTotal(lines: seq<SaleLine>): Money {
    if lines == [] then 0
    else SaleTotal(lines[..|lines| - 1]) + lines[|lines| - 1].quantity * lines[|lines| - 1].price
  }

  /** The total of a cart is the sum of the totals of any split of it. */
  lemma {:induction false} SaleTotalConcat(a: seq<SaleLine>, b: seq<SaleLine>)
    ensures SaleTotal(a + b) == SaleTotal(a) + SaleTotal(b)
    decreases |b|
  {
    if b == [] {
      assert a + b == a;
    } else {
      assert (a + b)[..|a + b| - 1] == a + b[..|b| - 1];
      SaleTotalConcat(a, b[..|b| - 1]);
    }
  }

  /** `UPDATE parts SET quantity = quantity - ?, updated_at = ? WHERE id = ?` */
  function DebitOne(parts: PartTable, line: SaleLine, now: Timestamp): PartTable {
    if line.partId in parts then
      parts[line.partId := parts[line.partId].(quantity := parts[line.partId].quantity - line.quantity, updatedAt := now)]
    else parts
  }

  /** The parts table after every line's UPDATE, in order. */
  function Debit(parts: PartTable, lines: seq<SaleLine>, now: Timestamp): (r: PartTable)
    ensures r.Keys == parts.Keys
  {
    if lines == [] then parts
    else DebitOne(Debit(parts, lines[..|lines| - 1], now), lines[|lines| - 1], now)
  }

  /** The total quantity the lines take from part `id`. */
  function QuantitySold(lines: seq<SaleLine>, id: int): int {
    if lines == [] then 0
    else QuantitySold(lines[..|lines| - 1], id)
         + (if lines[|lines| - 1].partId == id then lines[|lines| - 1].quantity else 0)
  }

  /** Two rows that differ at most in stock and modification time. */
  predicate SameExceptStock(a: PartRecord, b: PartRecord) {
    a.(quantity := 0, updatedAt := 0) == b.(quantity := 0, updatedAt := 0)
  }

  /** Stock movements rewrite only stock and modification time, so a table
      keyed by id with unique articles stays so. */
  lemma SameExceptStockKeepsKeys(a: PartTable, b: PartTable)
    requires a.Keys == b.Keys && forall id :: id in a ==> SameExceptStock(b[id], a[id])
    ensures forall id :: id in b ==> b[id].id == a[id].id && b[id].article == a[id].article
    ensures ArticlesUnique(a) ==> ArticlesUnique(b)
  {
    forall id | id in b ensures b[id].id == a[id].id && b[id].article == a[id].article {
      assert b[id].(quantity := 0, updatedAt := 0).id == a[id].(quantity := 0, updatedAt := 0).id;
      assert b[id].(quantity := 0, updatedAt := 0).article == a[id].(quantity := 0, updatedAt := 0).article;
    }
  }

  /** A sale takes from each part exactly what its lines name for it and
      touches nothing else of the row or the table. */
  lemma {:induction false} DebitEffect(parts: PartTable, lines: seq<SaleLine>, now: Timestamp)
    ensures forall id :: id in parts ==>
      && Debit(parts, lines, now)[id].quantity == parts[id].quantity - QuantitySold(lines, id)
      && SameExceptStock(Debit(parts, lines, now)[id], parts[id])
  {
    if lines != [] {
      DebitEffect(parts, lines[..|lines| - 1], now);
    }
  }

  /** Parts no line names are left exactly as they were. */
  lemma {:induction false} DebitUntouched(parts: PartTable, lines: seq<SaleLine>, now: Timestamp, id: int)
    requires id in parts && forall k :: 0 <= k < |lines| ==> lines[k].partId != id
    ensures Debit(parts, lines, now)[id] == parts[id]
  {
    if lines != [] {
      var init := lines[..|lines| - 1];
      forall k | 0 <= k < |init| ensures init[k].partId != id { assert init[k] == lines[k]; }
      DebitUntouched(parts, init, now, id);
    }
  }

  predicate DistinctParts(lines: seq<SaleLine>) {
    forall i, j :: 0 <= i < j < |lines| ==> lines[i].partId != lines[j].partId
  }

  /** With distinct part ids, the quantity taken from a part is its one line's. */
  lemma {:induction false} QuantitySoldDistinct(lines: seq<SaleLine>, k: int)
    requires DistinctParts(lines) && 0 <= k < |lines|
    ensures QuantitySold(lines, lines[k].partId) == lines[k].quantity
  {
    var id := lines[k].partId;
    var init := lines[..|lines| - 1];
    if k == |lines| - 1 {
      QuantitySoldAbsent(init, id);
    } else {
      QuantitySoldDistinct(init, k);
    }
  }

  lemma {:induction false} QuantitySoldAbsent(lines: seq<SaleLine>, id: int)
    requires forall k :: 0 <= k < |lines| ==> lines[k].partId != id
    ensures QuantitySold(lines, id) == 0
  {
    if lines != [] {
      QuantitySoldAbsent(lines[..|lines| - 1], id);
    }
  }

  predicate StockNonNegative(parts: PartTable) {
    forall id :: id in parts ==> parts[id].quantity >= 0
  }

  /** The check runs against the stock before any decrement, so a sale keeps
      every stock non-negative when its lines name distinct parts; each part it
      sells from ends with its old stock less its one line's quantity. */
  lemma SaleKeepsStockNonNegative(parts: PartTable, lines: seq<SaleLine>, now: Timestamp)
    requires StockNonNegative(parts) && SaleAccepted(parts, lines) && DistinctParts(lines)
    ensures StockNonNegative(Debit(parts, lines, now))
    ensures forall k :: 0 <= k < |lines| ==>
      Debit(parts, lines, now)[lines[k].partId].quantity == parts[lines[k].partId].quantity - lines[k].quantity
  {
    DebitEffect(parts, lines, now);
    forall id | id in parts ensures Debit(parts, lines, now)[id].quantity >= 0 {
      if k :| 0 <= k < |lines| && lines[k].partId == id {
        QuantitySoldDistinct(lines, k);
      } else {
        QuantitySoldAbsent(lines, id);
      }
    }
    forall k | 0 <= k < |lines|
      ensures Debit(parts, lines, now)[lines[k].partId].quantity == parts[lines[k].partId].quantity - lines[k].quantity
    {
      QuantitySoldDistinct(lines, k);
    }
  }

  /** Without distinct parts the check lets a sale oversell: two lines of one
      unit each pass against a stock of one and leave -1. */
  lemma DuplicateLinesOversell()
    ensures var parts := map[1 := PartRecord(1, "A1", "n", "b", "m", "c", 1, 100, 150, "", 0, 0)];
      var lines := [SaleLine(1, 1, 150), SaleLine(1, 1, 150)];
      SaleAccepted(parts, lines) && Debit(parts, lines, 7)[1].quantity == -1
  {
    var lines := [SaleLine(1, 1, 150), SaleLine(1, 1, 150)];
    assert lines[..1] == [SaleLine(1, 1, 150)];
    assert lines[..1][..0] == [];
  }

  /** The sale_items rows inserted for a sale, ids counting up from `firstId`. */
  function SaleItemsFor(firstId: int, saleId: int, lines: seq<SaleLine>): (r: seq<SaleItemRow>)
    ensures |r| == |lines|
  {
    seq(|lines|, i requires 0 <= i < |lines| =>
      SaleItemRow(firstId + i, saleId, lines[i].partId, lines[i].quantity, lines[i].price))
  }

  function CountSaleItems(items: seq<SaleItemRow>, saleId: int): nat {
    |Filter(items, (it: SaleItemRow) => it.saleId == saleId)|
  }

  /** A new sale reports as many items as it had lines. */
  lemma NewSaleItemsCount(items: seq<SaleItemRow>, firstId: int, saleId: int, lines: seq<SaleLine>)
    requires forall k :: 0 <= k < |items| ==> items[k].saleId != saleId
    ensures CountSaleItems(items + SaleItemsFor(firstId, saleId, lines), saleId) == |lines|
  {
    var p := (it: SaleItemRow) => it.saleId == saleId;
    FilterConcat(items, SaleItemsFor(firstId, saleId, lines), p);
    FilterNone(items, p);
    FilterAll(SaleItemsFor(firstId, saleId, lines), p);
  }

  /** get_sale_items: the sale's items whose part still exists (an inner JOIN),
      in insertion order, with the part's article and name. */
  function SaleItemViews(items: seq<SaleItemRow>, parts: PartTable, saleId: int): seq<SaleItemView> {
    if items == [] then []
    else
      var it := items[|items| - 1];
      SaleItemViews(items[..|items| - 1], parts, saleId)
      + (if it.saleId == saleId && it.partId in parts
         then [SaleItemView(it, parts[it.partId].article, parts[it.partId].name)] else [])
  }

  lemma {:induction false} SaleItemViewsNone(items: seq<SaleItemRow>, parts: PartTable, saleId: int)
    requires forall k :: 0 <= k < |items| ==> items[k].saleId != saleId
    ensures SaleItemViews(items, parts, saleId) == []
  {
    if items != [] {
      SaleItemViewsNone(items[..|items| - 1], parts, saleId);
    }
  }

  lemma {:induction false} SaleItemViewsConcat(a: seq<SaleItemRow>, b: seq<SaleItemRow>, parts: PartTable, saleId: int)
    ensures SaleItemViews(a + b, parts, saleId) == SaleItemViews(a, parts, saleId) + SaleItemViews(b, parts, saleId)
    decreases |b|
  {
    if b == [] {
      assert a + b == a;
    } else {
      assert (a + b)[..|a + b| - 1] == a + b[..|b| - 1];
      SaleItemViewsConcat(a, b[..|b| - 1], parts, saleId);
    }
  }

  /** The joined view of freshly inserted items, one row per line. */
  lemma {:induction false} ViewsOfNewItems(firstId: int, saleId: int, lines: seq<SaleLine>, parts: PartTable)
    requires forall k :: 0 <= k < |lines| ==> lines[k].partId in parts
    ensures var v := SaleItemViews(SaleItemsFor(firstId, saleId, lines), parts, saleId);
      && |v| == |lines|
      && forall k :: 0 <= k < |lines| ==>
           v[k] == SaleItemView(SaleItemRow(firstId + k, saleId, lines[k].partId, lines[k].quantity, lines[k].price),
                                parts[lines[k].partId].article, parts[lines[k].partId].name)
  {
    if lines != [] {
      var init := lines[..|lines| - 1];
      forall k | 0 <= k < |init| ensures init[k].partId in parts { assert init[k] == lines[k]; }
      ViewsOfNewItems(firstId, saleId, init, parts);
      var all := SaleItemsFor(firstId, saleId, lines);
      assert all[..|all| - 1] == SaleItemsFor(firstId, saleId, init);
    }
  }

  /** Right after a sale, get_sale_items lists one row per line, in line
      order, each joined with its part. */
  lemma NewSaleItemViews(items: seq<SaleItemRow>, firstId: int, saleId: int,
                         lines: seq<SaleLine>, parts: PartTable)
    requires forall k :: 0 <= k < |items| ==> items[k].saleId != saleId
    requires forall k :: 0 <= k < |lines| ==> lines[k].partId in parts
    ensures var v := SaleItemViews(items + SaleItemsFor(firstId, saleId, lines), parts, saleId);
      && |v| == |lines|
      && forall k :: 0 <= k < |lines| ==>
           v[k] == SaleItemView(SaleItemRow(firstId + k, saleId, lines[k].partId, lines[k].quantity, lines[k].price),
                                parts[lines[k].partId].article, parts[lines[k].partId].name)
  {
    SaleItemViewsConcat(items, SaleItemsFor(firstId, saleId, lines), parts, saleId);
    SaleItemViewsNone(items, parts, saleId);
    ViewsOfNewItems(firstId, saleId, lines, parts);
  }

  // ---------------------------------------------------------------------------
  // create_receipt
  // ---------------------------------------------------------------------------

  /** `sum(item['quantity'] * item['buy_price'] for item in items)` */
  function ReceiptTotal(lines: seq<ReceiptLine>): Money {
    if lines == [] then 0
    else ReceiptTotal(lines[..|lines| - 1]) + lines[|lines| - 1].quantity * lines[|lines| - 1].buyPrice
  }

  /** `UPDATE parts SET quantity = quantity + ?, updated_at = ? WHERE id = ?` */
  function CreditOne(parts: PartTable, line: ReceiptLine, now: Timestamp): PartTable {
    if line.partId in parts then
      parts[line.partId := parts[line.partId].(quantity := parts[line.partId].quantity + line.quantity, updatedAt := now)]
    else parts
  }

  function Credit(parts: PartTable, lines: seq<ReceiptLine>, now: Timestamp): (r: PartTable)
    ensures r.Keys == parts.Keys
  {
    if lines == [] then parts
    else CreditOne(Credit(parts, lines[..|lines| - 1], now), lines[|lines| - 1], now)
  }

  function QuantityReceived(lines: seq<ReceiptLine>, id: int): int {
    if lines == [] then 0
    else QuantityReceived(lines[..|lines| - 1], id)
         + (if lines[|lines| - 1].partId == id then lines[|lines| - 1].quantity else 0)
  }

  /** A receipt adds to each part everything its lines name for it, repeated
      lines included, and touches nothing else; lines naming a missing part
      change no stock. */
  lemma {:induction false} CreditEffect(parts: PartTable, lines: seq<ReceiptLine>, now: Timestamp)
    ensures forall id :: id in parts ==>
      && Credit(parts, lines, now)[id].quantity == parts[id].quantity + QuantityReceived(lines, id)
      && SameExceptStock(Credit(parts, lines, now)[id], parts[id])
  {
    if lines != [] {
      CreditEffect(parts, lines[..|lines| - 1], now);
    }
  }

  lemma {:induction false} QuantityReceivedNonNegative(lines: seq<ReceiptLine>, id: int)
    requires forall k :: 0 <= k < |lines| ==> lines[k].quantity >= 0
    ensures QuantityReceived(lines, id) >= 0
  {
    if lines != [] {
      QuantityReceivedNonNegative(lines[..|lines| - 1], id);
    }
  }

  /** A receipt with non-negative quantities never lowers a stock, so it keeps
      every stock non-negative. */
  lemma ReceiptNeverLowersStock(parts: PartTable, lines: seq<ReceiptLine>, now: Timestamp)
    requires forall k :: 0 <= k < |lines| ==> lines[k].quantity >= 0
    ensures forall id :: id in parts ==> Credit(parts, lines, now)[id].quantity >= parts[id].quantity
    ensures StockNonNegative(parts) ==> StockNonNegative(Credit(parts, lines, now))
  {
    CreditEffect(parts, lines, now);
    forall id | id in parts ensures Credit(parts, lines, now)[id].quantity >= parts[id].quantity {
      QuantityReceivedNonNegative(lines, id);
    }
  }

  function ReceiptItemsFor(firstId: int, receiptId: int, lines: seq<ReceiptLine>): (r: seq<ReceiptItemRow>)
    ensures |r| == |lines|
  {
    seq(|lines|, i requires 0 <= i < |lines| =>
      ReceiptItemRow(firstId + i, receiptId, lines[i].partId, lines[i].quantity, lines[i].buyPrice))
  }

  function CountReceiptItems(items: seq<ReceiptItemRow>, receiptId: int): nat {
    |Filter(items, (it: ReceiptItemRow) => it.receiptId == receiptId)|
  }

  /** A new receipt reports as many items as it had lines. */
  lemma NewReceiptItemsCount(items: seq<ReceiptItemRow>, firstId: int, receiptId: int, lines: seq<ReceiptLine>)
    requires forall k :: 0 <= k < |items| ==> items[k].receiptId != receiptId
    ensures CountReceiptItems(items + ReceiptItemsFor(firstId, receiptId, lines), receiptId) == |lines|
  {
    var p := (it: ReceiptItemRow) => it.receiptId == receiptId;
    FilterConcat(items, ReceiptItemsFor(firstId, receiptId, lines), p);
    FilterNone(items, p);
    FilterAll(ReceiptItemsFor(firstId, receiptId, lines), p);
  }

  function ReceiptItemViews(items: seq<ReceiptItemRow>, parts: PartTable, receiptId: int): seq<ReceiptItemView> {
    if items == [] then []
    else
      var it := items[|items| - 1];
      ReceiptItemViews(items[..|items| - 1], parts, receiptId)
      + (if it.receiptId == receiptId && it.partId in parts
         then [ReceiptItemView(it, parts[it.partId].article, parts[it.partId].name)] else [])
  }

  lemma {:induction false} ReceiptItemViewsNone(items: seq<ReceiptItemRow>, parts: PartTable, receiptId: int)
    requires forall k :: 0 <= k < |items| ==> items[k].receiptId != receiptId
    ensures ReceiptItemViews(items, parts, receiptId) == []
  {
    if items != [] {
      ReceiptItemViewsNone(items[..|items| - 1], parts, receiptId);
    }
  }

  lemma {:induction false} ReceiptItemViewsConcat(a: seq<ReceiptItemRow>, b: seq<ReceiptItemRow>, parts: PartTable, receiptId: int)
    ensures ReceiptItemViews(a + b, parts, receiptId) == ReceiptItemViews(a, parts, receiptId) + ReceiptItemViews(b, parts, receiptId)
    decreases |b|
  {
    if b == [] {
      assert a + b == a;
    } else {
      assert (a + b)[..|a + b| - 1] == a + b[..|b| - 1];
      ReceiptItemViewsConcat(a, b[..|b| - 1], parts, receiptId);
    }
  }

  /** The joined view of freshly inserted receipt items, one row per line. */
  lemma {:induction false} ViewsOfNewReceiptItems(firstId: int, receiptId: int, lines: seq<ReceiptLine>, parts: PartTable)
    requires forall k :: 0 <= k < |lines| ==> lines[k].partId in parts
    ensures var v := ReceiptItemViews(ReceiptItemsFor(firstId, receiptId, lines), parts, receiptId);
      && |v| == |lines|
      && forall k :: 0 <= k < |lines| ==>
           v[k] == ReceiptItemView(ReceiptItemRow(firstId + k, receiptId, lines[k].partId, lines[k].quantity, lines[k].buyPrice),
                                   parts[lines[k].partId].article, parts[lines[k].partId].name)
  {
    if lines != [] {
      var init := lines[..|lines| - 1];
      forall k | 0 <= k < |init| ensures init[k].partId in parts { assert init[k] == lines[k]; }
      ViewsOfNewReceiptItems(firstId, receiptId, init, parts);
      var all := ReceiptItemsFor(firstId, receiptId, lines);
      assert all[..|all| - 1] == ReceiptItemsFor(firstId, receiptId, init);
    }
  }

  /** Right after a receipt, get_receipt_items lists one row per line, in
      line order, each joined with its part. */
  lemma NewReceiptItemViews(items: seq<ReceiptItemRow>, firstId: int, receiptId: int,
                            lines: seq<ReceiptLine>, parts: PartTable)
    requires forall k :: 0 <= k < |items| ==> items[k].receiptId != receiptId
    requires forall k :: 0 <= k < |lines| ==> lines[k].partId in parts
    ensures var v := ReceiptItemViews(items + ReceiptItemsFor(firstId, receiptId, lines), parts, receiptId);
      && |v| == |lines|
      && forall k :: 0 <= k < |lines| ==>
           v[k] == ReceiptItemView(ReceiptItemRow(firstId + k, receiptId, lines[k].partId, lines[k].quantity, lines[k].buyPrice),
                                   parts[lines[k].partId].article, parts[lines[k].partId].name)
  {
    ReceiptItemViewsConcat(items, ReceiptItemsFor(firstId, receiptId, lines), parts, receiptId);
    ReceiptItemViewsNone(items, parts, receiptId);
    ViewsOfNewReceiptItems(firstId, receiptId, lines, parts);
  }

  // ---------------------------------------------------------------------------
  // Listings of sales and receipts
  // ---------------------------------------------------------------------------

  /** `ORDER BY date DESC` */
  predicate SaleNewerFirst(a: SaleSummary, b: SaleSummary) { a.date >= b.date }
  predicate ReceiptNewerFirst(a: ReceiptSummary, b: ReceiptSummary) { a.date >= b.date }

  lemma NewerFirstTotalPreorders()
    ensures TotalPreorder(SaleNewerFirst) && TotalPreorder(ReceiptNewerFirst)
  {
  }

  function SaleSummaries(sales: seq<SaleRow>, items: seq<SaleItemRow>): (r: seq<SaleSummary>)
    ensures |r| == |sales|
  {
    seq(|sales|, i requires 0 <= i < |sales| =>
      SaleSummary(sales[i].id, sales[i].date, sales[i].total, CountSaleItems(items, sales[i].id)))
  }

  function ReceiptSummaries(receipts: seq<ReceiptRow>, items: seq<ReceiptItemRow>): (r: seq<ReceiptSummary>)
    ensures |r| == |receipts|
  {
    seq(|receipts|, i requires 0 <= i < |receipts| =>
      ReceiptSummary(receipts[i].id, receipts[i].date, receipts[i].supplier, receipts[i].total,
                     receipts[i].notes, CountReceiptItems(items, receipts[i].id)))
  }

  // ---------------------------------------------------------------------------
  // The database
  // ---------------------------------------------------------------------------

  /** `r` lists the rows of `parts` whose ids are below `bound`, each once,
      ordered by article. */
  ghost predicate ListsRowsBelow(parts: PartTable, bound: int, r: seq<PartRecord>) {
    && SortedBy(r, ByArticle) && NoDuplicates(r)
    && (forall k :: 0 <= k < |r| ==> r[k].id < bound && r[k].id in parts && parts[r[k].id] == r[k])
    && (forall id :: id in parts && id < bound ==> parts[id] in r)
  }

  lemma {:induction false} ListsRowsInsert(parts: PartTable, bound: int, r: seq<PartRecord>)
    requires ListsRowsBelow(parts, bound, r) && bound in parts
    requires forall i :: i in parts ==> parts[i].id == i
    ensures ListsRowsBelow(parts, bound + 1, Insert(parts[bound], r, ByArticle))
  {
    ByArticleTotalPreorder();
    var x := parts[bound];
    var r' := Insert(x, r, ByArticle);
    assert x !in r by {
      if k :| 0 <= k < |r| && r[k] == x {
        assert r[k].id == bound;
      }
    }
    InsertSorted(x, r, ByArticle);
    assert multiset(r') == multiset(r + [x]);
    assert NoDuplicates(r + [x]) by {
      forall i, j | 0 <= i < j < |r + [x]| ensures (r + [x])[i] != (r + [x])[j] {
        if j == |r| { assert (r + [x])[i] == r[i]; }
      }
    }
    SameMultisetNoDuplicates(r + [x], r');
    forall k | 0 <= k < |r'| ensures r'[k].id < bound + 1 && r'[k].id in parts && parts[r'[k].id] == r'[k] {
      assert r'[k] in multiset(r + [x]);
      if r'[k] != x {
        var j :| 0 <= j < |r| && r[j] == r'[k];
      }
    }
    forall i | i in parts && i < bound + 1 ensures parts[i] in r' {
      if i != bound {
        assert parts[i] in multiset(r);
      }
      assert parts[i] in multiset(r + [x]);
    }
  }

  /** The rows of a table keyed by ids below `bound`, ordered by article. */
  method ListRows(parts: PartTable, bound: int) returns (r: seq<PartRecord>)
    requires forall i :: i in parts ==> parts[i].id == i && 1 <= i < bound
    ensures ListsRowsBelow(parts, bound, r)
  {
    r := [];
    var id := 1;
    while id < bound
      invariant 1 <= id <= bound || bound < 1
      invariant ListsRowsBelow(parts, id, r)
    {
      if id in parts {
        ListsRowsInsert(parts, id, r);
        r := Insert(parts[id], r, ByArticle);
      }
      id := id + 1;
    }
  }

  /** The part map is keyed by id, every id is below the table's counter and
      articles are unique. */
  ghost predicate PartsValid(parts: PartTable, nextPartId: int) {
    && 1 <= nextPartId
    && (forall id :: id in parts ==> parts[id].id == id && 1 <= id < nextPartId)
    && ArticlesUnique(parts)
  }

  /** Sale ids are unique, sale ids and item ids are below their counters,
      and every item belongs to a sale id already issued. */
  ghost predicate SalesValid(sales: seq<SaleRow>, items: seq<SaleItemRow>, nextSaleId: int, nextItemId: int) {
    && 1 <= nextSaleId && 1 <= nextItemId
    && (forall k :: 0 <= k < |sales| ==> 1 <= sales[k].id < nextSaleId)
    && (forall i, j :: 0 <= i < j < |sales| ==> sales[i].id != sales[j].id)
    && (forall k :: 0 <= k < |items| ==> items[k].saleId < nextSaleId && items[k].id < nextItemId)
  }

  ghost predicate ReceiptsValid(receipts: seq<ReceiptRow>, items: seq<ReceiptItemRow>, nextReceiptId: int, nextItemId: int) {
    && 1 <= nextReceiptId && 1 <= nextItemId
    && (forall k :: 0 <= k < |receipts| ==> 1 <= receipts[k].id < nextReceiptId)
    && (forall i, j :: 0 <= i < j < |receipts| ==> receipts[i].id != receipts[j].id)
    && (forall k :: 0 <= k < |items| ==> items[k].receiptId < nextReceiptId && items[k].id < nextItemId)
  }

  lemma DebitKeepsPartsValid(parts: PartTable, nextPartId: int, lines: seq<SaleLine>, now: Timestamp)
    requires PartsValid(parts, nextPartId)
    ensures PartsValid(Debit(parts, lines, now), nextPartId)
  {
    DebitEffect(parts, lines, now);
    SameExceptStockKeepsKeys(parts, Debit(parts, lines, now));
  }

  lemma CreditKeepsPartsValid(parts: PartTable, nextPartId: int, lines: seq<ReceiptLine>, now: Timestamp)
    requires PartsValid(parts, nextPartId)
    ensures PartsValid(Credit(parts, lines, now), nextPartId)
  {
    CreditEffect(parts, lines, now);
    SameExceptStockKeepsKeys(parts, Credit(parts, lines, now));
  }

  lemma NewSaleKeepsSalesValid(sales: seq<SaleRow>, items: seq<SaleItemRow>, nextSaleId: int, nextItemId: int,
                               row: SaleRow, lines: seq<SaleLine>)
    requires SalesValid(sales, items, nextSaleId, nextItemId) && row.id == nextSaleId
    ensures SalesValid(sales + [row], items + SaleItemsFor(nextItemId, nextSaleId, lines),
                       nextSaleId + 1, nextItemId + |lines|)
  {
  }

  lemma NewReceiptKeepsReceiptsValid(receipts: seq<ReceiptRow>, items: seq<ReceiptItemRow>, nextReceiptId: int,
                                     nextItemId: int, row: ReceiptRow, lines: seq<ReceiptLine>)
    requires ReceiptsValid(receipts, items, nextReceiptId, nextItemId) && row.id == nextReceiptId
    ensures ReceiptsValid(receipts + [row], items + ReceiptItemsFor(nextItemId, nextReceiptId, lines),
                          nextReceiptId + 1, nextItemId + |lines|)
  {
  }

  /** The first loop of create_sale: every line is checked against the stock
      as it was before the sale. */
  method CheckStock(parts: PartTable, lines: seq<SaleLine>) returns (ok: bool)
    ensures ok == SaleAccepted(parts, lines)
  {
    var i := 0;
    while i < |lines|
      invariant 0 <= i <= |lines|
      invariant forall k :: 0 <= k < i ==> LineCovered(parts, lines[k])
    {
      if !LineCovered(parts, lines[i]) {
        return false;
      }
      i := i + 1;
    }
    return true;
  }

  /** The second loop of create_sale: one sale_items row per line, and each
      line's quantity taken off its part. */
  method DebitLines(parts: PartTable, firstId: int, saleId: int, lines: seq<SaleLine>, now: Timestamp)
    returns (p: PartTable, added: seq<SaleItemRow>)
    ensures p == Debit(parts, lines, now)
    ensures added == SaleItemsFor(firstId, saleId, lines)
  {
    p, added := parts, [];
    var i := 0;
    while i < |lines|
      invariant 0 <= i <= |lines|
      invariant p == Debit(parts, lines[..i], now)
      invariant added == SaleItemsFor(firstId, saleId, lines[..i])
    {
      var line := lines[i];
      added := added + [SaleItemRow(firstId + i, saleId, line.partId, line.quantity, line.price)];
      if line.partId in p {
        p := p[line.partId := p[line.partId].(quantity := p[line.partId].quantity - line.quantity, updatedAt := now)];
      }
      assert lines[..i + 1][..i] == lines[..i];
      i := i + 1;
    }
    assert lines[..|lines|] == lines;
  }

  /** The loop of create_receipt: one receipt_items row per line, and each
      line's quantity added to its part. */
  method CreditLines(parts: PartTable, firstId: int, receiptId: int, lines: seq<ReceiptLine>, now: Timestamp)
    returns (p: PartTable, added: seq<ReceiptItemRow>)
    ensures p == Credit(parts, lines, now)
    ensures added == ReceiptItemsFor(firstId, receiptId, lines)
  {
    p, added := parts, [];
    var i := 0;
    while i < |lines|
      invariant 0 <= i <= |lines|
      invariant p == Credit(parts, lines[..i], now)
      invariant added == ReceiptItemsFor(firstId, receiptId, lines[..i])
    {
      var line := lines[i];
      added := added + [ReceiptItemRow(firstId + i, receiptId, line.partId, line.quantity, line.buyPrice)];
      if line.partId in p {
        p := p[line.partId := p[line.partId].(quantity := p[line.partId].quantity + line.quantity, updatedAt := now)];
      }
      assert lines[..i + 1][..i] == lines[..i];
      i := i + 1;
    }
    assert lines[..|lines|] == lines;
  }

  class SimpleDatabase {
    var parts: PartTable
    var sales: seq<SaleRow>
    var saleItems: seq<SaleItemRow>
    var receipts: seq<ReceiptRow>
    var receiptItems: seq<ReceiptItemRow>
    var nextPartId: int
    var nextSaleId: int
    var nextSaleItemId: int
    var nextReceiptId: int
    var nextReceiptItemId: int

    /** Primary keys are below their table's counter, the part map is keyed
        by id, articles are unique, and every item points at an id its parent
        table has issued. */
    ghost predicate Valid()
      reads this
    {
      && PartsValid(parts, nextPartId)
      && SalesValid(sales, saleItems, nextSaleId, nextSaleItemId)
      && ReceiptsValid(receipts, receiptItems, nextReceiptId, nextReceiptItemId)
    }

    /** init_database on a file without the tables: five empty tables. */
    constructor ()
      ensures Valid()
      ensures parts == map[] && sales == [] && saleItems == [] && receipts == [] && receiptItems == []
    {
      parts, sales, saleItems, receipts, receiptItems := map[], [], [], [], [];
      nextPartId, nextSaleId, nextSaleItemId, nextReceiptId, nextReceiptItemId := 1, 1, 1, 1, 1;
    }

    method AddPart(article: string, name: string, brand: string, carModel: string, category: string,
                   quantity: int, buyPrice: Money, sellPrice: Money, description: string, now: Timestamp)
      returns (ok: bool)
      requires Valid()
      modifies this
      ensures Valid()
      ensures ok == !ArticleTaken(old(parts), article)
      ensures ok ==> && nextPartId == old(nextPartId) + 1
                     && parts == old(parts)[old(nextPartId) := PartRecord(old(nextPartId), article, name, brand,
                          carModel, category, quantity, buyPrice, sellPrice, description, now, now)]
      ensures !ok ==> parts == old(parts) && nextPartId == old(nextPartId)
      ensures sales == old(sales) && saleItems == old(saleItems) && receipts == old(receipts)
      ensures receiptItems == old(receiptItems) && nextSaleId == old(nextSaleId)
      ensures nextSaleItemId == old(nextSaleItemId) && nextReceiptId == old(nextReceiptId)
      ensures nextReceiptItemId == old(nextReceiptItemId)
    {
      if exists id :: id in parts && parts[id].article == article {
        // sqlite3.IntegrityError on the UNIQUE article
        return false;
      }
      var id := nextPartId;
      parts := parts[id := PartRecord(id, article, name, brand, carModel, category, quantity,
                                      buyPrice, sellPrice, description, now, now)];
      nextPartId := nextPartId + 1;
      return true;
    }

    /** `SELECT * FROM parts ORDER BY article` */
    method GetAllParts() returns (r: seq<PartRecord>)
      requires Valid()
      ensures ListsRowsBelow(parts, nextPartId, r)
    {
      r := ListRows(parts, nextPartId);
    }

    /** The case-insensitive search over article, name, brand, car_model and
        category, `ORDER BY article`. */
    method SearchParts(query: string) returns (r: seq<PartRecord>)
      requires Valid()
      ensures SortedBy(r, ByArticle) && NoDuplicates(r)
      ensures forall k :: 0 <= k < |r| ==> r[k].id in parts && parts[r[k].id] == r[k] && Matches(query, r[k])
      ensures forall id :: id in parts && Matches(query, parts[id]) ==> parts[id] in r
    {
      var all := GetAllParts();
      r := Filter(all, (p: PartRecord) => Matches(query, p));
      FilterKeepsSorted(all, (p: PartRecord) => Matches(query, p), ByArticle);
      FilterKeepsNoDuplicates(all, (p: PartRecord) => Matches(query, p));
      forall id | id in parts && Matches(query, parts[id]) ensures parts[id] in r {
        var k :| 0 <= k < |all| && all[k] == parts[id];
      }
    }

    /** `UPDATE parts SET <named columns>, updated_at = ? WHERE id = ?`; true
        iff a row changed. Naming no column is an SQL syntax error, and an
        article another part carries is a UNIQUE violation: both change nothing. */
    method UpdatePart(id: int, u: PartUpdate, now: Timestamp) returns (ok: bool)
      requires Valid()
      modifies this
      ensures Valid()
      ensures ok == (id in old(parts) && !NamesNoColumn(u) && !ArticleClash(old(parts), id, u))
      ensures ok ==> parts == old(parts)[id := ApplyUpdate(old(parts)[id], u, now)]
      ensures !ok ==> parts == old(parts)
      ensures sales == old(sales) && saleItems == old(saleItems) && receipts == old(receipts)
      ensures receiptItems == old(receiptItems) && nextPartId == old(nextPartId) && nextSaleId == old(nextSaleId)
      ensures nextSaleItemId == old(nextSaleItemId) && nextReceiptId == old(nextReceiptId)
      ensures nextReceiptItemId == old(nextReceiptItemId)
    {
      if NamesNoColumn(u) {
        return false;
      }
      if id !in parts {
        // no row matches: rowcount is 0
        return false;
      }
      if u.article.Some? && exists other :: other in parts && other != id && parts[other].article == u.article.value {
        return false;
      }
      parts := parts[id := ApplyUpdate(parts[id], u, now)];
      return true;
    }

    /** `DELETE FROM parts WHERE id = ?`; true iff a row was deleted. Foreign
        keys are not enforced, so items of the part's sales and receipts stay. */
    method DeletePart(id: int) returns (ok: bool)
      requires Valid()
      modifies this
      ensures Valid()
      ensures ok == (id in old(parts))
      ensures parts == old(parts) - {id} && id !in parts
      ensures sales == old(sales) && saleItems == old(saleItems) && receipts == old(receipts)
      ensures receiptItems == old(receiptItems) && nextPartId == old(nextPartId) && nextSaleId == old(nextSaleId)
      ensures nextSaleItemId == old(nextSaleItemId) && nextReceiptId == old(nextReceiptId)
      ensures nextReceiptItemId == old(nextReceiptItemId)
    {
      ok := id in parts;
      parts := parts - {id};
    }

    /** `SELECT * FROM parts WHERE id = ?` */
    method GetPartById(id: int) returns (r: Option<PartRecord>)
      requires Valid()
      ensures r.None? <==> id !in parts
      ensures r.Some? ==> r.value == parts[id] && r.value.id == id
    {
      if id in parts {
        r := Some(parts[id]);
      } else {
        r := None;
      }
    }

    /** Checks every line against the stock before touching anything; on the
        first uncovered line it rolls back and reports false. Otherwise it
        inserts the sale with the cart total, one item per line, and takes each
        line's quantity off its part. */
    method CreateSale(lines: seq<SaleLine>, now: Timestamp) returns (ok: bool)
      requires Valid()
      modifies this
      ensures Valid()
      ensures ok == SaleAccepted(old(parts), lines)
      ensures ok ==>
        && sales == old(sales) + [SaleRow(old(nextSaleId), now, SaleTotal(lines))]
        && saleItems == old(saleItems) + SaleItemsFor(old(nextSaleItemId), old(nextSaleId), lines)
        && parts == Debit(old(parts), lines, now)
        && nextSaleId == old(nextSaleId) + 1
        && nextSaleItemId == old(nextSaleItemId) + |lines|
      ensures !ok ==>
        && sales == old(sales) && saleItems == old(saleItems) && parts == old(parts)
        && nextSaleId == old(nextSaleId) && nextSaleItemId == old(nextSaleItemId)
      ensures receipts == old(receipts) && receiptItems == old(receiptItems) && nextPartId == old(nextPartId)
      ensures nextReceiptId == old(nextReceiptId) && nextReceiptItemId == old(nextReceiptItemId)
    {
      ok := CheckStock(parts, lines);
      if !ok {
        // ValueError, then ROLLBACK
        return;
      }
      var saleId := nextSaleId;
      var p, added := DebitLines(parts, nextSaleItemId, saleId, lines, now);
      DebitKeepsPartsValid(parts, nextPartId, lines, now);
      NewSaleKeepsSalesValid(sales, saleItems, nextSaleId, nextSaleItemId, SaleRow(saleId, now, SaleTotal(lines)), lines);
      sales := sales + [SaleRow(saleId, now, SaleTotal(lines))];
      nextSaleId := nextSaleId + 1;
      saleItems := saleItems + added;
      nextSaleItemId := nextSaleItemId + |lines|;
      parts := p;
    }

    /** The sales with the number of their items, newest first. */
    method GetAllSales() returns (r: seq<SaleSummary>)
      requires Valid()
      ensures SortedBy(r, SaleNewerFirst)
      ensures multiset(r) == multiset(SaleSummaries(sales, saleItems))
    {
      NewerFirstTotalPreorders();
      r := [];
      var i := 0;
      while i < |sales|
        invariant 0 <= i <= |sales|
        invariant SortedBy(r, SaleNewerFirst)
        invariant multiset(r) == multiset(SaleSummaries(sales[..i], saleItems))
      {
        var s := sales[i];
        var summary := SaleSummary(s.id, s.date, s.total, CountSaleItems(saleItems, s.id));
        InsertSorted(summary, r, SaleNewerFirst);
        r := Insert(summary, r, SaleNewerFirst);
        assert SaleSummaries(sales[..i + 1], saleItems) == SaleSummaries(sales[..i], saleItems) + [summary];
        i := i + 1;
      }
      assert sales[..|sales|] == sales;
    }

    /** `SELECT si.*, p.article, p.name FROM sale_items si JOIN parts p ... WHERE si.sale_id = ?` */
    method GetSaleItems(saleId: int) returns (r: seq<SaleItemView>)
      requires Valid()
      ensures r == SaleItemViews(saleItems, parts, saleId)
    {
      r := [];
      var i := 0;
      while i < |saleItems|
        invariant 0 <= i <= |saleItems|
        invariant r == SaleItemViews(saleItems[..i], parts, saleId)
      {
        var it := saleItems[i];
        if it.saleId == saleId && it.partId in parts {
          r := r + [SaleItemView(it, parts[it.partId].article, parts[it.partId].name)];
        }
        assert saleItems[..i + 1][..i] == saleItems[..i];
        i := i + 1;
      }
      assert saleItems[..|saleItems|] == saleItems;
    }

    /** Inserts the receipt with its total and one item per line, and adds each
        line's quantity to its part. There is no stock check and no failure. */
    method CreateReceipt(supplier: string, lines: seq<ReceiptLine>, notes: string, now: Timestamp)
      returns (ok: bool)
      requires Valid()
      modifies this
      ensures Valid()
      ensures ok
      ensures receipts == old(receipts) + [ReceiptRow(old(nextReceiptId), now, supplier, ReceiptTotal(lines), notes)]
      ensures receiptItems == old(receiptItems) + ReceiptItemsFor(old(nextReceiptItemId), old(nextReceiptId), lines)
      ensures parts == Credit(old(parts), lines, now)
      ensures nextReceiptId == old(nextReceiptId) + 1
      ensures nextReceiptItemId == old(nextReceiptItemId) + |lines|
      ensures sales == old(sales) && saleItems == old(saleItems) && nextPartId == old(nextPartId)
      ensures nextSaleId == old(nextSaleId) && nextSaleItemId == old(nextSaleItemId)
    {
      var receiptId := nextReceiptId;
      var p, added := CreditLines(parts, nextReceiptItemId, receiptId, lines, now);
      CreditKeepsPartsValid(parts, nextPartId, lines, now);
      NewReceiptKeepsReceiptsValid(receipts, receiptItems, nextReceiptId, nextReceiptItemId,
                                   ReceiptRow(receiptId, now, supplier, ReceiptTotal(lines), notes), lines);
      receipts := receipts + [ReceiptRow(receiptId, now, supplier, ReceiptTotal(lines), notes)];
      nextReceiptId := nextReceiptId + 1;
      receiptItems := receiptItems + added;
      nextReceiptItemId := nextReceiptItemId + |lines|;
      parts := p;
      return true;
    }

    /** The receipts with the number of their items, newest first. */
    method GetAllReceipts() returns (r: seq<ReceiptSummary>)
      requires Valid()
      ensures SortedBy(r, ReceiptNewerFirst)
      ensures multiset(r) == multiset(ReceiptSummaries(receipts, receiptItems))
    {
      NewerFirstTotalPreorders();
      r := [];
      var i := 0;
      while i < |receipts|
        invariant 0 <= i <= |receipts|
        invariant SortedBy(r, ReceiptNewerFirst)
        invariant multiset(r) == multiset(ReceiptSummaries(receipts[..i], receiptItems))
      {
        var c := receipts[i];
        var summary := ReceiptSummary(c.id, c.date, c.supplier, c.total, c.notes, CountReceiptItems(receiptItems, c.id));
        InsertSorted(summary, r, ReceiptNewerFirst);
        r := Insert(summary, r, ReceiptNewerFirst);
        assert ReceiptSummaries(receipts[..i + 1], receiptItems) == ReceiptSummaries(receipts[..i], receiptItems) + [summary];
        i := i + 1;
      }
      assert receipts[..|receipts|] == receipts;
    }

    /** `SELECT ri.*, p.article, p.name FROM receipt_items ri JOIN parts p ... WHERE ri.receipt_id = ?` */
    method GetReceiptItems(receiptId: int) returns (r: seq<ReceiptItemView>)
      requires Valid()
      ensures r == ReceiptItemViews(receiptItems, parts, receiptId)
    {
      r := [];
      var i := 0;
      while i < |receiptItems|
        invariant 0 <= i <= |receiptItems|
        invariant r == ReceiptItemViews(receiptItems[..i], parts, receiptId)
      {
        var it := receiptItems[i];
        if it.receiptId == receiptId && it.partId in parts {
          r := r + [ReceiptItemView(it, parts[it.partId].article, parts[it.partId].name)];
        }
        assert receiptItems[..i + 1][..i] == receiptItems[..i];
        i := i + 1;
      }
      assert receiptItems[..|receiptItems|] == receiptItems;
    }
  }
}
