/** The peewee `Part` model: a row object whose `reduce_quantity` changes its
    stock in place and saves it, the `profit_margin` property, and the
    `search` class query. */
module PartModel {
  import opened Text
  import opened Sorting
  import opened Schema

  // ---------------------------------------------------------------------------
  // reduce_quantity
  // ---------------------------------------------------------------------------

  /** `self.quantity >= amount`: the guard of reduce_quantity. */
  predicate CanReduce(r: PartRecord, amount: int) {
    r.quantity >= amount
  }

  /** The row after reduce_quantity: on success the stock drops by `amount`
      and save() stamps `updated_at`; otherwise nothing changes. */
  function Reduced(r: PartRecord, amount: int, now: Timestamp): PartRecord {
    if CanReduce(r, amount) then r.(quantity := r.quantity - amount, updatedAt := now) else r
  }

  /** Only stock and modification time move, and only on success. */
  lemma ReducedEffect(r: PartRecord, amount: int, now: Timestamp)
    ensures CanReduce(r, amount) ==>
      && Reduced(r, amount, now).quantity == r.quantity - amount
      && Reduced(r, amount, now).(quantity := r.quantity, updatedAt := r.updatedAt) == r
    ensures !CanReduce(r, amount) ==> Reduced(r, amount, now) == r
  {
  }

  /** Whatever the amount, a stock that starts non-negative stays so: the
      subtraction happens only when the stock covers it. */
  lemma ReduceKeepsStockNonNegative(r: PartRecord, amount: int, now: Timestamp)
    requires r.quantity >= 0
    ensures Reduced(r, amount, now).quantity >= 0
  {
  }

  /** Reducing by the whole stock succeeds and leaves exactly zero. */
  lemma ReduceByWholeStock(r: PartRecord, now: Timestamp)
    ensures CanReduce(r, r.quantity) && Reduced(r, r.quantity, now).quantity == 0
  {
  }

  /** A successful reduction followed by taking the same amount back restores
      the stock. */
  lemma ReduceThenReturn(r: PartRecord, amount: int, now: Timestamp)
    requires CanReduce(r, amount)
    ensures Reduced(r, amount, now).quantity + amount == r.quantity
  {
  }

  /** An in-memory `Part` instance, as `Part.get_by_id` returns it. */
  class Part {
    var id: int
    var article: string
    var name: string
    var brand: string
    var carModel: string
    var category: string
    var quantity: int
    var buyPrice: Money
    var sellPrice: Money
    var description: string
    var createdAt: Timestamp
    var updatedAt: Timestamp

    function Record(): PartRecord
      reads this
    {
      PartRecord(id, article, name, brand, carModel, category, quantity, buyPrice, sellPrice,
                 description, createdAt, updatedAt)
    }

    /** The instance loaded from row `r`. */
    constructor (r: PartRecord)
      ensures Record() == r
    {
      id, article, name, brand, carModel, category := r.id, r.article, r.name, r.brand, r.carModel, r.category;
      quantity, buyPrice, sellPrice, description := r.quantity, r.buyPrice, r.sellPrice, r.description;
      createdAt, updatedAt := r.createdAt, r.updatedAt;
    }

    method ReduceQuantity(amount: int, now: Timestamp) returns (ok: bool)
      modifies this
      ensures ok == CanReduce(old(Record()), amount)
      ensures Record() == Reduced(old(Record()), amount, now)
    {
      if quantity >= amount {
        quantity := quantity - amount;
        updatedAt := now;  // save()
        return true;
      }
      return false;
    }
  }

  // ---------------------------------------------------------------------------
  // profit_margin
  // ---------------------------------------------------------------------------

  /** `((sell_price - buy_price) / buy_price) * 100` when the buying price is
      positive, 0 otherwise. */
  function ProfitMargin(r: PartRecord): (m: real)
    ensures r.buyPrice <= 0 ==> m == 0.0
  {
    if r.buyPrice > 0 then ((r.sellPrice - r.buyPrice) as real / r.buyPrice as real) * 100.0 else 0.0
  }

  /** The margin is the percentage that, added to the buying price, gives the
      selling price; so it is positive, zero or negative exactly as the
      selling price is above, at or below the buying price. */
  lemma ProfitMarginMeaning(r: PartRecord)
    requires r.buyPrice > 0
    ensures r.buyPrice as real + r.buyPrice as real * ProfitMargin(r) / 100.0 == r.sellPrice as real
    ensures ProfitMargin(r) > 0.0 <==> r.sellPrice > r.buyPrice
    ensures ProfitMargin(r) == 0.0 <==> r.sellPrice == r.buyPrice
  {
    var b, d := r.buyPrice as real, (r.sellPrice - r.buyPrice) as real;
    assert ProfitMargin(r) == (d / b) * 100.0;
    assert b * ((d / b) * 100.0) / 100.0 == d;
    if d > 0.0 { assert d / b > 0.0; }
    if d < 0.0 { assert d / b < 0.0; }
  }

  /** Buying at 100 and selling at 150 is a 50 percent margin. */
  lemma ProfitMarginExample()
    ensures ProfitMargin(PartRecord(1, "TEST001", "n", "b", "m", "c", 10, 100, 150, "", 0, 0)) == 50.0
  {
  }

  // ---------------------------------------------------------------------------
  // Part.search
  // ---------------------------------------------------------------------------

  /** peewee's `field.contains(q)` on SQLite: `LIKE '%q%'`, whose comparison
      folds the ASCII letters only. */
  predicate ContainsIgnoringAsciiCase(field: string, query: string) {
    IsSubstring(SqlLower(query), SqlLower(field))
  }

  /** The where-clause of `Part.search`: article, name, brand or car model;
      the category is not searched. */
  predicate SearchHit(query: string, p: PartRecord) {
    || ContainsIgnoringAsciiCase(p.article, query)
    || ContainsIgnoringAsciiCase(p.name, query)
    || ContainsIgnoringAsciiCase(p.brand, query)
    || ContainsIgnoringAsciiCase(p.carModel, query)
  }

  /** The matching rows in table order (the query has no ORDER BY). */
  function Search(table: seq<PartRecord>, query: string): (r: seq<PartRecord>)
    ensures forall k :: 0 <= k < |r| ==> r[k] in table && SearchHit(query, r[k])
    ensures forall k :: 0 <= k < |table| && SearchHit(query, table[k]) ==> table[k] in r
    ensures multiset(r) <= multiset(table)
  {
    Filter(table, (p: PartRecord) => SearchHit(query, p))
  }

  /** The case of ASCII letters in the query does not matter. */
  lemma SearchIgnoresAsciiCase(table: seq<PartRecord>, query: string)
    ensures Search(table, SqlLower(query)) == Search(table, query)
  {
    SqlLowerIdempotent(query);
    FilterSamePredicate(table, (p: PartRecord) => SearchHit(SqlLower(query), p), (p: PartRecord) => SearchHit(query, p));
  }

  /** A search keeps the relative order of the table. */
  lemma {:induction false} SearchKeepsOrder(table: seq<PartRecord>, query: string, le: (PartRecord, PartRecord) -> bool)
    requires SortedBy(table, le)
    ensures SortedBy(Search(table, query), le)
  {
    FilterKeepsSorted(table, (p: PartRecord) => SearchHit(query, p), le);
  }

  /** The category is not searched: a part whose category alone carries the
      query is not found. */
  lemma SearchSkipsCategory()
    ensures var p := PartRecord(1, "OF-1", "Oil filter", "Bosch", "Camry", "Engine", 3, 100, 150, "", 0, 0);
      !SearchHit("Engine", p)
  {
    var q := SqlLower("Engine");
    assert q == "engine";
    assert SqlLower("OF-1") == "of-1";
    assert SqlLower("Bosch") == "bosch";
    assert SqlLower("Camry") == "camry";
    assert SqlLower("Oil filter") == "oil filter";
    FirstCharAbsent(q, "of-1");
    FirstCharAbsent(q, "bosch");
    FirstCharAbsent(q, "camry");
    FirstCharAbsent(q, "oil filter");
  }

  /** A needle whose first character is nowhere it could start does not
      occur. */
  lemma FirstCharAbsent(needle: string, hay: string)
    requires needle != []
    requires forall i :: 0 <= i <= |hay| - |needle| ==> hay[i] != needle[0]
    ensures !IsSubstring(needle, hay)
  {
    forall i | 0 <= i <= |hay| - |needle| ensures !OccursAt(needle, hay, i) {
      assert hay[i..i + |needle|][0] == hay[i];
    }
  }

  /** Whatever occurs verbatim in one of the four searched columns is found. */
  lemma {:induction false} SearchFindsVerbatim(query: string, p: PartRecord)
    requires || IsSubstring(query, p.article) || IsSubstring(query, p.name)
             || IsSubstring(query, p.brand) || IsSubstring(query, p.carModel)
    ensures SearchHit(query, p)
  {
    if IsSubstring(query, p.article) { SqlLowerKeepsSubstring(query, p.article); }
    else if IsSubstring(query, p.name) { SqlLowerKeepsSubstring(query, p.name); }
    else if IsSubstring(query, p.brand) { SqlLowerKeepsSubstring(query, p.brand); }
    else { SqlLowerKeepsSubstring(query, p.carModel); }
  }
}
