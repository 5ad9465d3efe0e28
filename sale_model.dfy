/** The peewee `Sale` and `SaleItem` models. A sale's `items` back-reference
    is the sale_items rows whose `sale` column holds the sale's id. */
module SaleModel {
  import opened Sorting
  import opened Schema

  datatype SaleRecord = SaleRecord(id: int, date: Timestamp, total: Money)

  /** A sale_items row; `part` holds the part's id. */
  datatype SaleItemRecord = SaleItemRecord(id: int, saleId: int, part: int, quantity: int, price: Money)

  /** `SaleItem.total_price`. */
  function TotalPrice(it: SaleItemRecord): Money {
    it.quantity * it.price
  }

  /** `sale.items`: the rows of sale_items that belong to the sale, in table
      order. */
  function ItemsOf(items: seq<SaleItemRecord>, saleId: int): (r: seq<SaleItemRecord>)
    ensures forall k :: 0 <= k < |r| ==> r[k] in items && r[k].saleId == saleId
    ensures forall k :: 0 <= k < |items| && items[k].saleId == saleId ==> items[k] in r
  {
    Filter(items, (it: SaleItemRecord) => it.saleId == saleId)
  }

  /** `sum(item.total_price for item in items)` */
  function ItemsTotal(items: seq<SaleItemRecord>): Money {
    if items == [] then 0 else ItemsTotal(items[..|items| - 1]) + TotalPrice(items[|items| - 1])
  }

  /** Splitting the items splits the sum. */
  lemma {:induction false} ItemsTotalConcat(a: seq<SaleItemRecord>, b: seq<SaleItemRecord>)
    ensures ItemsTotal(a + b) == ItemsTotal(a) + ItemsTotal(b)
    decreases |b|
  {
    if b == [] {
      assert a + b == a;
    } else {
      assert (a + b)[..|a + b| - 1] == a + b[..|b| - 1];
      ItemsTotalConcat(a, b[..|b| - 1]);
    }
  }

  /** Two units at 180 and one at 120 total 480. */
  lemma ItemsTotalExample()
    ensures ItemsTotal([SaleItemRecord(1, 1, 1, 2, 180), SaleItemRecord(2, 1, 2, 1, 120)]) == 480
  {
    var s := [SaleItemRecord(1, 1, 1, 2, 180), SaleItemRecord(2, 1, 2, 1, 120)];
    assert s[..1][..0] == [];
  }

  /** `Sale.items_count`: `self.items.count()`. */
  function ItemsCount(items: seq<SaleItemRecord>, saleId: int): nat {
    |ItemsOf(items, saleId)|
  }

  /** A new item row counts for its own sale only. */
  lemma ItemsCountAppend(items: seq<SaleItemRecord>, it: SaleItemRecord, saleId: int)
    ensures ItemsCount(items + [it], saleId) == ItemsCount(items, saleId) + (if it.saleId == saleId then 1 else 0)
  {
    var p := (x: SaleItemRecord) => x.saleId == saleId;
    FilterConcat(items, [it], p);
    assert [it][1..] == [];
  }

  /** A sale no row points at has no items. */
  lemma ItemsCountNone(items: seq<SaleItemRecord>, saleId: int)
    requires forall k :: 0 <= k < |items| ==> items[k].saleId != saleId
    ensures ItemsCount(items, saleId) == 0
  {
    FilterNone(items, (x: SaleItemRecord) => x.saleId == saleId);
  }

  /** An in-memory `Sale` instance. */
  class Sale {
    var id: int
    var date: Timestamp
    var total: Money

    function Record(): SaleRecord
      reads this
    {
      SaleRecord(id, date, total)
    }

    constructor (r: SaleRecord)
      ensures Record() == r
    {
      id, date, total := r.id, r.date, r.total;
    }

    /** `calculate_total`: sets and returns the sum of the sale's items. */
    method CalculateTotal(items: seq<SaleItemRecord>) returns (t: Money)
      modifies this
      ensures t == ItemsTotal(ItemsOf(items, old(id)))
      ensures Record() == old(Record()).(total := t)
    {
      t := ItemsTotal(ItemsOf(items, id));
      total := t;  // save()
    }
  }

  /** Recalculating with unchanged items gives the same total again. */
  method CalculateTotalIdempotent(s: Sale, items: seq<SaleItemRecord>) returns (first: Money, second: Money)
    modifies s
    ensures first == second && s.total == first
  {
    first := s.CalculateTotal(items);
    second := s.CalculateTotal(items);
  }
}
