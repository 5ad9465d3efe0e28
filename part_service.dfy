/** `PartService`: queries over the peewee `parts` table, which is modelled
    as the sequence of its rows in storage order. */
module PartService {
  import opened Text
  import opened Sorting
  import opened Schema
  import opened PartModel

  type Table = seq<PartRecord>

  // ---------------------------------------------------------------------------
  // check_availability
  // ---------------------------------------------------------------------------

  /** `part.quantity >= quantity` */
  function CheckAvailability(p: PartRecord, quantity: int): bool {
    p.quantity >= quantity
  }

  /** The check agrees with `reduce_quantity`: it holds exactly when the
      reduction would succeed, so an exact match of stock and request is
      available and leaves nothing. */
  lemma CheckAvailabilityMatchesReduce(p: PartRecord, quantity: int, now: Timestamp)
    ensures CheckAvailability(p, quantity) <==> CanReduce(p, quantity)
    ensures CheckAvailability(p, quantity) ==> Reduced(p, quantity, now).quantity == p.quantity - quantity
    ensures CheckAvailability(p, p.quantity) && Reduced(p, p.quantity, now).quantity == 0
    ensures !CheckAvailability(p, p.quantity + 1)
  {
  }

  // ---------------------------------------------------------------------------
  // Listings
  // ---------------------------------------------------------------------------

  /** `Part.select().order_by(Part.article)` */
  function GetAllParts(table: Table): (r: Table)
    ensures SortedBy(r, ByArticle)
    ensures multiset(r) == multiset(table)
  {
    ByArticleTotalPreorder();
    SortSorted(table, ByArticle);
    Sort(table, ByArticle)
  }

  predicate InStock(p: PartRecord) { p.quantity > 0 }

  /** `where(Part.quantity > 0).order_by(Part.article)`: exactly the parts in
      stock, each as often as in the table, ordered by article. */
  function GetPartsInStock(table: Table): (r: Table)
    ensures SortedBy(r, ByArticle)
    ensures multiset(r) == multiset(Filter(table, InStock))
    ensures forall k :: 0 <= k < |r| ==> r[k] in table && r[k].quantity > 0
    ensures forall k :: 0 <= k < |table| && table[k].quantity > 0 ==> table[k] in r
  {
    var s := Filter(table, InStock);
    ByArticleTotalPreorder();
    SortSorted(s, ByArticle);
    SortKeepsMembers(s, ByArticle);
    Sort(s, ByArticle)
  }

  /** The default of `threshold`. */
  const DefaultLowStockThreshold: int := 5

  predicate ByQuantity(a: PartRecord, b: PartRecord) { a.quantity <= b.quantity }

  lemma ByQuantityTotalPreorder()
    ensures TotalPreorder(ByQuantity)
  {
  }

  predicate LowStock(p: PartRecord, threshold: int) { 0 < p.quantity <= threshold }

  /** `where((Part.quantity <= threshold) & (Part.quantity > 0)).order_by(Part.quantity)`:
      exactly the parts with some but at most `threshold` in stock, fewest first. */
  function GetLowStockParts(table: Table, threshold: int): (r: Table)
    ensures SortedBy(r, ByQuantity)
    ensures multiset(r) == multiset(Filter(table, (p: PartRecord) => LowStock(p, threshold)))
    ensures forall k :: 0 <= k < |r| ==> r[k] in table && 0 < r[k].quantity <= threshold
    ensures forall k :: 0 <= k < |table| && 0 < table[k].quantity <= threshold ==> table[k] in r
  {
    var s := Filter(table, (p: PartRecord) => LowStock(p, threshold));
    ByQuantityTotalPreorder();
    SortSorted(s, ByQuantity);
    SortKeepsMembers(s, ByQuantity);
    Sort(s, ByQuantity)
  }

  /** The low-stock list never holds a part that is out of stock, and with the
      default threshold it holds the parts with one to five units. */
  lemma LowStockDefault(table: Table, k: int)
    requires 0 <= k < |table|
    ensures table[k] in GetLowStockParts(table, DefaultLowStockThreshold) <==> 1 <= table[k].quantity <= 5
  {
    var r := GetLowStockParts(table, DefaultLowStockThreshold);
    if table[k] in r {
      var j :| 0 <= j < |r| && r[j] == table[k];
    }
  }

  // ---------------------------------------------------------------------------
  // search_parts
  // ---------------------------------------------------------------------------

  /** A blank query lists every part by article; any other query runs
      `Part.search` on the stripped query. */
  function SearchParts(table: Table, query: string): (r: Table)
    ensures IsBlank(query) ==> r == GetAllParts(table)
    ensures !IsBlank(query) ==>
      && (forall k :: 0 <= k < |r| ==> r[k] in table && SearchHit(Strip(query), r[k]))
      && (forall k :: 0 <= k < |table| && SearchHit(Strip(query), table[k]) ==> table[k] in r)
  {
    StripEmptyIffBlank(query);
    if Strip(query) == [] then GetAllParts(table) else Search(table, Strip(query))
  }

  lemma {:induction false} TrimLeftOfUnspaced(s: string)
    requires s == [] || !IsSpace(s[0])
    ensures TrimLeft(s) == s
  {
  }

  /** Stripping twice is stripping once. */
  lemma StripIdempotent(s: string)
    ensures Strip(Strip(s)) == Strip(s)
  {
    var r := Strip(s);
    StripTrimsBothEnds(s);
    TrimLeftOfUnspaced(r);
    assert TrimRight(r) == r;
  }

  /** Surrounding whitespace never changes the result: searching for the
      stripped query gives what searching for the raw query gives. */
  lemma SearchPartsIgnoresSurroundingSpace(table: Table, query: string)
    ensures SearchParts(table, Strip(query)) == SearchParts(table, query)
  {
    StripIdempotent(query);
    StripEmptyIffBlank(query);
    StripEmptyIffBlank(Strip(query));
  }

  // ---------------------------------------------------------------------------
  // get_categories / get_brands
  // ---------------------------------------------------------------------------

  /** `SELECT DISTINCT`: the values of `s` without repeats, in first-seen order. */
  function Distinct(s: seq<string>): (r: seq<string>)
    ensures NoDuplicates(r)
    ensures forall k :: 0 <= k < |r| ==> r[k] in s
    ensures forall k :: 0 <= k < |s| ==> s[k] in r
  {
    if s == [] then []
    else
      var d := Distinct(s[..|s| - 1]);
      var x := s[|s| - 1];
      assert forall k :: 0 <= k < |s| - 1 ==> s[k] == s[..|s| - 1][k];
      if x in d then d
      else
        assert forall k :: 0 <= k < |d| ==> d[k] != x;
        d + [x]
  }

  lemma StrLeTotalPreorder()
    ensures TotalPreorder(StrLe)
  {
    forall a: string, b: string ensures StrLe(a, b) || StrLe(b, a) {
      StrLeTotal(a, b);
    }
    forall a: string, b: string, c: string | StrLe(a, b) && StrLe(b, c) ensures StrLe(a, c) {
      StrLeTransitive(a, b, c);
    }
  }

  lemma DistinctNonEmptyMembers(column: seq<string>)
    ensures var d := Filter(Distinct(column), (v: string) => v != []);
      forall k :: 0 <= k < |column| && column[k] != [] ==> column[k] in d
  {
    var d := Filter(Distinct(column), (v: string) => v != []);
    forall k | 0 <= k < |column| && column[k] != [] ensures column[k] in d {
      var j :| 0 <= j < |Distinct(column)| && Distinct(column)[j] == column[k];
    }
  }

  /** Sorted without repeats means strictly increasing. */
  lemma StrictlySorted(r: seq<string>)
    requires SortedBy(r, StrLe) && NoDuplicates(r)
    ensures forall i, j :: 0 <= i < j < |r| ==> StrLe(r[i], r[j]) && r[i] != r[j]
  {
  }

  /** `sorted(v for v in distinct values if v)`: strictly increasing, every
      value non-empty and taken from `column`, every non-empty value of
      `column` present. */
  function DistinctSortedNonEmpty(column: seq<string>): (r: seq<string>)
    ensures forall i, j :: 0 <= i < j < |r| ==> StrLe(r[i], r[j]) && r[i] != r[j]
    ensures forall k :: 0 <= k < |r| ==> r[k] != [] && r[k] in column
    ensures forall k :: 0 <= k < |column| && column[k] != [] ==> column[k] in r
  {
    var d := Filter(Distinct(column), (v: string) => v != []);
    FilterKeepsNoDuplicates(Distinct(column), (v: string) => v != []);
    StrLeTotalPreorder();
    SortSorted(d, StrLe);
    var r := Sort(d, StrLe);
    SameMultisetNoDuplicates(d, r);
    SortKeepsMembers(d, StrLe);
    DistinctNonEmptyMembers(column);
    StrictlySorted(r);
    r
  }

  function Categories(table: Table): (r: seq<string>)
    ensures |r| == |table| && forall k :: 0 <= k < |table| ==> r[k] == table[k].category
  {
    seq(|table|, k requires 0 <= k < |table| => table[k].category)
  }

  function Brands(table: Table): (r: seq<string>)
    ensures |r| == |table| && forall k :: 0 <= k < |table| ==> r[k] == table[k].brand
  {
    seq(|table|, k requires 0 <= k < |table| => table[k].brand)
  }

  /** The distinct non-empty categories, sorted. */
  function GetCategories(table: Table): (r: seq<string>)
    ensures forall i, j :: 0 <= i < j < |r| ==> StrLe(r[i], r[j]) && r[i] != r[j]
    ensures forall k :: 0 <= k < |r| ==> r[k] != [] && r[k] in Categories(table)
    ensures forall k :: 0 <= k < |table| && table[k].category != [] ==> table[k].category in r
  {
    var c := Categories(table);
    var r := DistinctSortedNonEmpty(c);
    assert forall k :: 0 <= k < |table| ==> c[k] == table[k].category;
    r
  }

  /** The distinct non-empty brands, sorted. */
  function GetBrands(table: Table): (r: seq<string>)
    ensures forall i, j :: 0 <= i < j < |r| ==> StrLe(r[i], r[j]) && r[i] != r[j]
    ensures forall k :: 0 <= k < |r| ==> r[k] != [] && r[k] in Brands(table)
    ensures forall k :: 0 <= k < |table| && table[k].brand != [] ==> table[k].brand in r
  {
    var c := Brands(table);
    var r := DistinctSortedNonEmpty(c);
    assert forall k :: 0 <= k < |table| ==> c[k] == table[k].brand;
    r
  }

  // ---------------------------------------------------------------------------
  // validate_article
  // ---------------------------------------------------------------------------

  /** Python truthiness of `exclude_id`: neither None nor 0. */
  predicate Excludes(excludeId: Option<int>) {
    excludeId.Some? && excludeId.value != 0
  }

  /** True iff no part, other than the one `exclude_id` names, carries
      `article`. */
  function ValidateArticle(table: Table, article: string, excludeId: Option<int>): bool {
    !exists k :: 0 <= k < |table| && table[k].article == article
                 && !(Excludes(excludeId) && table[k].id == excludeId.value)
  }

  predicate ArticlesDistinct(table: Table) {
    forall i, j :: 0 <= i < j < |table| ==> table[i].article != table[j].article
  }

  /** When editing a part, its own article is valid for it and for no other
      id; an exclusion id of 0 excludes nothing. */
  lemma ValidateArticleOwnPart(table: Table, k: int, other: int)
    requires ArticlesDistinct(table) && 0 <= k < |table| && table[k].id != 0
    requires other != table[k].id
    ensures ValidateArticle(table, table[k].article, Some(table[k].id))
    ensures !ValidateArticle(table, table[k].article, Some(other))
    ensures !ValidateArticle(table, table[k].article, None)
  {
  }

  /** Id 0 excludes nothing, exactly as no id does. */
  lemma ValidateArticleZeroExcludesNothing(table: Table, article: string)
    ensures ValidateArticle(table, article, Some(0)) == ValidateArticle(table, article, None)
  {
  }

  /** An article that validates with no exclusion can be added without
      breaking the uniqueness of articles. */
  lemma ValidArticleKeepsUnique(table: Table, p: PartRecord)
    requires ArticlesDistinct(table) && ValidateArticle(table, p.article, None)
    ensures ArticlesDistinct(table + [p])
  {
    var t := table + [p];
    forall i, j | 0 <= i < j < |t| ensures t[i].article != t[j].article {
      if j == |table| {
        assert t[i] == table[i];
      } else {
        assert t[i] == table[i] && t[j] == table[j];
      }
    }
  }
}
