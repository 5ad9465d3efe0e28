/** The `parts` row, as both schemas of the application define it: the SQL
    table of the data layer and the peewee `Part` model have the same columns. */
module Schema {
  import opened Text
  import opened Sorting

  datatype Option<+T> = None | Some(value: T)

  /** Prices are exact amounts in minor units (kopecks); the source keeps
      them as REAL or Decimal. */
  type Money = int

  /** An opaque clock reading (`datetime.now()`), supplied by the caller;
      later readings are larger. */
  type Timestamp = nat

  datatype PartRecord = PartRecord(
    id: int,
    article: string,
    name: string,
    brand: string,
    carModel: string,
    category: string,
    quantity: int,
    buyPrice: Money,
    sellPrice: Money,
    description: string,
    createdAt: Timestamp,
    updatedAt: Timestamp)

  /** The `ORDER BY article` comparison. */
  predicate ByArticle(a: PartRecord, b: PartRecord) {
    StrLe(a.article, b.article)
  }

  lemma ByArticleTotalPreorder()
    ensures TotalPreorder(ByArticle)
  {
    forall a: PartRecord, b: PartRecord ensures ByArticle(a, b) || ByArticle(b, a) {
      StrLeTotal(a.article, b.article);
    }
    forall a: PartRecord, b: PartRecord, c: PartRecord | ByArticle(a, b) && ByArticle(b, c)
      ensures ByArticle(a, c)
    {
      StrLeTransitive(a.article, b.article, c.article);
    }
  }

  /** In a list ordered by article whose articles are distinct, the articles
      strictly increase. */
  lemma {:induction false} ByArticleStrict(s: seq<PartRecord>, i: int, j: int)
    requires SortedBy(s, ByArticle)
    requires forall a, b :: 0 <= a < b < |s| ==> s[a].article != s[b].article
    requires 0 <= i < j < |s|
    ensures StrLe(s[i].article, s[j].article) && !StrLe(s[j].article, s[i].article)
  {
    if StrLe(s[j].article, s[i].article) {
      StrLeAntisymmetric(s[i].article, s[j].article);
    }
  }
}
