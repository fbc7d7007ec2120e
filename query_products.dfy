/** The product search tool: text / category / price-range / low-stock filters joined with
    AND, ordered by name, at most 50 rows, each with its category's name. */
module QueryProducts {
  import opened Common
  import opened Text
  import opened Sequences
  import opened Store

  const Limit: nat := 50
  const NoMatch := "No products found matching the criteria."

  /** The request parameters; prices are in cents. */
  datatype Params = Params(
    search: Option<string>, categoryId: Option<int>,
    minPrice: Option<int>, maxPrice: Option<int>, lowStock: Option<bool>)

  /** The shape of one returned product: exactly these six keys. */
  datatype ProductRow = ProductRow(
    id: int, name: string, description: string, price: int, stock: int, category: string)

  /** The WHERE clause `handle` builds: one conjunct per truthy parameter. */
  predicate Matches(params: Params, p: Product) {
    && (TruthyText(params.search) ==>
          Contains(p.name, params.search.value) || Contains(p.description, params.search.value))
    && (TruthyNumber(params.categoryId) ==> p.categoryId == params.categoryId.value)
    && (TruthyNumber(params.minPrice) ==> p.price >= params.minPrice.value)
    && (TruthyNumber(params.maxPrice) ==> p.price <= params.maxPrice.value)
    && (TruthyFlag(params.lowStock) ==> p.stock <= LowStockThreshold)
  }

  /** Every product the WHERE clause admits, in table order. */
  function Matching(params: Params, store: Store): (m: seq<Product>)
    ensures forall p :: p in m ==> p in store.products && Matches(params, p)
    ensures forall p :: p in store.products && Matches(params, p) ==> p in m
  {
    Filter(store.products, p => Matches(params, p))
  }

  /** `orderBy('name')`. */
  predicate ByName(a: ProductRow, b: ProductRow) {
    StrLe(a.name, b.name)
  }

  lemma ByNameOrders()
    ensures TotalPreorder(ByName)
  {
    forall a: ProductRow, b: ProductRow ensures ByName(a, b) || ByName(b, a) {
      StrLeTotal(a.name, b.name);
    }
    forall a: ProductRow, b: ProductRow, c: ProductRow | ByName(a, b) && ByName(b, c)
      ensures ByName(a, c)
    {
      StrLeTransitive(a.name, b.name, c.name);
    }
  }

  /** The projection of one product, with the name of the category it belongs to. */
  function RowOf(store: Store, p: Product): ProductRow {
    ProductRow(p.id, p.name, p.description, p.price, p.stock, CategoryName(store, p.categoryId))
  }

  /** A row copies the product's own fields and carries the name of the product's category. */
  lemma RowOfProduct(store: Store, p: Product)
    requires store.Valid() && p in store.products
    ensures RowOf(store, p).id == p.id && RowOf(store, p).name == p.name
    ensures RowOf(store, p).description == p.description
    ensures RowOf(store, p).price == p.price && RowOf(store, p).stock == p.stock
    ensures exists c :: c in store.categories && c.id == p.categoryId && RowOf(store, p).category == c.name
  {
    KeyListed(store.categories, IdOfCategory, p.categoryId);
  }

  /** `QueryProducts::handle`: filter, order by name, keep 50, project; a message when nothing matches. */
  function Handle(params: Params, store: Store): (r: Result<ProductRow>)
    ensures r.Message? <==> forall p :: p in store.products ==> !Matches(params, p)
    ensures r.Message? ==> r.text == NoMatch
    ensures r.Rows? ==> |r.rows| == Min(Limit, |Matching(params, store)|)
    ensures r.Rows? ==> Sorted(r.rows, ByName)
    ensures r.Rows? ==> forall row :: row in r.rows ==>
      exists p :: p in store.products && Matches(params, p) && row == RowOf(store, p)
    ensures r.Rows? && |Matching(params, store)| <= Limit ==>
      forall p :: p in store.products && Matches(params, p) ==> RowOf(store, p) in r.rows
    ensures r.Rows? ==> forall p, row ::
      (p in store.products && Matches(params, p) && RowOf(store, p) !in r.rows && row in r.rows)
      ==> ByName(row, RowOf(store, p))
    ensures r.Rows? ==> multiset(r.rows) <= multiset(Map(Matching(params, store), p => RowOf(store, p)))
  {
    ByNameOrders();
    var rows := Query(store.products, p => Matches(params, p), p => RowOf(store, p), ByName, Limit);
    if rows == [] then Message(NoMatch) else Rows(rows)
  }

  /** Every returned row satisfies every supplied filter, read off the row itself. */
  lemma RowsSatisfyFilters(params: Params, store: Store)
    requires store.Valid()
    ensures Handle(params, store).Rows? ==> forall row :: row in Handle(params, store).rows ==>
      && (TruthyText(params.search) ==>
            Contains(row.name, params.search.value) || Contains(row.description, params.search.value))
      && (TruthyNumber(params.categoryId) ==>
            exists c :: c in store.categories && c.id == params.categoryId.value && row.category == c.name)
      && (TruthyNumber(params.minPrice) ==> row.price >= params.minPrice.value)
      && (TruthyNumber(params.maxPrice) ==> row.price <= params.maxPrice.value)
      && (TruthyFlag(params.lowStock) ==> row.stock <= LowStockThreshold)
  {
    var r := Handle(params, store);
    if r.Rows? {
      forall row | row in r.rows
        ensures TruthyNumber(params.categoryId) ==>
          exists c :: c in store.categories && c.id == params.categoryId.value && row.category == c.name
      {
        var p :| p in store.products && Matches(params, p) && row == RowOf(store, p);
        RowOfProduct(store, p);
      }
    }
  }

  /** The parameters with every falsy value dropped. */
  function Supplied(params: Params): (q: Params)
    ensures TruthyText(q.search) == TruthyText(params.search)
    ensures TruthyNumber(q.minPrice) == TruthyNumber(params.minPrice)
    ensures TruthyNumber(q.maxPrice) == TruthyNumber(params.maxPrice)
    ensures TruthyNumber(q.categoryId) == TruthyNumber(params.categoryId)
    ensures TruthyFlag(q.lowStock) == TruthyFlag(params.lowStock)
  {
    Params(KeepText(params.search), KeepNumber(params.categoryId), KeepNumber(params.minPrice),
           KeepNumber(params.maxPrice), KeepFlag(params.lowStock))
  }

  /** A falsy parameter (absent, 0, "", "0", false) imposes no constraint: for instance
      `max_price = 0` answers exactly as no `max_price` at all. */
  lemma {:induction false} FalsyParamsIgnored(params: Params, store: Store)
    ensures Handle(params, store) == Handle(Supplied(params), store)
  {
    FilterAgree(store.products, p => Matches(params, p), p => Matches(Supplied(params), p));
  }

  /** With no filters every product matches, so the answer holds min(50, |products|) rows:
      sixty products give exactly fifty. */
  lemma {:induction false} UnfilteredIsCapped(store: Store)
    requires store.products != []
    ensures Handle(Params(None, None, None, None, None), store).Rows?
    ensures |Handle(Params(None, None, None, None, None), store).rows| == Min(Limit, |store.products|)
  {
    var none := Params(None, None, None, None, None);
    FilterAll(store.products, p => Matches(none, p));
    assert store.products[0] in store.products;
  }
}
