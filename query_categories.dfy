/** The category listing tool: optional name search, each category with the number of
    products it owns, ordered by name, at most 50 rows. */
module QueryCategories {
  import opened Common
  import opened Text
  import opened Sequences
  import opened Grouping
  import opened Store

  const Limit: nat := 50
  const NoMatch := "No categories found matching the criteria."

  datatype Params = Params(search: Option<string>)

  /** The shape of one returned category: exactly these three keys. */
  datatype CategoryRow = CategoryRow(id: int, name: string, productsCount: nat)

  predicate Matches(params: Params, c: Category) {
    TruthyText(params.search) ==> Contains(c.name, params.search.value)
  }

  function Matching(params: Params, store: Store): (m: seq<Category>)
    ensures forall c :: c in m ==> c in store.categories && Matches(params, c)
    ensures forall c :: c in store.categories && Matches(params, c) ==> c in m
  {
    Filter(store.categories, c => Matches(params, c))
  }

  /** The products that belong to category `id` (the `products` relation). */
  function ProductsOf(store: Store, id: int): (ps: seq<Product>)
    ensures forall p :: p in ps <==> p in store.products && p.categoryId == id
  {
    Group(store.products, CategoryOfProduct, id)
  }

  /** `withCount('products')`: the category with its product count, zero when it owns none. */
  function RowOf(store: Store, c: Category): CategoryRow {
    CategoryRow(c.id, c.name, |ProductsOf(store, c.id)|)
  }

  predicate ByName(a: CategoryRow, b: CategoryRow) {
    StrLe(a.name, b.name)
  }

  lemma ByNameOrders()
    ensures TotalPreorder(ByName)
  {
    forall a: CategoryRow, b: CategoryRow ensures ByName(a, b) || ByName(b, a) {
      StrLeTotal(a.name, b.name);
    }
    forall a: CategoryRow, b: CategoryRow, c: CategoryRow | ByName(a, b) && ByName(b, c)
      ensures ByName(a, c)
    {
      StrLeTransitive(a.name, b.name, c.name);
    }
  }

  /** `QueryCategories::handle`. */
  function Handle(params: Params, store: Store): (r: Result<CategoryRow>)
    ensures r.Message? <==> forall c :: c in store.categories ==> !Matches(params, c)
    ensures r.Message? ==> r.text == NoMatch
    ensures r.Rows? ==> |r.rows| == Min(Limit, |Matching(params, store)|)
    ensures r.Rows? ==> Sorted(r.rows, ByName)
    ensures r.Rows? ==> forall row :: row in r.rows ==>
      exists c :: c in store.categories && Matches(params, c) && row == RowOf(store, c)
    ensures r.Rows? && |Matching(params, store)| <= Limit ==>
      forall c :: c in store.categories && Matches(params, c) ==> RowOf(store, c) in r.rows
    ensures r.Rows? ==> forall c, row ::
      (c in store.categories && Matches(params, c) && RowOf(store, c) !in r.rows && row in r.rows)
      ==> ByName(row, RowOf(store, c))
    ensures r.Rows? ==> multiset(r.rows) <= multiset(Map(Matching(params, store), c => RowOf(store, c)))
  {
    ByNameOrders();
    var rows := Query(store.categories, c => Matches(params, c), c => RowOf(store, c), ByName, Limit);
    if rows == [] then Message(NoMatch) else Rows(rows)
  }

  /** `products_count` counts exactly the products whose category is this one, and is 0
      (present, not missing) for a category that owns none. */
  lemma ProductsCountExact(store: Store, c: Category)
    ensures RowOf(store, c).productsCount == |ProductsOf(store, c.id)|
    ensures (forall p :: p in store.products ==> p.categoryId != c.id) ==> RowOf(store, c).productsCount == 0
  {
    var ps := ProductsOf(store, c.id);
    if ps != [] {
      assert ps[0] in ps;
    }
  }

  function CountOfRow(row: CategoryRow): int { row.productsCount }

  lemma {:induction false} CountsOfRows(store: Store, cs: seq<Category>)
    ensures SumOf(Map(cs, c => RowOf(store, c)), CountOfRow)
         == KeyedCount(store.products, CategoryOfProduct, Map(cs, IdOfCategory))
  {
    if cs != [] {
      CountsOfRows(store, cs[1..]);
    }
  }

  /** When every category fits in one answer, the product counts add up to the number of
      products: each product is counted under exactly one category. */
  lemma {:induction false} CountsCoverEveryProduct(store: Store)
    requires store.Valid() && store.categories != [] && |store.categories| <= Limit
    ensures Handle(Params(None), store).Rows?
    ensures SumOf(Handle(Params(None), store).rows, CountOfRow) == |store.products|
  {
    var none := Params(None);
    FilterAll(store.categories, c => Matches(none, c));
    assert store.categories[0] in store.categories;
    var rows := Handle(none, store).rows;
    var all := Map(store.categories, c => RowOf(store, c));
    assert multiset(rows) == multiset(all);
    SumOfPermutation(rows, all, CountOfRow);
    CountsOfRows(store, store.categories);
    GroupSizesPartition(store.products, CategoryOfProduct, Map(store.categories, IdOfCategory));
  }
}
