/** The order search tool: status / customer / date-range / total-range filters joined with
    AND, newest first, at most 50 rows, each with its customer and its own line items. */
module QueryOrders {
  import opened Common
  import opened Sequences
  import opened Grouping
  import opened OrderStatus
  import opened Store

  const Limit: nat := 50
  const NoMatch := "No orders found matching the criteria."

  /** The request parameters; dates are day numbers, totals are in cents. A date string is
      never falsy once supplied, so a supplied date is always applied. */
  datatype Params = Params(
    status: Option<string>, userId: Option<int>, dateFrom: Option<int>, dateTo: Option<int>,
    minTotal: Option<int>, maxTotal: Option<int>)

  /** One nested line item: the product's name, the quantity and the price paid. */
  datatype LineRow = LineRow(name: string, quantity: int, unitPrice: int)

  /** The shape of one returned order. */
  datatype OrderRow = OrderRow(
    id: int, user: string, userEmail: string, status: string, total: int,
    products: seq<LineRow>, createdAt: Timestamp)

  /** The status the query filters on: none when the parameter is falsy or names no case. */
  function StatusFilter(params: Params): (s: Option<Status>)
    ensures s.Some? <==> TruthyText(params.status) && exists t :: Value(t) == params.status.value
    ensures s.Some? ==> Value(s.value) == params.status.value
  {
    if TruthyText(params.status) then TryFrom(params.status.value) else None
  }

  /** The WHERE clause `handle` builds: one conjunct per applied parameter. */
  predicate Matches(params: Params, o: Order) {
    && (StatusFilter(params).Some? ==> o.status == StatusFilter(params).value)
    && (TruthyNumber(params.userId) ==> o.userId == params.userId.value)
    && (params.dateFrom.Some? ==> params.dateFrom.value <= o.createdAt.day)
    && (params.dateTo.Some? ==> o.createdAt.day <= params.dateTo.value)
    && (TruthyNumber(params.minTotal) ==> o.total >= params.minTotal.value)
    && (TruthyNumber(params.maxTotal) ==> o.total <= params.maxTotal.value)
  }

  function Matching(params: Params, store: Store): (m: seq<Order>)
    ensures forall o :: o in m ==> o in store.orders && Matches(params, o)
    ensures forall o :: o in store.orders && Matches(params, o) ==> o in m
  {
    Filter(store.orders, o => Matches(params, o))
  }

  /** The line items of order `id` (the `products` relation through the association table). */
  function LinesOf(store: Store, id: int): (ls: seq<OrderLine>)
    ensures forall l :: l in ls <==> l in store.lines && l.orderId == id
    ensures forall l :: l in store.lines ==>
      multiset(ls)[l] == if l.orderId == id then multiset(store.lines)[l] else 0
  {
    Group(store.lines, OrderOfLine, id)
  }

  function LineRowOf(store: Store, l: OrderLine): LineRow {
    LineRow(ProductName(store, l.productId), l.quantity, l.unitPrice)
  }

  /** The name and email of the user with id `id`. */
  function Customer(store: Store, id: int): (string, string) {
    match Find(store.users, IdOfUser, id)
    case Some(u) => (u.name, u.email)
    case None => ("", "")
  }

  function RowOf(store: Store, o: Order): OrderRow {
    var (name, email) := Customer(store, o.userId);
    OrderRow(o.id, name, email, Value(o.status), o.total,
             Map(LinesOf(store, o.id), l => LineRowOf(store, l)), o.createdAt)
  }

  /** `orderByDesc('created_at')`. */
  predicate ByNewest(a: OrderRow, b: OrderRow) {
    TimeLe(b.createdAt, a.createdAt)
  }

  /** Newest-first is a valid ORDER BY comparison; rows created at the same instant tie. */
  lemma ByNewestOrders()
    ensures TotalPreorder(ByNewest)
  {
  }

  /** `QueryOrders::handle`. */
  function Handle(params: Params, store: Store): (r: Result<OrderRow>)
    ensures r.Message? <==> forall o :: o in store.orders ==> !Matches(params, o)
    ensures r.Message? ==> r.text == NoMatch
    ensures r.Rows? ==> |r.rows| == Min(Limit, |Matching(params, store)|)
    ensures r.Rows? ==> Sorted(r.rows, ByNewest)
    ensures r.Rows? ==> forall row :: row in r.rows ==>
      exists o :: o in store.orders && Matches(params, o) && row == RowOf(store, o)
    ensures r.Rows? && |Matching(params, store)| <= Limit ==>
      forall o :: o in store.orders && Matches(params, o) ==> RowOf(store, o) in r.rows
    ensures r.Rows? ==> forall o, row ::
      (o in store.orders && Matches(params, o) && RowOf(store, o) !in r.rows && row in r.rows)
      ==> ByNewest(row, RowOf(store, o))
    ensures r.Rows? ==> multiset(r.rows) <= multiset(Map(Matching(params, store), o => RowOf(store, o)))
  {
    ByNewestOrders();
    var rows := Query(store.orders, o => Matches(params, o), o => RowOf(store, o), ByNewest, Limit);
    if rows == [] then Message(NoMatch) else Rows(rows)
  }

  /** A row names the order's own customer, shows the status's backing value, and lists one
      entry per line item of this order (and of no other), each with the product's name, the
      line's quantity and the price stored on the line. */
  lemma RowOfOrder(store: Store, o: Order)
    requires store.Valid() && o in store.orders
    ensures exists u :: (u in store.users && u.id == o.userId
      && RowOf(store, o).user == u.name && RowOf(store, o).userEmail == u.email)
    ensures TryFrom(RowOf(store, o).status) == Some(o.status)
    ensures |RowOf(store, o).products| == |LinesOf(store, o.id)|
    ensures forall i :: 0 <= i < |RowOf(store, o).products| ==>
      RowOf(store, o).products[i] == LineRowOf(store, LinesOf(store, o.id)[i])
    ensures forall e :: e in RowOf(store, o).products ==>
      exists l, p :: (l in store.lines && l.orderId == o.id && p in store.products && p.id == l.productId
        && e == LineRow(p.name, l.quantity, l.unitPrice))
    ensures forall l :: l in store.lines && l.orderId == o.id ==> LineRowOf(store, l) in RowOf(store, o).products
  {
    KeyListed(store.users, IdOfUser, o.userId);
    var u :| u in store.users && u.id == o.userId;
    FindUnique(store.users, IdOfUser, u);
    TryFromValue(o.status);
    LineEntriesResolve(store, o.id, RowOf(store, o).products);
  }

  lemma LineEntriesResolve(store: Store, id: int, entries: seq<LineRow>)
    requires store.Valid() && entries == Map(LinesOf(store, id), l => LineRowOf(store, l))
    ensures forall e :: e in entries ==>
      exists l, p :: (l in store.lines && l.orderId == id && p in store.products && p.id == l.productId
        && e == LineRow(p.name, l.quantity, l.unitPrice))
    ensures forall l :: l in store.lines && l.orderId == id ==> LineRowOf(store, l) in entries
  {
    MapMembers(LinesOf(store, id), l => LineRowOf(store, l));
    forall e | e in entries
      ensures exists l, p :: (l in store.lines && l.orderId == id && p in store.products && p.id == l.productId
        && e == LineRow(p.name, l.quantity, l.unitPrice))
    {
      var l :| l in LinesOf(store, id) && e == LineRowOf(store, l);
      KeyListed(store.products, IdOfProduct, l.productId);
      var p :| p in store.products && p.id == l.productId;
    }
  }

  /** Every returned order satisfies every applied filter, read off the row itself. */
  lemma RowsSatisfyFilters(params: Params, store: Store)
    ensures Handle(params, store).Rows? ==> forall row :: row in Handle(params, store).rows ==>
      && (StatusFilter(params).Some? ==> row.status == Value(StatusFilter(params).value))
      && (params.dateFrom.Some? ==> params.dateFrom.value <= row.createdAt.day)
      && (params.dateTo.Some? ==> row.createdAt.day <= params.dateTo.value)
      && (TruthyNumber(params.minTotal) ==> row.total >= params.minTotal.value)
      && (TruthyNumber(params.maxTotal) ==> row.total <= params.maxTotal.value)
  {
  }

  /** A status that is not one of the five backing values is ignored: the answer is the
      one given without any status parameter. */
  lemma {:induction false} InvalidStatusIgnored(params: Params, store: Store)
    requires params.status.Some? && TryFrom(params.status.value).None?
    ensures Handle(params, store) == Handle(params.(status := None), store)
  {
    var bare := params.(status := None);
    assert StatusFilter(params) == None && StatusFilter(bare) == None;
    FilterAgree(store.orders, o => Matches(params, o), o => Matches(bare, o));
    assert Matching(params, store) == Matching(bare, store);
  }

  /** The parameters with every falsy value dropped. */
  function Supplied(params: Params): Params {
    params.(status := KeepText(params.status), userId := KeepNumber(params.userId),
            minTotal := KeepNumber(params.minTotal), maxTotal := KeepNumber(params.maxTotal))
  }

  /** A falsy parameter (absent, 0, "", "0") imposes no constraint. */
  lemma {:induction false} FalsyParamsIgnored(params: Params, store: Store)
    ensures Handle(params, store) == Handle(Supplied(params), store)
  {
    var q := Supplied(params);
    assert StatusFilter(q) == StatusFilter(params);
    forall o | o in store.orders ensures Matches(params, o) == Matches(q, o) {
    }
    FilterAgree(store.orders, o => Matches(params, o), o => Matches(q, o));
    assert Matching(params, store) == Matching(q, store);
  }

  /** The product with id `id` given a new current price; any other product unchanged. */
  function RepriceOne(p: Product, id: int, price: int): Product {
    if p.id == id then p.(price := price) else p
  }

  /** The product list after changing product `id`'s current price. */
  function Reprice(products: seq<Product>, id: int, price: int): seq<Product> {
    Map(products, (p: Product) => RepriceOne(p, id, price))
  }

  lemma {:induction false} RepriceKeepsIds(products: seq<Product>, id: int, price: int)
    ensures Map(Reprice(products, id, price), IdOfProduct) == Map(products, IdOfProduct)
  {
    if products != [] {
      RepriceKeepsIds(products[1..], id, price);
    }
  }

  lemma RepriceKeepsValid(store: Store, id: int, price: int)
    requires store.Valid()
    ensures store.(products := Reprice(store.products, id, price)).Valid()
  {
    var ps' := Reprice(store.products, id, price);
    RepriceKeepsIds(store.products, id, price);
    forall p' | p' in ps' ensures p'.categoryId in Map(store.categories, IdOfCategory) {
      var p :| p in store.products && p' == RepriceOne(p, id, price);
    }
  }

  lemma RowOfAfterReprice(store: Store, o: Order, id: int, price: int)
    requires store.Valid() && store.(products := Reprice(store.products, id, price)).Valid()
    ensures RowOf(store, o) == RowOf(store.(products := Reprice(store.products, id, price)), o)
  {
    var store' := store.(products := Reprice(store.products, id, price));
    forall l | l in LinesOf(store, o.id) ensures LineRowOf(store, l) == LineRowOf(store', l) {
      LineRowAfterReprice(store, l, id, price);
    }
    MapAgree(LinesOf(store, o.id), l => LineRowOf(store, l), l => LineRowOf(store', l));
  }

  lemma LineRowAfterReprice(store: Store, l: OrderLine, id: int, price: int)
    requires store.Valid() && store.(products := Reprice(store.products, id, price)).Valid()
    requires l in store.lines
    ensures LineRowOf(store, l) == LineRowOf(store.(products := Reprice(store.products, id, price)), l)
  {
    var store' := store.(products := Reprice(store.products, id, price));
    KeyListed(store.products, IdOfProduct, l.productId);
    var p :| p in store.products && p.id == l.productId;
    assert RepriceOne(p, id, price) in store'.products;
  }

  /** Line items show the price frozen at sale: changing a product's current price changes
      nothing in any answer. */
  lemma {:induction false} UnitPriceIsSnapshot(params: Params, store: Store, id: int, price: int)
    requires store.Valid()
    ensures store.(products := Reprice(store.products, id, price)).Valid()
    ensures Handle(params, store) == Handle(params, store.(products := Reprice(store.products, id, price)))
  {
    var store' := store.(products := Reprice(store.products, id, price));
    RepriceKeepsValid(store, id, price);
    forall o | o in Matching(params, store) ensures RowOf(store, o) == RowOf(store', o) {
      RowOfAfterReprice(store, o, id, price);
    }
    assert Matching(params, store) == Matching(params, store');
    SelectAgree(Matching(params, store), o => RowOf(store, o), o => RowOf(store', o), ByNewest, Limit);
  }
}
