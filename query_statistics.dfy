/** The statistics tool: one of five store-wide reports, picked by name. Every report reads
    the whole store; none takes a filter. */
module QueryStatistics {
  import opened Common
  import opened Sequences
  import opened Grouping
  import opened OrderStatus
  import opened Store

  /** Rows in the top-products and top-customers reports. */
  const TopLimit: nat := 10
  /** Rows in the low-stock report. */
  const LowStockLimit: nat := 20

  const UnknownTypeMessage :=
    "Unknown statistic type. Available types: overview, top_products, top_customers, low_stock, revenue_by_status"
  const NoSales := "No product sales data available."
  const NoCustomers := "No customer data available."
  const NoLowStock := "No low stock products found."

  /** The report names the tool accepts. */
  const ReportTypes: seq<string> := ["overview", "top_products", "top_customers", "low_stock", "revenue_by_status"]

  // ----- overview -----

  /** Store-wide totals; money in cents. */
  datatype Overview = Overview(
    totalRevenue: int, totalOrders: nat, totalProducts: nat, totalCustomers: nat, averageOrderValue: int)

  /** `whereHas('orders')`: the user owns at least one order. */
  predicate IsCustomer(store: Store, u: User) {
    HasOrders(store.orders, u.id)
  }

  /** The users who own at least one order. */
  function Customers(store: Store): (cs: seq<User>)
    ensures forall u :: u in cs ==> u in store.users && HasOrders(store.orders, u.id)
    ensures forall u :: u in store.users && HasOrders(store.orders, u.id) ==> u in cs
  {
    Filter(store.users, u => IsCustomer(store, u))
  }

  /** `round((float) avg(total), 2)` on amounts in cents: the mean of `n` amounts summing to
      `sum`, rounded to the nearest cent with halves away from zero; no rows average to 0. */
  function RoundedMean(sum: int, n: nat): (r: int)
    ensures n == 0 ==> r == 0
    ensures n > 0 ==> 2 * sum - n <= 2 * (r * n) <= 2 * sum + n
    ensures n > 0 && sum >= 0 ==> 2 * sum - n < 2 * (r * n)
    ensures n > 0 && sum < 0 ==> 2 * (r * n) < 2 * sum + n
  {
    if n == 0 then 0
    else if sum >= 0 then
      HalfUp(sum, n);
      (2 * sum + n) / (2 * n)
    else
      var q := (2 * -sum + n) / (2 * n);
      HalfUp(-sum, n);
      assert (-q) * n == -(q * n);
      -q
  }

  lemma HalfUp(s: int, n: int)
    requires s >= 0 && n > 0
    ensures 2 * s - n < 2 * ((2 * s + n) / (2 * n) * n) <= 2 * s + n
  {
    var q := (2 * s + n) / (2 * n);
    var m := (2 * s + n) % (2 * n);
    assert 2 * s + n == q * (2 * n) + m && 0 <= m < 2 * n;
    assert q * (2 * n) == 2 * (q * n);
  }

  lemma NonNegativeProduct(a: int, n: int)
    requires n > 0
    ensures a >= 0 ==> a * n >= 0
  {
  }

  /** Cancelling a positive factor on both sides of an inequality. */
  lemma CancelFactor(a: int, b: int, n: int)
    requires n > 0
    ensures a * n <= b * n ==> a <= b
    ensures a * n < b * n ==> a < b
  {
    assert (a - b) * n == a * n - b * n;
    NonNegativeProduct(a - b, n);
    assert (a - b - 1) * n == a * n - b * n - n;
    NonNegativeProduct(a - b - 1, n);
  }

  /** The rounding has exactly one answer: any whole number of cents that is as near the mean
      and breaks a tie the same way is the one `RoundedMean` gives. */
  lemma RoundedMeanUnique(sum: int, n: nat, r': int)
    requires n > 0 && 2 * sum - n <= 2 * (r' * n) <= 2 * sum + n
    requires sum >= 0 ==> 2 * sum - n < 2 * (r' * n)
    requires sum < 0 ==> 2 * (r' * n) < 2 * sum + n
    ensures r' == RoundedMean(sum, n)
  {
    NearestIsUnique(sum, n, RoundedMean(sum, n), r');
  }

  /** Two candidates in the same half-open window of width `n` around `sum / n` coincide. */
  lemma NearestIsUnique(sum: int, n: int, r: int, r': int)
    requires n > 0
    requires 2 * sum - n <= 2 * (r * n) <= 2 * sum + n && 2 * sum - n <= 2 * (r' * n) <= 2 * sum + n
    requires sum >= 0 ==> 2 * sum - n < 2 * (r * n) && 2 * sum - n < 2 * (r' * n)
    requires sum < 0 ==> 2 * (r * n) < 2 * sum + n && 2 * (r' * n) < 2 * sum + n
    ensures r == r'
  {
    assert (r - r') * n == r * n - r' * n;
    assert (r' - r) * n == r' * n - r * n;
    CancelFactor(r - r', 1, n);
    CancelFactor(r' - r, 1, n);
  }

  /** `overview`. */
  function OverviewOf(store: Store): (v: Overview)
    ensures v.totalOrders == |store.orders|
    ensures v.totalProducts == |store.products|
    ensures v.totalRevenue == SumOf(store.orders, TotalOfOrder)
    ensures v.totalCustomers == |Customers(store)|
    ensures v.averageOrderValue == RoundedMean(v.totalRevenue, v.totalOrders)
    ensures v.totalCustomers <= |store.users|
    ensures v.totalOrders == 0 ==> v.totalRevenue == 0 && v.averageOrderValue == 0
    ensures v.totalOrders > 0 ==>
      2 * v.totalRevenue - v.totalOrders <= 2 * (v.averageOrderValue * v.totalOrders)
                                         <= 2 * v.totalRevenue + v.totalOrders
  {
    var revenue := SumOf(store.orders, TotalOfOrder);
    Overview(revenue, |store.orders|, |store.products|, |Customers(store)|,
             RoundedMean(revenue, |store.orders|))
  }

  lemma {:induction false} SumBounds(orders: seq<Order>, lo: int, hi: int)
    requires forall o :: o in orders ==> lo <= o.total <= hi
    ensures lo * |orders| <= SumOf(orders, TotalOfOrder) <= hi * |orders|
  {
    if orders != [] {
      SumBounds(orders[1..], lo, hi);
      assert orders[0] in orders;
      var k := |orders[1..]|;
      assert |orders| == k + 1;
      assert lo * (k + 1) == lo * k + lo && hi * (k + 1) == hi * k + hi;
    }
  }

  /** The average order value lies between the smallest and the largest order total; in
      particular, when every order has the same total it is that total. */
  lemma AverageWithinRange(store: Store, lo: int, hi: int)
    requires store.orders != []
    requires forall o :: o in store.orders ==> lo <= o.total <= hi
    ensures lo <= OverviewOf(store).averageOrderValue <= hi
  {
    SumBounds(store.orders, lo, hi);
    MeanWithinRange(SumOf(store.orders, TotalOfOrder), |store.orders|, lo, hi);
  }

  lemma MeanWithinRange(sum: int, n: nat, lo: int, hi: int)
    requires n > 0 && lo * n <= sum <= hi * n
    ensures lo <= RoundedMean(sum, n) <= hi
  {
    MeanAtMost(sum, n, hi);
    MeanAtLeast(sum, n, lo);
  }

  lemma MeanAtMost(sum: int, n: nat, hi: int)
    requires n > 0 && sum <= hi * n
    ensures RoundedMean(sum, n) <= hi
  {
    NearestAtMost(sum, n, hi, RoundedMean(sum, n));
  }

  lemma MeanAtLeast(sum: int, n: nat, lo: int)
    requires n > 0 && lo * n <= sum
    ensures lo <= RoundedMean(sum, n)
  {
    NearestAtLeast(sum, n, lo, RoundedMean(sum, n));
  }

  lemma NearestAtMost(sum: int, n: int, hi: int, r: int)
    requires n > 0 && sum <= hi * n && 2 * (r * n) <= 2 * sum + n
    ensures r <= hi
  {
    assert (2 * r) * n == 2 * (r * n);
    assert (2 * hi + 1) * n == 2 * (hi * n) + n;
    CancelFactor(2 * r, 2 * hi + 1, n);
  }

  lemma NearestAtLeast(sum: int, n: int, lo: int, r: int)
    requires n > 0 && lo * n <= sum && 2 * sum - n <= 2 * (r * n)
    ensures lo <= r
  {
    assert (2 * r) * n == 2 * (r * n);
    assert (2 * lo - 1) * n == 2 * (lo * n) - n;
    CancelFactor(2 * lo - 1, 2 * r, n);
  }

  /** With at least one order in a consistent store, at least one customer is counted. */
  lemma SomeCustomer(store: Store)
    requires store.Valid() && store.orders != []
    ensures OverviewOf(store).totalCustomers > 0
  {
    var o := store.orders[0];
    assert o in store.orders;
    KeyListed(store.users, IdOfUser, o.userId);
    var u :| u in store.users && u.id == o.userId;
    assert u in Customers(store);
  }

  // ----- top products -----

  /** One product's sales: the product's own columns and its sums over the association table. */
  datatype ProductSales = ProductSales(id: int, name: string, price: int, totalSold: int, totalRevenue: int)

  /** The inner join keeps only products that appear on at least one order line. */
  predicate Sold(store: Store, p: Product) {
    exists l :: l in store.lines && l.productId == p.id
  }

  function SoldProducts(store: Store): (ps: seq<Product>)
    ensures forall p :: p in ps <==> p in store.products && Sold(store, p)
  {
    Filter(store.products, p => Sold(store, p))
  }

  /** The order lines of product `id`: its group in the join. */
  function LinesOfProduct(store: Store, id: int): (ls: seq<OrderLine>)
    ensures forall l :: l in ls <==> l in store.lines && l.productId == id
  {
    Group(store.lines, ProductOfLine, id)
  }

  function SalesOf(store: Store, p: Product): ProductSales {
    var ls := LinesOfProduct(store, p.id);
    ProductSales(p.id, p.name, p.price, SumOf(ls, QuantityOfLine), SumOf(ls, RevenueOfLine))
  }

  function SoldOf(row: ProductSales): int { row.totalSold }
  function RevenueOfSales(row: ProductSales): int { row.totalRevenue }

  /** `orderByDesc('total_sold')`. */
  predicate ByMostSold(a: ProductSales, b: ProductSales) {
    a.totalSold >= b.totalSold
  }

  lemma ByMostSoldOrders()
    ensures TotalPreorder(ByMostSold)
  {
  }

  /** `topProducts`. */
  function TopProducts(store: Store): (r: Result<ProductSales>)
    ensures r.Message? <==> forall p :: p in store.products ==> !Sold(store, p)
    ensures r.Message? ==> r.text == NoSales
    ensures r.Rows? ==> |r.rows| == Min(TopLimit, |SoldProducts(store)|)
    ensures r.Rows? ==> Sorted(r.rows, ByMostSold)
    ensures r.Rows? ==> forall row :: row in r.rows ==>
      exists p :: p in store.products && Sold(store, p) && row == SalesOf(store, p)
    ensures r.Rows? && |SoldProducts(store)| <= TopLimit ==>
      forall p :: p in store.products && Sold(store, p) ==> SalesOf(store, p) in r.rows
    ensures r.Rows? ==> forall p, row ::
      (p in store.products && Sold(store, p) && SalesOf(store, p) !in r.rows && row in r.rows)
      ==> ByMostSold(row, SalesOf(store, p))
    ensures r.Rows? ==> multiset(r.rows) <= multiset(Map(SoldProducts(store), p => SalesOf(store, p)))
  {
    ByMostSoldOrders();
    var rows := Query(store.products, p => Sold(store, p), p => SalesOf(store, p), ByMostSold, TopLimit);
    if rows == [] then Message(NoSales) else Rows(rows)
  }

  lemma {:induction false} SalesOfRows(store: Store, ps: seq<Product>)
    ensures SumOf(Map(ps, p => SalesOf(store, p)), SoldOf)
         == KeyedSum(store.lines, ProductOfLine, QuantityOfLine, Map(ps, IdOfProduct))
    ensures SumOf(Map(ps, p => SalesOf(store, p)), RevenueOfSales)
         == KeyedSum(store.lines, ProductOfLine, RevenueOfLine, Map(ps, IdOfProduct))
  {
    if ps != [] {
      SalesOfRows(store, ps[1..]);
    }
  }

  /** Every order line belongs to exactly one listed product: when every product that sold
      fits in the report, its quantities and revenues add up to those of all order lines. */
  lemma {:induction false} TopProductsAddUp(store: Store)
    requires store.Valid() && 0 < |SoldProducts(store)| <= TopLimit
    ensures TopProducts(store).Rows?
    ensures SumOf(TopProducts(store).rows, SoldOf) == SumOf(store.lines, QuantityOfLine)
    ensures SumOf(TopProducts(store).rows, RevenueOfSales) == SumOf(store.lines, RevenueOfLine)
  {
    var sold := SoldProducts(store);
    assert sold[0] in sold;
    var rows := TopProducts(store).rows;
    var all := Map(sold, p => SalesOf(store, p));
    assert multiset(rows) == multiset(all);
    SumOfPermutation(rows, all, SoldOf);
    SumOfPermutation(rows, all, RevenueOfSales);
    SalesOfRows(store, sold);
    var keys := Map(sold, IdOfProduct);
    FilterKeepsDistinctKeys(store.products, p => Sold(store, p), IdOfProduct);
    SoldKeysCoverLines(store);
    GroupSumsPartition(store.lines, ProductOfLine, QuantityOfLine, keys);
    GroupSumsPartition(store.lines, ProductOfLine, RevenueOfLine, keys);
  }

  /** Every order line's product is among the products sold. */
  lemma SoldKeysCoverLines(store: Store)
    requires store.Valid()
    ensures forall l :: l in store.lines ==> ProductOfLine(l) in Map(SoldProducts(store), IdOfProduct)
  {
    var sold := SoldProducts(store);
    MapMembers(sold, IdOfProduct);
    forall l | l in store.lines ensures ProductOfLine(l) in Map(sold, IdOfProduct) {
      KeyListed(store.products, IdOfProduct, l.productId);
      var p :| p in store.products && p.id == l.productId;
      assert p in sold;
    }
  }

  // ----- top customers -----

  /** One customer's spending: the user's public columns, how many orders they placed and
      the sum of those orders' totals. */
  datatype CustomerSpend = CustomerSpend(id: int, name: string, email: string, ordersCount: nat, totalSpent: int)

  /** The orders placed by user `id`. */
  function OrdersOfUser(store: Store, id: int): (os: seq<Order>)
    ensures forall o :: o in os <==> o in store.orders && o.userId == id
  {
    Group(store.orders, UserOfOrder, id)
  }

  function SpendOf(store: Store, u: User): CustomerSpend {
    var os := OrdersOfUser(store, u.id);
    CustomerSpend(u.id, u.name, u.email, |os|, SumOf(os, TotalOfOrder))
  }

  function OrdersCountOf(row: CustomerSpend): int { row.ordersCount }
  function SpentOf(row: CustomerSpend): int { row.totalSpent }

  /** `orderByDesc('orders_sum_total')`. */
  predicate ByMostSpent(a: CustomerSpend, b: CustomerSpend) {
    a.totalSpent >= b.totalSpent
  }

  lemma ByMostSpentOrders()
    ensures TotalPreorder(ByMostSpent)
  {
  }

  /** `topCustomers`. */
  function TopCustomers(store: Store): (r: Result<CustomerSpend>)
    ensures r.Message? <==> forall u :: u in store.users ==> !HasOrders(store.orders, u.id)
    ensures r.Message? ==> r.text == NoCustomers
    ensures r.Rows? ==> |r.rows| == Min(TopLimit, |Customers(store)|)
    ensures r.Rows? ==> Sorted(r.rows, ByMostSpent)
    ensures r.Rows? ==> forall row :: row in r.rows ==>
      exists u :: u in store.users && HasOrders(store.orders, u.id) && row == SpendOf(store, u)
    ensures r.Rows? && |Customers(store)| <= TopLimit ==>
      forall u :: u in store.users && HasOrders(store.orders, u.id) ==> SpendOf(store, u) in r.rows
    ensures r.Rows? ==> forall u, row ::
      (u in store.users && HasOrders(store.orders, u.id) && SpendOf(store, u) !in r.rows && row in r.rows)
      ==> ByMostSpent(row, SpendOf(store, u))
    ensures r.Rows? ==> multiset(r.rows) <= multiset(Map(Customers(store), u => SpendOf(store, u)))
  {
    ByMostSpentOrders();
    var rows := Query(store.users, u => IsCustomer(store, u), u => SpendOf(store, u), ByMostSpent, TopLimit);
    if rows == [] then Message(NoCustomers) else Rows(rows)
  }

  lemma {:induction false} SpendOfRows(store: Store, us: seq<User>)
    ensures SumOf(Map(us, u => SpendOf(store, u)), OrdersCountOf)
         == KeyedCount(store.orders, UserOfOrder, Map(us, IdOfUser))
    ensures SumOf(Map(us, u => SpendOf(store, u)), SpentOf)
         == KeyedSum(store.orders, UserOfOrder, TotalOfOrder, Map(us, IdOfUser))
  {
    if us != [] {
      SpendOfRows(store, us[1..]);
    }
  }

  /** When every customer fits in the report, it lists as many customers as the overview
      counts, and their order counts and spending add up to the overview's order count and
      revenue: each order belongs to exactly one customer. */
  lemma {:induction false} TopCustomersAddUp(store: Store)
    requires store.Valid() && 0 < |Customers(store)| <= TopLimit
    ensures TopCustomers(store).Rows?
    ensures |TopCustomers(store).rows| == OverviewOf(store).totalCustomers
    ensures SumOf(TopCustomers(store).rows, OrdersCountOf) == OverviewOf(store).totalOrders
    ensures SumOf(TopCustomers(store).rows, SpentOf) == OverviewOf(store).totalRevenue
  {
    var cs := Customers(store);
    assert cs[0] in cs;
    var rows := TopCustomers(store).rows;
    var all := Map(cs, u => SpendOf(store, u));
    assert multiset(rows) == multiset(all);
    SumOfPermutation(rows, all, OrdersCountOf);
    SumOfPermutation(rows, all, SpentOf);
    SpendOfRows(store, cs);
    var keys := Map(cs, IdOfUser);
    FilterKeepsDistinctKeys(store.users, u => IsCustomer(store, u), IdOfUser);
    CustomerKeysCoverOrders(store);
    GroupSizesPartition(store.orders, UserOfOrder, keys);
    GroupSumsPartition(store.orders, UserOfOrder, TotalOfOrder, keys);
  }

  /** Every order's owner is among the customers. */
  lemma CustomerKeysCoverOrders(store: Store)
    requires store.Valid()
    ensures forall o :: o in store.orders ==> UserOfOrder(o) in Map(Customers(store), IdOfUser)
  {
    var cs := Customers(store);
    MapMembers(cs, IdOfUser);
    forall o | o in store.orders ensures UserOfOrder(o) in Map(cs, IdOfUser) {
      KeyListed(store.users, IdOfUser, o.userId);
      var u :| u in store.users && u.id == o.userId;
      assert u in cs;
    }
  }

  // ----- low stock -----

  /** One low-stock product, with its category's name. */
  datatype LowStockRow = LowStockRow(id: int, name: string, stock: int, price: int, category: string)

  /** `where('stock', '<=', 10)`. */
  predicate IsLow(p: Product) {
    p.stock <= LowStockThreshold
  }

  function LowStockProducts(store: Store): (ps: seq<Product>)
    ensures forall p :: p in ps <==> p in store.products && p.stock <= LowStockThreshold
  {
    Filter(store.products, IsLow)
  }

  function LowStockRowOf(store: Store, p: Product): LowStockRow {
    LowStockRow(p.id, p.name, p.stock, p.price, CategoryName(store, p.categoryId))
  }

  /** `orderBy('stock')`. */
  predicate ByStock(a: LowStockRow, b: LowStockRow) {
    a.stock <= b.stock
  }

  lemma ByStockOrders()
    ensures TotalPreorder(ByStock)
  {
  }

  /** `lowStock`. */
  function LowStock(store: Store): (r: Result<LowStockRow>)
    ensures r.Message? <==> forall p :: p in store.products ==> p.stock > LowStockThreshold
    ensures r.Message? ==> r.text == NoLowStock
    ensures r.Rows? ==> |r.rows| == Min(LowStockLimit, |LowStockProducts(store)|)
    ensures r.Rows? ==> Sorted(r.rows, ByStock)
    ensures r.Rows? ==> forall row :: row in r.rows ==>
      exists p :: p in store.products && p.stock <= LowStockThreshold && row == LowStockRowOf(store, p)
    ensures r.Rows? && |LowStockProducts(store)| <= LowStockLimit ==>
      forall p :: p in store.products && p.stock <= LowStockThreshold ==> LowStockRowOf(store, p) in r.rows
    ensures r.Rows? ==> forall p, row ::
      (p in store.products && p.stock <= LowStockThreshold && LowStockRowOf(store, p) !in r.rows && row in r.rows)
      ==> ByStock(row, LowStockRowOf(store, p))
    ensures r.Rows? ==> multiset(r.rows) <= multiset(Map(LowStockProducts(store), p => LowStockRowOf(store, p)))
  {
    ByStockOrders();
    var rows := Query(store.products, IsLow, p => LowStockRowOf(store, p), ByStock, LowStockLimit);
    if rows == [] then Message(NoLowStock) else Rows(rows)
  }

  /** Each row is a product at or below the threshold, shown with the name of its own
      category. */
  lemma LowStockRowsJoin(store: Store)
    requires store.Valid()
    ensures LowStock(store).Rows? ==> forall row :: row in LowStock(store).rows ==>
      row.stock <= LowStockThreshold &&
      exists p, c :: (p in store.products && c in store.categories && p.id == row.id
        && p.categoryId == c.id && row.category == c.name)
  {
    if LowStock(store).Rows? {
      forall row | row in LowStock(store).rows
        ensures exists p, c :: (p in store.products && c in store.categories && p.id == row.id
          && p.categoryId == c.id && row.category == c.name)
      {
        var p :| p in store.products && p.stock <= LowStockThreshold && row == LowStockRowOf(store, p);
        KeyListed(store.categories, IdOfCategory, p.categoryId);
        var c :| c in store.categories && c.id == p.categoryId;
      }
    }
  }

  // ----- revenue by status -----

  /** One status group: the status's backing value, its order count and its revenue. */
  datatype StatusRevenue = StatusRevenue(status: string, orderCount: nat, totalRevenue: int)

  /** The orders with status `s`: one group of `groupBy('status')`. */
  function OrdersWithStatus(orders: seq<Order>, s: Status): (os: seq<Order>)
    ensures forall o :: o in os <==> o in orders && o.status == s
  {
    Group(orders, StatusOfOrder, s)
  }

  function StatusRowOf(orders: seq<Order>, s: Status): StatusRevenue {
    var os := OrdersWithStatus(orders, s);
    StatusRevenue(Value(s), |os|, SumOf(os, TotalOfOrder))
  }

  /** Some order has status `s`. */
  predicate Occurs(orders: seq<Order>, s: Status) {
    exists o :: o in orders && o.status == s
  }

  /** The statuses that occur on at least one order, in declaration order (the query sets
      no order on the groups). */
  function PresentStatuses(orders: seq<Order>): (ss: seq<Status>)
    ensures Distinct(ss)
    ensures forall s :: s in ss <==> Occurs(orders, s)
  {
    AllStatusesExact();
    FilterKeepsDistinct(AllStatuses, s => Occurs(orders, s));
    Filter(AllStatuses, s => Occurs(orders, s))
  }

  function OrderCountOf(row: StatusRevenue): int { row.orderCount }
  function StatusRevenueOf(row: StatusRevenue): int { row.totalRevenue }

  /** `revenueByStatus`: one row per status that occurs, none for a status no order has. */
  function RevenueByStatus(store: Store): (r: seq<StatusRevenue>)
    ensures forall row :: row in r ==> exists s :: row == StatusRowOf(store.orders, s) && row.orderCount > 0
    ensures forall o :: o in store.orders ==> StatusRowOf(store.orders, o.status) in r
    ensures forall i, j :: 0 <= i < j < |r| ==> r[i].status != r[j].status
  {
    var ss := PresentStatuses(store.orders);
    var r := Map(ss, s => StatusRowOf(store.orders, s));
    StatusRowsCounted(store.orders, ss, r);
    StatusRowsCover(store.orders, ss, r);
    StatusRowsDistinct(store.orders, ss, r);
    r
  }

  lemma StatusRowsCounted(orders: seq<Order>, ss: seq<Status>, r: seq<StatusRevenue>)
    requires forall s :: s in ss ==> Occurs(orders, s)
    requires r == Map(ss, s => StatusRowOf(orders, s))
    ensures forall row :: row in r ==> exists s :: row == StatusRowOf(orders, s) && row.orderCount > 0
  {
    MapMembers(ss, s => StatusRowOf(orders, s));
    forall row | row in r ensures exists s :: row == StatusRowOf(orders, s) && row.orderCount > 0 {
      var s :| s in ss && row == StatusRowOf(orders, s);
      PresentHasOrders(orders, s);
    }
  }

  lemma StatusRowsCover(orders: seq<Order>, ss: seq<Status>, r: seq<StatusRevenue>)
    requires ss == PresentStatuses(orders) && r == Map(ss, s => StatusRowOf(orders, s))
    ensures forall o :: o in orders ==> StatusRowOf(orders, o.status) in r
  {
    MapMembers(ss, s => StatusRowOf(orders, s));
    forall o | o in orders ensures StatusRowOf(orders, o.status) in r {
      assert Occurs(orders, o.status);
    }
  }

  lemma StatusRowsDistinct(orders: seq<Order>, ss: seq<Status>, r: seq<StatusRevenue>)
    requires ss == PresentStatuses(orders) && r == Map(ss, s => StatusRowOf(orders, s))
    ensures forall i, j :: 0 <= i < j < |r| ==> r[i].status != r[j].status
  {
    forall i, j | 0 <= i < j < |r| ensures r[i].status != r[j].status {
      assert r[i].status == Value(ss[i]) && r[j].status == Value(ss[j]);
      ValueInjective(ss[i], ss[j]);
    }
  }

  lemma PresentHasOrders(orders: seq<Order>, s: Status)
    requires Occurs(orders, s)
    ensures StatusRowOf(orders, s).orderCount > 0
  {
    var o :| o in orders && o.status == s;
    assert o in OrdersWithStatus(orders, s);
  }

  lemma {:induction false} StatusRows(orders: seq<Order>, ss: seq<Status>)
    ensures SumOf(Map(ss, s => StatusRowOf(orders, s)), OrderCountOf) == KeyedCount(orders, StatusOfOrder, ss)
    ensures SumOf(Map(ss, s => StatusRowOf(orders, s)), StatusRevenueOf)
         == KeyedSum(orders, StatusOfOrder, TotalOfOrder, ss)
  {
    if ss != [] {
      StatusRows(orders, ss[1..]);
    }
  }

  /** Every order falls in exactly one status group: the counts add up to the overview's order
      count and the revenues to its total revenue. */
  lemma {:induction false} RevenueByStatusAddsUp(store: Store)
    ensures SumOf(RevenueByStatus(store), OrderCountOf) == OverviewOf(store).totalOrders
    ensures SumOf(RevenueByStatus(store), StatusRevenueOf) == OverviewOf(store).totalRevenue
  {
    var ss := PresentStatuses(store.orders);
    StatusRows(store.orders, ss);
    GroupSizesPartition(store.orders, StatusOfOrder, ss);
    GroupSumsPartition(store.orders, StatusOfOrder, TotalOfOrder, ss);
  }

  // ----- dispatch -----

  /** What the tool answers: one report, or the message naming the accepted types. */
  datatype Report =
    | OverviewReport(overview: Overview)
    | TopProductsReport(topProducts: Result<ProductSales>)
    | TopCustomersReport(topCustomers: Result<CustomerSpend>)
    | LowStockReport(lowStock: Result<LowStockRow>)
    | RevenueByStatusReport(byStatus: seq<StatusRevenue>)
    | UnknownType(text: string)

  /** `QueryStatistics::handle`: the `type` parameter picks the report; only a missing
      parameter means `overview` (an empty string is an unknown type). */
  function Handle(reportType: Option<string>, store: Store): (r: Report)
    ensures r.UnknownType? <==> reportType.Some? && reportType.value !in ReportTypes
    ensures r.UnknownType? ==> r.text == UnknownTypeMessage
    ensures r.OverviewReport? <==> reportType.None? || reportType == Some("overview")
    ensures r.TopProductsReport? <==> reportType == Some("top_products")
    ensures r.TopCustomersReport? <==> reportType == Some("top_customers")
    ensures r.LowStockReport? <==> reportType == Some("low_stock")
    ensures r.RevenueByStatusReport? <==> reportType == Some("revenue_by_status")
    ensures r.OverviewReport? ==> r.overview == OverviewOf(store)
    ensures r.TopProductsReport? ==> r.topProducts == TopProducts(store)
    ensures r.TopCustomersReport? ==> r.topCustomers == TopCustomers(store)
    ensures r.LowStockReport? ==> r.lowStock == LowStock(store)
    ensures r.RevenueByStatusReport? ==> r.byStatus == RevenueByStatus(store)
  {
    var t := if reportType.Some? then reportType.value else "overview";
    if t == "overview" then OverviewReport(OverviewOf(store))
    else if t == "top_products" then TopProductsReport(TopProducts(store))
    else if t == "top_customers" then TopCustomersReport(TopCustomers(store))
    else if t == "low_stock" then LowStockReport(LowStock(store))
    else if t == "revenue_by_status" then RevenueByStatusReport(RevenueByStatus(store))
    else UnknownType(UnknownTypeMessage)
  }

  /** Leaving the type out is the same as asking for the overview. */
  lemma DefaultIsOverview(store: Store)
    ensures Handle(None, store) == Handle(Some("overview"), store)
    ensures Handle(None, store) == OverviewReport(OverviewOf(store))
  {
  }
}
