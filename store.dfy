/** An in-memory picture of the shop's tables, with the referential integrity the
    database's primary and foreign keys guarantee. Money is in integer cents. */
module Store {
  import opened Common
  import opened Sequences
  import opened Grouping
  import opened OrderStatus

  /** A product whose stock is at or below this many units counts as running low. */
  const LowStockThreshold: int := 10

  /** A creation instant: a day number and a second count. Only their order matters, so
      neither is bounded. */
  datatype Timestamp = Timestamp(day: int, second: int)

  /** Chronological order of instants. */
  predicate TimeLe(a: Timestamp, b: Timestamp) {
    a.day < b.day || (a.day == b.day && a.second <= b.second)
  }

  datatype Category = Category(id: int, name: string)

  /** A missing description is stored as the empty string. */
  datatype Product = Product(id: int, name: string, description: string, price: int, stock: int, categoryId: int)

  /** A customer account. The last three fields are credentials no query may reveal. */
  datatype User = User(
    id: int, name: string, email: string, createdAt: Timestamp,
    password: string, rememberToken: string, twoFactorSecret: string)

  datatype Order = Order(id: int, userId: int, status: Status, total: int, createdAt: Timestamp)

  /** A row of the order/product association table; `unitPrice` is frozen at the time of sale. */
  datatype OrderLine = OrderLine(orderId: int, productId: int, quantity: int, unitPrice: int)

  function IdOfCategory(c: Category): int { c.id }
  function IdOfProduct(p: Product): int { p.id }
  function IdOfUser(u: User): int { u.id }
  function IdOfOrder(o: Order): int { o.id }
  function CategoryOfProduct(p: Product): int { p.categoryId }
  function UserOfOrder(o: Order): int { o.userId }
  function StatusOfOrder(o: Order): Status { o.status }
  function TotalOfOrder(o: Order): int { o.total }
  function OrderOfLine(l: OrderLine): int { l.orderId }
  function ProductOfLine(l: OrderLine): int { l.productId }
  function QuantityOfLine(l: OrderLine): int { l.quantity }
  function RevenueOfLine(l: OrderLine): int { l.quantity * l.unitPrice }

  datatype Store = Store(
    categories: seq<Category>, products: seq<Product>, users: seq<User>,
    orders: seq<Order>, lines: seq<OrderLine>)
  {
    /** Primary keys are unique and every foreign key names an existing row. */
    ghost predicate Valid() {
      && Distinct(Map(categories, IdOfCategory))
      && Distinct(Map(products, IdOfProduct))
      && Distinct(Map(users, IdOfUser))
      && Distinct(Map(orders, IdOfOrder))
      && (forall p :: p in products ==> p.categoryId in Map(categories, IdOfCategory))
      && (forall o :: o in orders ==> o.userId in Map(users, IdOfUser))
      && (forall l :: l in lines ==> l.orderId in Map(orders, IdOfOrder))
      && (forall l :: l in lines ==> l.productId in Map(products, IdOfProduct))
    }
  }

  /** The first row of `s` whose key is `k`: a lookup by primary key. */
  function Find<T>(s: seq<T>, id: T -> int, k: int): (r: Option<T>)
    ensures r.Some? ==> r.value in s && id(r.value) == k
    ensures r.None? ==> forall x :: x in s ==> id(x) != k
  {
    if s == [] then None
    else if id(s[0]) == k then Some(s[0])
    else Find(s[1..], id, k)
  }

  /** Under a unique key, the lookup finds exactly the row that carries the key. */
  lemma FindUnique<T>(s: seq<T>, id: T -> int, x: T)
    requires Distinct(Map(s, id)) && x in s
    ensures Find(s, id, id(x)) == Some(x)
  {
    var y := Find(s, id, id(x)).value;
    var i :| 0 <= i < |s| && s[i] == x;
    var j :| 0 <= j < |s| && s[j] == y;
    assert Map(s, id)[i] == Map(s, id)[j];
  }

  /** A key listed in `Map(s, id)` belongs to some row of `s`. */
  lemma KeyListed<T>(s: seq<T>, id: T -> int, k: int)
    requires k in Map(s, id)
    ensures exists x :: x in s && id(x) == k
  {
    var i :| 0 <= i < |s| && Map(s, id)[i] == k;
    assert s[i] in s;
  }

  /** The name of the category with id `id` (the join `product->category->name`). */
  function CategoryName(store: Store, id: int): (n: string)
    ensures store.Valid() ==> forall c :: c in store.categories && c.id == id ==> n == c.name
  {
    match Find(store.categories, IdOfCategory, id)
    case Some(c) => c.name
    case None => ""
  }

  /** The name of the product with id `id`. */
  function ProductName(store: Store, id: int): (n: string)
    ensures store.Valid() ==> forall p :: p in store.products && p.id == id ==> n == p.name
  {
    match Find(store.products, IdOfProduct, id)
    case Some(p) => p.name
    case None => ""
  }

  /** `whereHas('orders')`: the user with id `userId` owns at least one order. */
  predicate HasOrders(orders: seq<Order>, userId: int) {
    exists o :: o in orders && o.userId == userId
  }
}
