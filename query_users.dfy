/** The user search tool: optional name-or-email search and "has at least one order" filter,
    ordered by name, at most 50 rows, and never any field outside the allowlist. */
module QueryUsers {
  import opened Common
  import opened Text
  import opened Sequences
  import opened Store

  const Limit: nat := 50
  const NoMatch := "No users found matching the criteria."

  datatype Params = Params(search: Option<string>, hasOrders: Option<bool>)

  /** The columns the query selects: the only part of a user it ever reads. */
  datatype PublicUser = PublicUser(id: int, name: string, email: string, createdAt: Timestamp)

  /** The shape of one returned user: exactly these four keys. */
  datatype UserRow = UserRow(id: int, name: string, email: string, registeredAt: Timestamp)

  /** `select(['id', 'name', 'email', 'created_at'])`. */
  function Public(u: User): PublicUser {
    PublicUser(u.id, u.name, u.email, u.createdAt)
  }

  predicate Matches(params: Params, orders: seq<Order>, u: PublicUser) {
    && (TruthyText(params.search) ==>
          Contains(u.name, params.search.value) || Contains(u.email, params.search.value))
    && (TruthyFlag(params.hasOrders) ==> HasOrders(orders, u.id))
  }

  function Matching(params: Params, store: Store): (m: seq<PublicUser>)
    ensures forall x :: x in m ==>
      Matches(params, store.orders, x) && exists u :: u in store.users && x == Public(u)
    ensures forall u :: u in store.users && Matches(params, store.orders, Public(u)) ==> Public(u) in m
  {
    Filter(Map(store.users, Public), x => Matches(params, store.orders, x))
  }

  function RowOf(u: PublicUser): UserRow {
    UserRow(u.id, u.name, u.email, u.createdAt)
  }

  predicate ByName(a: UserRow, b: UserRow) {
    StrLe(a.name, b.name)
  }

  lemma ByNameOrders()
    ensures TotalPreorder(ByName)
  {
    forall a: UserRow, b: UserRow ensures ByName(a, b) || ByName(b, a) {
      StrLeTotal(a.name, b.name);
    }
    forall a: UserRow, b: UserRow, c: UserRow | ByName(a, b) && ByName(b, c)
      ensures ByName(a, c)
    {
      StrLeTransitive(a.name, b.name, c.name);
    }
  }

  /** `QueryUsers::handle`. */
  function Handle(params: Params, store: Store): (r: Result<UserRow>)
    ensures r.Message? <==> forall u :: u in store.users ==> !Matches(params, store.orders, Public(u))
    ensures r.Message? ==> r.text == NoMatch
    ensures r.Rows? ==> |r.rows| == Min(Limit, |Matching(params, store)|)
    ensures r.Rows? ==> Sorted(r.rows, ByName)
    ensures r.Rows? ==> forall row :: row in r.rows ==>
      exists x :: x in Matching(params, store) && row == RowOf(x)
    ensures r.Rows? && |Matching(params, store)| <= Limit ==>
      forall u :: u in store.users && Matches(params, store.orders, Public(u)) ==> RowOf(Public(u)) in r.rows
    ensures r.Rows? ==> forall u, row ::
      (u in store.users && Matches(params, store.orders, Public(u)) && RowOf(Public(u)) !in r.rows && row in r.rows)
      ==> ByName(row, RowOf(Public(u)))
    ensures r.Rows? ==> multiset(r.rows) <= multiset(Map(Matching(params, store), RowOf))
  {
    ByNameOrders();
    var m := Matching(params, store);
    var rows := Select(m, RowOf, ByName, Limit);
    if rows == [] then
      Message(NoMatch)
    else
      assert rows[0] in rows;
      Rows(rows)
  }

  /** Every returned row satisfies the supplied filters, read off the row itself and the orders. */
  lemma RowsSatisfyFilters(params: Params, store: Store)
    ensures Handle(params, store).Rows? ==> forall row :: row in Handle(params, store).rows ==>
      && (TruthyText(params.search) ==>
            Contains(row.name, params.search.value) || Contains(row.email, params.search.value))
      && (TruthyFlag(params.hasOrders) ==> exists o :: o in store.orders && o.userId == row.id)
      && exists u :: u in store.users && row == UserRow(u.id, u.name, u.email, u.createdAt)
  {
  }

  /** Two users are the same for this query when they agree on the selected columns. */
  predicate SameExceptCredentials(a: User, b: User) {
    a.id == b.id && a.name == b.name && a.email == b.email && a.createdAt == b.createdAt
  }

  /** No credential ever reaches the output: stores that differ only in the users' passwords,
      remember tokens and two-factor secrets give identical answers, whatever the input. */
  lemma CredentialsNeverReachOutput(params: Params, s1: Store, s2: Store)
    requires s1.orders == s2.orders && |s1.users| == |s2.users|
    requires forall i :: 0 <= i < |s1.users| ==> SameExceptCredentials(s1.users[i], s2.users[i])
    ensures Handle(params, s1) == Handle(params, s2)
  {
    assert Map(s1.users, Public) == Map(s2.users, Public);
  }
}
