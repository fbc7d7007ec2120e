# Read-only analytics query layer of the shop chatbot

This project models the five query tools that the shop's chat agent calls, and the
`OrderStatus` enumeration they use:

- `QueryProducts`, `QueryOrders`, `QueryCategories` and `QueryUsers` each take a parameter record and the store. They:
  1. drop the falsy parameters (absent, `0`, `""`, `"0"`, `false`);
  2. join the remaining predicates with AND;
  3. order by a fixed key;
  4. keep at most 50 rows;
  5. project a fixed set of fields.

  When nothing matches, each returns a fixed sentence.
- `QueryStatistics` picks one of five store-wide reports by name:
  - overview totals;
  - top products by quantity sold;
  - top customers by spending;
  - low-stock products;
  - revenue per order status.
- `OrderStatus` holds the five order states. It covers their backing strings, parsing a string into a state, and the label, colour and icon shown for each state.

The store is an immutable value: five sequences of records (categories, products, users, orders and order lines). `Store.Valid` states what the database's keys guarantee: primary keys are unique, and every foreign key names an existing row. Money is in integer cents. A timestamp is a pair (day number, second count). Only the order of timestamps matters, so neither part is bounded.

Every tool and report is a pure function of its parameters and the store.
The four list tools, top_products, top_customers and low_stock answer with
`Result = Rows(rows) | Message(text)`. Products, orders, categories and the three ranked reports
run through one generic pipeline, `Sequences.Query`. It takes `Filter` (the WHERE clause),
then `Map` (the projection), then `TopK`. `TopK` is an insertion sort, `SortBy`, followed by
taking a prefix, i.e. ORDER BY ... LIMIT. `QueryUsers.Handle` projects first and then filters,
because its filters read only the selected columns. It uses `Filter` and `Select` (`TopK` after
`Map`) directly. `QueryStatistics.Handle` returns a `Report`. Its overview payload is an
`Overview` record computed by `OverviewOf`. Its revenue_by_status payload is a plain sequence
of per-status rows built by `RevenueByStatus` from `Map` over the present statuses. Neither of
these uses `Query`.
Grouped aggregates are `Grouping.Group` with `SumOf`. The partition lemmas
`GroupSumsPartition` and `GroupSizesPartition` state that grouping accounts for every row
exactly once.

Modules, one per file:
- `Common`: `Option`, `Result`, and PHP truthiness.
- `Text`: substring search and lexicographic order.
- `Sequences` and `Grouping`: the generic query and aggregation operations.
- `Store`: the tables.
- `OrderStatus`.
- One module per tool.

## Model

| member | source | states |
|---|---|---|
| OrderStatus.TryFrom | app/Enums/OrderStatus.php:9-15 | parsing returns a case whose backing value is the input; it returns nothing exactly when no case has that value |
| OrderStatus.AllStatusesExact | app/Enums/OrderStatus.php:11-15 | there are exactly five cases and each is listed once |
| OrderStatus.ValueInjective | app/Enums/OrderStatus.php:11-15 | distinct cases have distinct backing values |
| OrderStatus.TryFromValue | app/Enums/OrderStatus.php:9-15 | parsing a case's backing value gives back that case |
| OrderStatus.Label | app/Enums/OrderStatus.php:17-26 | the label is the backing value with its first letter in upper case |
| OrderStatus.LabelInjective | app/Enums/OrderStatus.php:17-26 | distinct cases have distinct labels |
| OrderStatus.Color | app/Enums/OrderStatus.php:28-37 | every case has a colour from the palette warning/info/primary/success/danger |
| OrderStatus.Icon | app/Enums/OrderStatus.php:39-48 | every case has an outline icon (`heroicon-o-` prefix) |
| OrderStatus.ColorAndIconInjective | app/Enums/OrderStatus.php:28-48 | no two cases share a colour or an icon |
| Common.KeepText | app/Ai/Tools/QueryProducts.php:28 | a dropped text parameter is exactly a falsy one (absent, "" or "0"); a kept one is unchanged |
| Common.KeepNumber | app/Ai/Tools/QueryProducts.php:36 | a dropped number parameter is exactly a falsy one (absent or 0); a kept one is unchanged |
| Common.KeepFlag | app/Ai/Tools/QueryProducts.php:48 | a flag is kept exactly when it is `true` |
| Text.StrLeTotal | app/Ai/Tools/QueryProducts.php:52 | any two names are comparable under ORDER BY name |
| Text.StrLeTransitive | app/Ai/Tools/QueryProducts.php:52 | the name order is transitive |
| Text.StrLeAntisymmetric | app/Ai/Tools/QueryProducts.php:52 | two names that sort both ways are equal |
| Sequences.Filter | app/Ai/Tools/QueryProducts.php:28-50 | the kept rows are exactly the rows that satisfy the WHERE clause. Each kept row appears as often as in the input, and every other row is dropped |
| Sequences.FilterAgree | app/Ai/Tools/QueryProducts.php:28-50 | two WHERE clauses that agree on every row keep the same rows |
| Sequences.FilterAll | app/Ai/Tools/QueryProducts.php:28-50 | a clause every row satisfies keeps the whole table |
| Sequences.MapMembers | app/Ai/Tools/QueryProducts.php:58-65 | the projected rows are exactly the images of the table's rows |
| Sequences.SortBy | app/Ai/Tools/QueryProducts.php:52 | ORDER BY gives a sorted permutation of its input |
| Sequences.TopK | app/Ai/Tools/QueryProducts.php:52 | ORDER BY ... LIMIT k returns min(k, n) sorted rows drawn from the input, all of them when n <= k, and no omitted row sorts strictly before a kept one |
| Sequences.Query | app/Ai/Tools/QueryProducts.php:26-66 | the whole pipeline returns min(k, matches) sorted rows. Each row is the projection of a matching row. Every match is present when there are at most k. No omitted match sorts before a kept row. The result is empty exactly when nothing matches The rows form a sub-multiset of the projected matches, so no match is repeated. |
| Sequences.SelectAgree | app/Ai/Tools/QueryOrders.php:62-74 | projections that agree on every kept row give the same answer |
| Grouping.Group | app/Ai/Tools/QueryStatistics.php:58 | a group holds exactly the rows with that key, each as often as in the input |
| Grouping.SumOfPermutation | app/Ai/Tools/QueryStatistics.php:56-57 | a SUM does not depend on row order |
| Grouping.GroupSumsPartition | app/Ai/Tools/QueryStatistics.php:118-133 | over distinct keys that cover every row, the group sums add up to the overall sum |
| Grouping.GroupSizesPartition | app/Ai/Tools/QueryStatistics.php:118-133 | over distinct keys that cover every row, the group counts add up to the row count |
| Grouping.FilterKeepsDistinct | app/Ai/Tools/QueryStatistics.php:124 | the statuses that occur are listed without repeats |
| Grouping.FilterKeepsDistinctKeys | app/Ai/Tools/QueryStatistics.php:58 | a subset of a table with a unique key still has a unique key |
| Store.Find | app/Ai/Tools/QueryProducts.php:64 | a lookup by key returns a row with that key, or nothing when no row has it |
| Store.FindUnique | app/Ai/Tools/QueryProducts.php:64 | under a unique key, the lookup returns exactly the row that carries the key |
| Store.CategoryName | app/Ai/Tools/QueryProducts.php:64 | in a consistent store, a product's category name is the name of the category with that id |
| Store.ProductName | app/Ai/Tools/QueryOrders.php:69 | in a consistent store, a line's product name is the name of the product with that id |
| QueryProducts.Matching | app/Ai/Tools/QueryProducts.php:26-50 | the products kept are exactly those satisfying every truthy filter (substring of name or description, category, inclusive price range, stock <= 10) |
| QueryProducts.ByNameOrders | app/Ai/Tools/QueryProducts.php:52 | ordering rows by name is a total preorder |
| QueryProducts.RowOfProduct | app/Ai/Tools/QueryProducts.php:58-65 | a row copies id, name, description, price and stock, and carries the name of the product's own category |
| QueryProducts.Handle | app/Ai/Tools/QueryProducts.php:24-66 | the message appears exactly when no product matches, and its text is the fixed sentence. Otherwise there are min(50, matches) rows sorted by name. Each row is a matching product's projection. Every match appears when there are at most 50. No omitted match sorts before a kept row The rows form a sub-multiset of the projected matches, so no match is repeated. |
| QueryProducts.RowsSatisfyFilters | app/Ai/Tools/QueryProducts.php:28-50 | every returned row satisfies every supplied filter, read off the row: the term in name or description, the category's name, the price range and the stock |
| QueryProducts.Supplied | app/Ai/Tools/QueryProducts.php:28-48 | dropping falsy parameters preserves which of the five filters (search, category_id, min_price, max_price, low_stock) are switched on |
| QueryProducts.FalsyParamsIgnored | app/Ai/Tools/QueryProducts.php:28-48 | a falsy parameter (e.g. max_price = 0) gives the same answer as leaving it out |
| QueryProducts.UnfilteredIsCapped | app/Ai/Tools/QueryProducts.php:52 | with no filters, the answer holds exactly min(50, number of products) rows |
| QueryOrders.StatusFilter | app/Ai/Tools/QueryOrders.php:29-34 | the status filter applies exactly when the parameter is truthy and names a case, and it names that case |
| QueryOrders.Matching | app/Ai/Tools/QueryOrders.php:27-54 | the orders kept are exactly those satisfying every applied filter (status, user, inclusive date and total ranges) |
| QueryOrders.LinesOf | app/Ai/Tools/QueryOrders.php:68-72 | an order's line items are exactly the association rows carrying its id. Each such row appears as often as in the association table. |
| QueryOrders.ByNewestOrders | app/Ai/Tools/QueryOrders.php:56 | newest-first ordering is a total preorder; orders created at the same instant tie |
| QueryOrders.Handle | app/Ai/Tools/QueryOrders.php:25-75 | the message appears exactly when no order matches. Otherwise there are min(50, matches) rows, newest first. Each row is a matching order's projection. Every match appears when there are at most 50. No omitted match is newer than a kept row The rows form a sub-multiset of the projected matches, so no match is repeated. |
| QueryOrders.RowOfOrder | app/Ai/Tools/QueryOrders.php:62-74 | `user` and `user_email` are the owner's, and the status string parses back to the order's status. There is one entry per line item of this order and none of any other. Each entry holds the product's name, the line's quantity and the stored unit price. Entry i is the rendering of line item i of the order, so each line item is reported once. |
| QueryOrders.RowsSatisfyFilters | app/Ai/Tools/QueryOrders.php:29-54 | every returned row satisfies the applied status, date and total filters, read off the row |
| QueryOrders.InvalidStatusIgnored | app/Ai/Tools/QueryOrders.php:29-34 | a status naming no case gives the same answer as no status |
| QueryOrders.FalsyParamsIgnored | app/Ai/Tools/QueryOrders.php:29-54 | falsy parameters give the same answer as leaving them out |
| QueryOrders.RepriceKeepsValid | app/Ai/Tools/QueryOrders.php:68-72 | changing a product's current price keeps the store consistent |
| QueryOrders.RowOfAfterReprice | app/Ai/Tools/QueryOrders.php:68-72 | changing a product's current price leaves every order row unchanged |
| QueryOrders.UnitPriceIsSnapshot | app/Ai/Tools/QueryOrders.php:68-72 | changing a product's current price changes no answer of the tool: line items show the price frozen at sale |
| QueryCategories.Matching | app/Ai/Tools/QueryCategories.php:28-30 | the categories kept are exactly those whose name contains the truthy search term |
| QueryCategories.ProductsOf | app/Ai/Tools/QueryCategories.php:26 | a category's products are exactly those carrying its id |
| QueryCategories.ByNameOrders | app/Ai/Tools/QueryCategories.php:32 | ordering rows by name is a total preorder |
| QueryCategories.Handle | app/Ai/Tools/QueryCategories.php:24-43 | the message appears exactly when no category matches. Otherwise there are min(50, matches) rows sorted by name. Each row is a matching category's projection. Every match appears when there are at most 50. No omitted match sorts before a kept row The rows form a sub-multiset of the projected matches, so no match is repeated. |
| QueryCategories.ProductsCountExact | app/Ai/Tools/QueryCategories.php:26-41 | products_count is the number of products in the category, and 0 for a category that owns none |
| QueryCategories.CountsCoverEveryProduct | app/Ai/Tools/QueryCategories.php:26-42 | when every category fits in one answer, the products_count values add up to the number of products |
| QueryUsers.Matching | app/Ai/Tools/QueryUsers.php:26-38 | the users kept are exactly those whose selected columns satisfy the truthy filters: the term in name or email, and owning an order |
| QueryUsers.ByNameOrders | app/Ai/Tools/QueryUsers.php:40 | ordering rows by name is a total preorder |
| QueryUsers.Handle | app/Ai/Tools/QueryUsers.php:24-52 | the message appears exactly when no user matches. Otherwise there are min(50, matches) rows sorted by name. Each row is a matching user's projection. Every match appears when there are at most 50. No omitted match sorts before a kept row The rows form a sub-multiset of the projected matches, so no match is repeated. |
| QueryUsers.RowsSatisfyFilters | app/Ai/Tools/QueryUsers.php:28-51 | every returned row satisfies the supplied filters and is the id, name, email and creation time of a stored user |
| QueryUsers.CredentialsNeverReachOutput | app/Ai/Tools/QueryUsers.php:26-51 | stores that differ only in passwords, remember tokens and two-factor secrets give identical answers, for every input |
| QueryStatistics.Handle | app/Ai/Tools/QueryStatistics.php:26-38 | each accepted type selects its own report, whose payload is that report's function of the store. A missing type selects the overview. Any other string, including "", gives the fixed unknown-type message |
| QueryStatistics.DefaultIsOverview | app/Ai/Tools/QueryStatistics.php:28 | leaving the type out answers exactly as asking for the overview |
| QueryStatistics.Customers | app/Ai/Tools/QueryStatistics.php:46 | the customers are exactly the users owning at least one order |
| QueryStatistics.RoundedMean | app/Ai/Tools/QueryStatistics.php:47 | the average is the mean rounded to the nearest cent, with halves rounded away from zero, and 0 for no orders |
| QueryStatistics.RoundedMeanUnique | app/Ai/Tools/QueryStatistics.php:47 | only one whole number of cents is that near the mean and breaks a tie that way |
| QueryStatistics.OverviewOf | app/Ai/Tools/QueryStatistics.php:40-49 | total_orders is the number of orders, total_products the number of products, total_revenue the sum of the order totals, and total_customers the number of users owning an order (no more than the number of users). The average is the rounded mean of revenue over orders: 0 with no orders, otherwise within half a cent of revenue / orders |
| QueryStatistics.AverageWithinRange | app/Ai/Tools/QueryStatistics.php:43-47 | the average order value lies between the smallest and the largest order total; equal totals average to that total |
| QueryStatistics.SomeCustomer | app/Ai/Tools/QueryStatistics.php:46 | in a consistent store with orders, at least one customer is counted |
| QueryStatistics.SoldProducts | app/Ai/Tools/QueryStatistics.php:55 | the inner join keeps exactly the products named on some order line |
| QueryStatistics.LinesOfProduct | app/Ai/Tools/QueryStatistics.php:55-58 | a product's group holds exactly its order lines |
| QueryStatistics.TopProducts | app/Ai/Tools/QueryStatistics.php:51-68 | the message appears exactly when no product sold. Otherwise there are min(10, products sold) rows, by total_sold descending. Each row is a sold product's id, name, price and sums. Every sold product appears when there are at most 10. No omitted product outsold a kept one The rows form a sub-multiset of the projected matches, so no match is repeated. |
| QueryStatistics.TopProductsAddUp | app/Ai/Tools/QueryStatistics.php:53-61 | when every sold product fits, the total_sold values add up to the quantities of all order lines, and the total_revenue values to the sum of quantity times unit_price over all lines |
| QueryStatistics.OrdersOfUser | app/Ai/Tools/QueryStatistics.php:75-76 | a user's orders are exactly the orders carrying their id |
| QueryStatistics.TopCustomers | app/Ai/Tools/QueryStatistics.php:70-93 | the message appears exactly when no user has orders. Otherwise there are min(10, customers) rows, by total_spent descending. Each row is a customer's id, name, email, order count and spending. Every customer appears when there are at most 10. No omitted customer outspent a kept one The rows form a sub-multiset of the projected matches, so no match is repeated. |
| QueryStatistics.TopCustomersAddUp | app/Ai/Tools/QueryStatistics.php:72-86 | when every customer fits, the report lists as many customers as the overview counts. Its order counts add up to the overview's order count, and its spending to the overview's revenue |
| QueryStatistics.LowStockProducts | app/Ai/Tools/QueryStatistics.php:99 | the low-stock products are exactly those with stock <= 10 |
| QueryStatistics.LowStock | app/Ai/Tools/QueryStatistics.php:95-116 | the message appears exactly when no product has stock <= 10. Otherwise there are min(20, such products) rows, by stock ascending. Every such product appears when there are at most 20. No omitted one has less stock than a kept one The rows form a sub-multiset of the projected matches, so no match is repeated. |
| QueryStatistics.LowStockRowsJoin | app/Ai/Tools/QueryStatistics.php:98-108 | every row has stock <= 10 and shows the name of its product's own category |
| QueryStatistics.OrdersWithStatus | app/Ai/Tools/QueryStatistics.php:124 | a status group holds exactly the orders with that status |
| QueryStatistics.PresentStatuses | app/Ai/Tools/QueryStatistics.php:121-124 | the groups are exactly the statuses that occur on some order, each once |
| QueryStatistics.RevenueByStatus | app/Ai/Tools/QueryStatistics.php:118-133 | each row is a present status's count and sum with a positive count. Every order's status has a row. No status appears twice. No orders give an empty list, not a message |
| QueryStatistics.RevenueByStatusAddsUp | app/Ai/Tools/QueryStatistics.php:118-133 | the per-status counts add up to the overview's order count, and the per-status revenues to its total revenue |

## Left out

- The ORM, the query builder, eager loading and the SQL engine are out. The model computes each answer directly from the tables. `toJson`/`json_encode` and the string form of the answer are out too: rows are records.
- The source filters, then sorts and limits, then projects. The model projects before sorting. This gives the same rows because every sort key (name, created_at, total_sold, total_spent, stock) is copied into the projected row.
- Rows with equal sort keys come in an order the SQL engine does not fix. The model sorts by insertion, and no lemma states anything about the order of ties. The same holds for the order of `revenue_by_status` groups, which the query leaves unordered (the model lists them in declaration order).
- SQL `LIKE` is out: collation-dependent case-insensitivity and the `%`/`_` wildcards inside the search term. Search is a plain substring test, and names sort by character code.
- Floating point is out. Money is integer cents. `round((float) avg(total), 2)` is modelled on exact rationals: the mean in cents rounded to the nearest cent, halves away from zero as PHP's `round` does. Two sources of error are not modelled: the precision of the SQL engine's `AVG` result, and the representation error of the PHP float it is cast to. Either can move a value that sits exactly on a half cent. The decimal columns are read as exact amounts.
- Carbon, `whereDate` and `toDateTimeString` are out. A timestamp is a (day, second) pair, and the date filters compare the day. A supplied date is always applied: the model does not treat the date strings "" or "0" as falsy.
- Parameters arrive already typed (`Option<int>`, `Option<string>`, `Option<bool>`). PHP's coercion of, say, a non-numeric price string is not modelled.
- Referential integrity is the precondition `Store.Valid`, not a behaviour. The RESTRICT/CASCADE deletes belong to the database. The model's join helpers fall back to "" for a dangling key, a case `Store.Valid` rules out. In the source that case would be a null dereference.
- The `schema()` and `description()` methods of every tool are not modelled. They are static metadata for the agent.
- `DatabaseQueryAgent` is not part of this model. It hands the tools to an external language model. The chat page, routes, conversation storage, admin screens, widgets and seeders are not part of this model either.
