# DesiFood Hub, modelled in Dafny

DesiFood Hub is a restaurant ordering application. It has two halves:

- an Express server over MySQL, whose handlers serve the product catalogue, categories, orders, the admin analytics and sign-in by e-mailed one-time code;
- a React client, whose Redux stores hold the cart, the favourites and the fetched orders, and whose pages show the menu, price the dialog and the cards, and let an admin add and edit products and browse orders.

This project models the logic of both halves that does not depend on a database engine, a network or a screen. Every database table is held in memory by a class, as a sequence of rows or, for the products table, a map from product id to row: a handler becomes a method that checks the request in the handler's own order, answers with the handler's status code, and writes what the handler writes. Each Redux store is a class too, and each reducer is a method that rewrites the same fields. The page logic is functions over the fetched data; the small pieces of page state are classes whose methods are the click handlers.

JavaScript's semantics are written out where the code relies on them:
- `Number(...)` and `parseInt(...)` read integer text, and anything else is NaN (`None`);
- `||` falls back on a falsy value;
- `FormData` turns every field into text, so `null` is sent as `"null"`;
- `Array.prototype.sort` is stable;
- MySQL's `LOWER(a) = LOWER(b)` compares names.

Prices are integers and timestamps integer milliseconds. The clock, generated ids and codes, and uploaded image URLs are parameters.

Modules, one per source file, plus shared ones:

- `ProductController`, `OrderController`, `CategoryController`, `AnalyticsController`, `AuthController`: the handlers of `backend/controller/`.
- `Cart`, `Favorites`, `OrderSlice`: the client's stores.
- `ProductModal`, `ProductCard`, `FavoritesPage`, `Home`, `Signup`, `AddProductPage`, `EditProductPage`, `OrdersManagement`: the client's pages and components.
- `VariantDrafts`: the variant rows both product forms edit.
- `Catalog`: the product shape the catalogue endpoints send.
- `Common`, `Text`, `Sorting`, `Grouping`: options and replies, list combinators, strings and numbers, the stable sort, and SQL's `GROUP BY`.

In a few places the code does something other than what the application's own description of itself says. The model follows the code:

- a top-products `limit` of 0 gives 10 rows, because `parseInt(limit) || 10` treats 0 as missing;
- the admin screen's "1d" period falls back to the 30-day default;
- a duplicate category name is refused with 402, not 409;
- top categories are grouped by product name rather than by category.

## Model

| member | source | states |
|---|---|---|
| ProductController.ModeOf | backend/controller/product.js:78-80 | only the texts "size" and "pieces" name a variant mode; any other text, or none, names no mode |
| ProductController.FeaturedOnCreate | backend/controller/product.js:49-53 | the stored flag is 0 or 1, and it is 1 exactly when the field is present and says "true" in any case or "1" |
| ProductController.FeaturedOnCreateAnyCase | backend/controller/product.js:49-53 | "true", "TRUE", "True" and "1" make a product featured; "yes", "false" and an absent field do not |
| ProductController.FeaturedOnUpdate | backend/controller/product.js:286-287 | an update stores the number the field holds; an absent field or one that is not a number keeps the stored flag |
| ProductController.NumericPrices | backend/controller/product.js:57-62 | the numeric variant prices are never more than the variants sent |
| ProductController.NumericPricesSpec | backend/controller/product.js:57-62 | the list holds exactly the variant prices that are numbers, and it is empty exactly when no variant price is a number |
| ProductController.NumericPricesSound | backend/controller/product.js:57-62 | every numeric price is the price of some variant |
| ProductController.NumericPricesComplete | backend/controller/product.js:57-62 | every variant price that is a number is among the numeric prices |
| ProductController.BasePriceRule | backend/controller/product.js:55-67 | the intended base price: a stated numeric price wins; otherwise the cheapest numeric variant price (one of them, and no larger than any); otherwise 0 |
| ProductController.BasePriceInfinite | backend/controller/product.js:57-67 | the price as written is Infinity exactly when no price is stated, variants were sent and none of their prices is a number; in every other case it is the intended price |
| ProductController.BasePriceInfiniteExample | backend/controller/product.js:57-67 | one variant whose price is "abc" and no base price: the code as written stores Infinity where the intended rule gives 0 |
| ProductController.StoredVariantsSpec | backend/controller/product.js:82-97 | the insert loop writes, in order, one row per variant up to the first price that is not a number, and all of them exactly when every price is a number |
| ProductController.StoredVariantsColumns | backend/controller/product.js:89-90 | every stored variant row belongs to the new product; size mode leaves `pieces` null and pieces mode leaves `size` null |
| ProductController.StoredVariantsSplit | backend/controller/product.js:82-97 | after any run of numeric prices, the insert loop's rows split into those of the run followed by those of the rest |
| ProductController.StoredVariantsSnoc | backend/controller/product.js:82-97 | one more variant with a numeric price adds exactly its own row at the end |
| ProductController.CreateRejectsEarly | backend/controller/product.js:21-34 | a missing name or category, or variants text that is not JSON, is a 400 and nothing is written |
| ProductController.CreateChecksAfterInsert | backend/controller/product.js:70-87 | when the mode is invalid or some variant price is not a number, the product row is already inserted before the 400, and fewer variant rows than variants are stored |
| ProductController.CreateStoresEveryVariant | backend/controller/product.js:77-115 | a successful create is a 201 that stores one row per variant sent, with its id, the product, the variant's numeric price and the column its mode names |
| ProductController.MergedRow | backend/controller/product.js:286-304 | an update keeps the id and the creation time; each field the request leaves out keeps its stored value, and a new image replaces the old one |
| ProductController.ReplacementRow | backend/controller/product.js:313-315 | a re-inserted variant has the id given and belongs to the product; its size column is the sent `size`, or the sent `value` when there is no size; its pieces column is the sent piece count; its price is the sent price, or 0 when none is sent |
| ProductController.ReplacementRows | backend/controller/product.js:310-322 | one re-inserted row per variant sent, in order |
| ProductController.UpdateRejectionDiffers | backend/controller/product.js:249-270 | the update is refused exactly when the variants text is not JSON or the id is unknown; on an unknown id the intended answer is 404 where the code as written answers 500 |
| ProductController.GroupStepShape | backend/controller/product.js:147-170 | one row of the grouping appends the row's variant to its own product, or appends a new product, and leaves every other product as it was |
| ProductController.StepKeepsDistinct | backend/controller/product.js:148-161 | the grouping never lists a product id twice |
| ProductController.StepKeepsIds | backend/controller/product.js:148-161 | after each row, the ids listed are exactly the ids of the rows seen |
| ProductController.StepKeepsVariants | backend/controller/product.js:162-169 | after each row, every product carries exactly the variants of its rows so far |
| ProductController.StepKeepsFields | backend/controller/product.js:148-161 | after each row, every product carries the fields of its first row |
| ProductController.HasRowForSnoc | backend/controller/product.js:147-148 | a product id occurs in the rows plus one more row exactly when it occurs in the rows or is that row's id |
| ProductController.VariantsForSnoc | backend/controller/product.js:162-169 | one more row adds its variant, if any, at the end of its own product's variants only |
| ProductController.FirstRowForSnoc | backend/controller/product.js:148-161 | a later row does not change the first row of a product already seen |
| ProductController.FirstRowForLast | backend/controller/product.js:148-161 | the first row of a product not seen before is the row that introduces it |
| ProductController.VariantsForAbsent | backend/controller/product.js:162-169 | a product without rows has no variants |
| ProductController.GroupedSpec | backend/controller/product.js:146-172 | `allProducts` lists exactly one product per product id of the rows, each with the fields of its first row and its variants in row order |
| ProductController.SingleProduct | backend/controller/product.js:203-231 | `singleProduct` fails exactly when no row matches the id |
| ProductController.VariantsOfOneProduct | backend/controller/product.js:220-229 | on the rows of one product, the variants of every row are the variants of that product |
| ProductController.SingleAgreesWithAll | backend/controller/product.js:146-231 | on the joined rows of one product, `allProducts` lists that one product and `singleProduct` answers 200 with the same product |
| ProductController.ProductStore.CreateProduct | backend/controller/product.js:16-120 | the reply and the rows written are those of the create plan: the product row is added when the plan inserts one, and the variant rows are appended |
| ProductController.ProductStore.UpdateProduct | backend/controller/product.js:241-344 | a refused update changes nothing; otherwise the product row is merged, its old variant rows are deleted, every other row is kept in order, the sent rows are appended, and the reply holds both |
| ProductController.ProductStore.DeleteProduct | backend/controller/product.js:349-377 | an unknown id is a 404 and changes nothing; otherwise the product and every one of its variant rows are removed and every other row is kept in order |
| ProductController.ProductStore.Totals | backend/controller/product.js:378-404 | the totals are the number of products, the number of products whose featured flag is 1 (never more than all products) and the number of variant rows |
| ProductController.ReplacedVariantsOfProduct | backend/controller/product.js:306-322 | after the delete, the product's rows are exactly the rows just inserted |
| ProductController.UpdateReplacesVariants | backend/controller/product.js:306-322 | after an update the product's variants are exactly the sent rows (none when none are sent), and a variant sent without a price is stored at 0 |
| ProductController.DeleteRemovesVariants | backend/controller/product.js:365-369 | after a delete no variant of the product is left, and every other variant row is kept, in order |
| OrderController.OrNull | backend/controller/order.js:38 | `s \|\| null`: a text is stored only when it is truthy, and then unchanged |
| OrderController.NumberOrNull | backend/controller/order.js:47 | `n \|\| null`: a number is stored only when it is truthy, and then unchanged |
| OrderController.PaymentOf | backend/controller/order.js:29 | the payment method sent is stored when it is not blank, and "COD" exactly otherwise; the stored method is never blank |
| OrderController.NewOrder | backend/controller/order.js:27-39 | a new order stores the five delivery fields as sent, the special instructions and the user id as sent when truthy and null otherwise, the payment method sent when not blank and "COD" otherwise, the fresh id, the database clock's time, the status "pending" and the total sent |
| OrderController.ItemRows | backend/controller/order.js:41-50 | one item row per element of `items`, in order, each under the new order with the element's name, quantity and price, and its size and piece count as sent when truthy and null otherwise; none when `items` is not an array |
| OrderController.FindOrder | backend/controller/order.js:90-91 | an order is found exactly when one with that id is stored, and what is found is stored and has that id |
| OrderController.AttachItems | backend/controller/order.js:75-78 | every order in the reply carries the item rows of its own id, in order |
| OrderController.OrderTables.CreateOrder | backend/controller/order.js:8-68 | without the five delivery fields a 400 and nothing stored; otherwise the table gains exactly the `NewOrder` row (the delivery fields as sent, instructions and user id or null, the method or "COD", "pending", the total) and then exactly the `ItemRows` rows (each item's name, quantity, price, and size and pieces or null), and the 201 echoes that order with those rows; ids stay distinct and statuses allowed |
| OrderController.OrderTables.AllOrders | backend/controller/order.js:70-85 | the reply is every order sorted newest first, each with its item rows |
| OrderController.OrderTables.UpdateOrderStatus | backend/controller/order.js:104-131 | an unknown id is a 404, then a truthy status outside the six allowed a 400, each writing nothing; otherwise only that order's status changes, to the status sent or, when none is sent, the current one; item rows are untouched |
| OrderController.OrderTables.DeleteOrder | backend/controller/order.js:133-145 | an unknown id is a 404; otherwise exactly that order row is removed and the 200 sent; item rows are untouched |
| OrderController.OrderTables.SingleOrder | backend/controller/order.js:87-102 | 404 exactly when no order has the id; otherwise a 200 with the stored order of that id and exactly its item rows |
| OrderController.OrderTables.OrdersByUser | backend/controller/order.js:146-175 | the reply is the user's orders, newest first, each with its item rows, as `UserOrders` defines them |
| OrderController.FreshOrderItems | backend/controller/order.js:53-54 | the item rows read back for a new order are exactly the rows just written |
| OrderController.WithStatusFind | backend/controller/order.js:119-125 | after a status update the order is read back with the new status and everything else it had |
| OrderController.WithStatusOnlyStatus | backend/controller/order.js:119-122 | a status update keeps every order in place and changes only the status of the order with that id |
| OrderController.WithStatusIdempotent | backend/controller/order.js:119-122 | repeating the same status update changes nothing more |
| OrderController.WithStatusKeepsWellFormed | backend/controller/order.js:112-122 | an update to an allowed status, or to the current one, keeps ids distinct and every status allowed |
| OrderController.DeleteKeepsWellFormed | backend/controller/order.js:139 | a delete keeps ids distinct and every status allowed |
| OrderController.AllOrdersSpec | backend/controller/order.js:70-80 | `allOrders` lists every stored order as often as it is stored, newest first, each carrying exactly its own item rows |
| OrderController.UserRows | backend/controller/order.js:155-158 | the user's rows are each of the user's orders, and no other order, newest first |
| OrderController.UserOrdersNotFound | backend/controller/order.js:160-162 | for a given user id, `ordersByUser` answers 404 exactly when the user has no order |
| OrderController.UserOrdersFound | backend/controller/order.js:155-170 | a successful reply holds each of the user's orders and only those, newest first, each carrying exactly its own item rows |
| CategoryController.CategoryTable.CreateCategory | backend/controller/category.js:7-29 | a missing name is the 400 of the `catch` and a name already used, ignoring case, is refused with 402, each changing nothing; otherwise the category is appended and returned with 201; names stay unique |
| CategoryController.CategoryTable.UpdateCategory | backend/controller/category.js:109-174 | a missing id is a 400, an unknown id a 404 and a missing name the 400 of the `catch`, and a name another category uses, ignoring case, a 409, each changing nothing; otherwise only that category is renamed and returned with 200; names stay unique |
| CategoryController.CategoryTable.DeleteCategory | backend/controller/category.js:74-108 | a missing id is a 400 and an unknown id a 404; otherwise exactly that category is removed, with the reply 201; names stay unique |
| CategoryController.CreateKeepsUnique | backend/controller/category.js:11-17 | adding a category, with a fresh id, whose name passes the duplicate query keeps ids and names, up to case, unique |
| CategoryController.RenameKeepsUnique | backend/controller/category.js:142-157 | a rename that passes the duplicate query, which leaves out the renamed category, keeps names unique up to case |
| CategoryController.DeleteKeepsUnique | backend/controller/category.js:93 | deleting keeps ids and names unique |
| CategoryController.SubsequenceKeepsUnique | backend/controller/category.js:93 | any list drawn in order from a list without duplicates has none |
| CategoryController.RenameToOwnCaseVariant | backend/controller/category.js:142-145 | a category may be renamed to a case variant of its own name, which `createCategory`'s query would refuse as a duplicate |
| CategoryController.RenamedOnlyName | backend/controller/category.js:154-157 | a rename keeps every id and every other category, and changes only the name of the category with that id |
| CategoryController.DeleteRemovesOnlyIt | backend/controller/category.js:93 | after a delete no category has that id, the rest are kept in order, and every other category remains |
| CategoryController.CategoryTable.AllCategories | backend/controller/category.js:30-47 | every category is answered, with 201 |
| CategoryController.CategoryTable.SingleCategory | backend/controller/category.js:48-73 | a missing id is a 400; otherwise the answer is 201 and holds a category exactly when one has that id, and then it is that one, the only one in a valid table |
| AuthController.OtpCode | backend/controller/auth.js:24 | a drawn code is six digits without a leading zero, and its value is 100000 plus the draw, so it lies between 100000 and 999999 |
| AuthController.LatestOtp | backend/controller/auth.js:86-89 | the row picked matches the email and code, and no later row matches; nothing is picked exactly when no row matches |
| AuthController.AuthTables.RequestOtp | backend/controller/auth.js:46-78 | a missing email is a 400 and changes nothing; otherwise an unknown email gets a new unverified user, a new code row is stored under the same id, and the reply is 200; the tables stay consistent |
| AuthController.AuthTables.VerifyOtp | backend/controller/auth.js:81-108 | a missing field, an unknown, used or expired code is refused with 400 and changes nothing; otherwise the latest matching code and the user are marked verified, and the user is sent back |
| AuthController.AuthTables.CheckEmail | backend/controller/auth.js:111-122 | a missing email is a 400; otherwise a 200 saying exactly whether a user has that email |
| AuthController.RequestKeepsConsistent | backend/controller/auth.js:51-69 | a request keeps user ids and emails distinct, and code rows distinct and in creation order |
| AuthController.VerifyKeepsConsistent | backend/controller/auth.js:97-98 | marking a code and a user verified keeps the tables consistent |
| AuthController.FirstUserIsAdmin | backend/controller/auth.js:52-60 | a user created by a request has the email, is unverified, and is the admin exactly when the table was empty; only the first user is ever an admin |
| AuthController.NoAdminCount | backend/controller/auth.js:55 | a table in which no user has the admin role has no admin |
| AuthController.AdminCount | backend/controller/auth.js:52-60 | there is exactly one admin once there is any user, however many sign up |
| AuthController.LatestOtpSameMatches | backend/controller/auth.js:86-89 | the latest matching code row depends only on which rows match |
| AuthController.VerifyOnlyOnce | backend/controller/auth.js:94-97 | after a successful check the same code is answered "Code already used" at any later time |
| AuthController.IssuedCodeVerifies | backend/controller/auth.js:63-69 | a code just issued verifies exactly up to five minutes later, inclusive, and is reported expired after that |
| AuthController.VerifiedUserReply | backend/controller/auth.js:100-103 | over consistent tables, a successful check sends back, as a 200, the stored user with that email, id and role, now verified |
| AuthController.LatestIsNewest | backend/controller/auth.js:87 | `ORDER BY created_at DESC LIMIT 1`: the row picked is one of the newest matching rows |
| AnalyticsController.LookbackDays | backend/controller/analytics.js:6-27 | the sales chart looks back 7, 30, 90 or 365 days, and nothing else |
| AnalyticsController.PeriodPresets | backend/controller/analytics.js:6-27 | "7d", "30d", "90d" and "1y" look back 7, 30, 90 and 365 days; an absent period, "1d" and every other text look back 30 |
| AnalyticsController.DayRange | backend/controller/analytics.js:36-38 | the days of the window, each once, ascending |
| AnalyticsController.RowsForCount | backend/controller/analytics.js:30-39 | the per-day rows count exactly the orders of those days |
| AnalyticsController.RowOrdersConcat | backend/controller/analytics.js:33 | the order counts of two lists of rows add up |
| AnalyticsController.RowsForShape | backend/controller/analytics.js:30-39 | each row is one of the days, has at least one order, and carries that day's order count and summed total; over ascending days the rows ascend |
| AnalyticsController.SalesDataSpec | backend/controller/analytics.js:4-44 | `getSalesData` rows are strictly ascending days inside the window, each with at least one order and that day's count and summed total; together they count every order in the window |
| AnalyticsController.AmountSumSpec | backend/controller/analytics.js:63-65 | `SUM(total_amount) \|\| 0` is the sum with every NULL amount read as 0, and the SQL sum is NULL exactly when every amount is |
| AnalyticsController.Dashboard | backend/controller/analytics.js:55-95 | the total is the number of orders, the revenue the sum of their amounts with NULL as 0, the pending count the number of pending orders, and today's count and revenue those of the orders placed today; pending and today's orders never exceed all orders |
| AnalyticsController.DashboardRevenue | backend/controller/analytics.js:63-89 | today's revenue plus that of every other day is the total revenue |
| AnalyticsController.DashboardExample | backend/controller/analytics.js:55-95 | an order of 500 today and one of 300 ten days earlier: 2 orders, 800 revenue, 1 order and 500 revenue today |
| AnalyticsController.GroupsFor | backend/controller/analytics.js:112-118 | one group per product name, each with that name's quantity and revenue sums |
| AnalyticsController.Take | backend/controller/analytics.js:120 | `LIMIT n` keeps the first n rows, or all of them when there are fewer |
| AnalyticsController.LimitOf | backend/controller/analytics.js:108-109 | the limit used is never 0 |
| AnalyticsController.LimitFallback | backend/controller/analytics.js:108-109 | an absent or non-numeric limit, or 0, gives 10; any other parsed number is used as it is |
| AnalyticsController.LimitZeroIsTen | backend/controller/analytics.js:109 | the limits "0" and "abc" both give 10 |
| AnalyticsController.LimitTen | backend/controller/analytics.js:149 | the limit "10" is 10 |
| AnalyticsController.ProductGroupsDistinct | backend/controller/analytics.js:113-118 | no two groups share a product name, and each group holds its own name's sums |
| AnalyticsController.GroupOfItem | backend/controller/analytics.js:118 | every item's product name has a group |
| AnalyticsController.ItemOfGroup | backend/controller/analytics.js:118 | every group is named after some item |
| AnalyticsController.GroupsForTotals | backend/controller/analytics.js:115-116 | the groups' totals are the sums of quantity and of quantity times price over the items of their names |
| AnalyticsController.ProductGroupsTotals | backend/controller/analytics.js:113-118 | grouping loses and duplicates nothing: the groups' totals add up to the quantity and revenue of all items |
| AnalyticsController.TopProductsSpec | backend/controller/analytics.js:106-126 | for a positive limit, `getTopProducts` answers the first `limit` groups (or all of them) of a ranking that holds every group once, by total quantity descending, and no group left out outsells one listed |
| AnalyticsController.Project | backend/controller/analytics.js:142-150 | dropping the revenue keeps every group and its name and quantity, in order |
| AnalyticsController.ProjectInsert | backend/controller/analytics.js:148 | ranking by quantity commutes with dropping the revenue, one insertion at a time |
| AnalyticsController.ProjectSort | backend/controller/analytics.js:148 | ranking by quantity commutes with dropping the revenue |
| AnalyticsController.CategoriesForProject | backend/controller/analytics.js:142-147 | the quantity-only grouping is the full grouping without revenue |
| AnalyticsController.ProjectTake | backend/controller/analytics.js:149 | `LIMIT` commutes with dropping the revenue |
| AnalyticsController.TopCategoriesAreTopTen | backend/controller/analytics.js:138-157 | `getTopCategories` has at most 10 rows and is `getTopProducts` with limit 10, without the revenue: it groups by product name, not by category |
| AnalyticsController.StatsFor | backend/controller/analytics.js:170-176 | one row per status given, with the number of orders in that status |
| AnalyticsController.StatsForSum | backend/controller/analytics.js:173 | the rows' counts sum the orders whose status is one of those given |
| AnalyticsController.OrderStatsRows | backend/controller/analytics.js:168-181 | one row per status that occurs, each status once, every count at least one and equal to the number of orders in that status |
| AnalyticsController.OrderStatsSum | backend/controller/analytics.js:170-176 | the status counts add up to the number of orders |
| Cart.NewLine | desifood-hub-main/src/store/cartSlice.ts:58 | the new line is the payload itself, with an absent quantity read as 1 |
| Cart.CartStore.Recompute | desifood-hub-main/src/store/cartSlice.ts:76-77 | the lines are kept and `total` and `itemCount` become the sums over them |
| Cart.CartStore.AddToCart | desifood-hub-main/src/store/cartSlice.ts:57-81 | the lines become those of `addToCart`, and the totals agree with them |
| Cart.CartStore.RemoveFromCart | desifood-hub-main/src/store/cartSlice.ts:84-93 | every line with the id goes, and the totals agree with the rest |
| Cart.CartStore.UpdateQuantity | desifood-hub-main/src/store/cartSlice.ts:95-111 | the lines become those of `updateQuantity`; an id without a line leaves the totals as they were, and otherwise the totals agree with the lines |
| Cart.CartStore.ClearCart | desifood-hub-main/src/store/cartSlice.ts:113-120 | no lines, a total of 0 and a count of 0 |
| Cart.CartStore.IncrementQuantity | desifood-hub-main/src/store/cartSlice.ts:122-134 | the lines become those of `incrementQuantity`; an id without a line leaves the totals as they were, and otherwise the totals agree with the lines |
| Cart.CartStore.DecrementQuantity | desifood-hub-main/src/store/cartSlice.ts:136-148 | the lines become those of `decrementQuantity`; when they do not change neither do the totals, and otherwise the totals agree with the lines |
| Cart.AddedMerges | desifood-hub-main/src/store/cartSlice.ts:61-69 | a payload matching a line on id, size and pieces adds its quantity to the first such line; the cart keeps its length and every other line |
| Cart.AddedAppends | desifood-hub-main/src/store/cartSlice.ts:70-73 | a payload matching no line is appended last |
| Cart.AddedItemCount | desifood-hub-main/src/store/cartSlice.ts:57-77 | adding raises `itemCount` by the quantity added, whether it merges or appends |
| Cart.AddedTotal | desifood-hub-main/src/store/cartSlice.ts:57-76 | adding raises `total` by the quantity times the price of the line it lands in: the existing line's price when it merges, the payload's when it appends |
| Cart.WithoutIdRemovesAll | desifood-hub-main/src/store/cartSlice.ts:85 | removing leaves no line with the id, in any size or pieces, and keeps every other line in order |
| Cart.WithoutIdItemCount | desifood-hub-main/src/store/cartSlice.ts:84-89 | removing lowers `itemCount` by exactly the quantities of the removed lines |
| Cart.QuantityUpdatedSetsFirst | desifood-hub-main/src/store/cartSlice.ts:96-102 | a positive quantity is set on the first line with the id and no other |
| Cart.QuantityUpdatedRemoves | desifood-hub-main/src/store/cartSlice.ts:98-99 | a quantity of zero or less removes every line with the id |
| Cart.UnknownIdNoChange | desifood-hub-main/src/store/cartSlice.ts:84-148 | an id no line carries leaves the lines unchanged under every reducer keyed by id |
| Cart.IncrementedFirst | desifood-hub-main/src/store/cartSlice.ts:122-129 | incrementing adds one to the first line with the id only, and one to `itemCount` |
| Cart.DecrementedFloor | desifood-hub-main/src/store/cartSlice.ts:136-142 | decrementing lowers a quantity by one only when it is above 1, so no quantity of at least 1 drops below 1 |
| Cart.DecrementedFirst | desifood-hub-main/src/store/cartSlice.ts:136-142 | decrementing finds the first line with the id and lowers its quantity by one when it is above 1, leaving it otherwise; every other line is unchanged, and the item count falls by one exactly when that quantity was above 1 |
| Favorites.FavoritesStore.AddToFavorites | desifood-hub-main/src/store/favoritesSlice.ts:59-67 | a product already in the list changes nothing; a new one goes last and `count` follows the length; ids stay distinct |
| Favorites.FavoritesStore.RemoveFromFavorites | desifood-hub-main/src/store/favoritesSlice.ts:69-74 | the entries without the id remain and `count` is their number |
| Favorites.FavoritesStore.ClearFavorites | desifood-hub-main/src/store/favoritesSlice.ts:76-81 | no entries and a count of 0 |
| Favorites.FavAddedIdempotent | desifood-hub-main/src/store/favoritesSlice.ts:60-63 | adding the same product twice is adding it once |
| Favorites.AddedKeepsDistinct | desifood-hub-main/src/store/favoritesSlice.ts:60-63 | adding never creates a second entry for an id |
| Favorites.FavRemovedSpec | desifood-hub-main/src/store/favoritesSlice.ts:70 | removing leaves no entry with the id, keeps every other entry in order, and keeps ids distinct |
| Favorites.FavAddedContains | desifood-hub-main/src/store/favoritesSlice.ts:60-64 | after adding, the product is a favourite, and the list grows by one exactly when it was not one before |
| OrderSlice.UpdateStatusThunk | desifood-hub-main/src/store/order/orderSlice.ts:16-30 | the thunk resolves exactly when the service call succeeds, then with the requested id and status whatever the server replied; otherwise it is rejected with the service's error |
| OrderSlice.OrderStore.Reset | desifood-hub-main/src/store/order/orderSlice.ts:48 | `reset` empties the list, unloads the single order and clears the flags and the error |
| OrderSlice.OrderStore.Pending | desifood-hub-main/src/store/order/orderSlice.ts:52-99 | every pending case sets loading and touches no data |
| OrderSlice.OrderStore.RejectedWith | desifood-hub-main/src/store/order/orderSlice.ts:54-101 | every rejected case stops loading, marks failure, keeps the message and touches no data |
| OrderSlice.OrderStore.Settled | desifood-hub-main/src/store/order/orderSlice.ts:53-100 | the fulfilled `createOrder` and `deleteOrder` cases change only the flags |
| OrderSlice.OrderStore.OrdersFetched | desifood-hub-main/src/store/order/orderSlice.ts:57-62 | the fulfilled `getAllOrders` and `getUserOrderById` cases replace the list by the result, or the empty list when there is none |
| OrderSlice.OrderStore.SingleFetched | desifood-hub-main/src/store/order/orderSlice.ts:66 | the fulfilled `getOrderById` case loads the single order and leaves the list |
| OrderSlice.OrderStore.StatusUpdated | desifood-hub-main/src/store/order/orderSlice.ts:70-95 | the fulfilled `updateOrderStatus` case patches the first listed order with that id and the loaded single order with that id |
| OrderSlice.OrderStore.DispatchUpdateStatus | desifood-hub-main/src/store/order/orderSlice.ts:16-97 | dispatching an update patches the list and the single order when the service call succeeds, and otherwise leaves them and records the error; loading is over either way |
| OrderSlice.PatchedOrdersFirst | desifood-hub-main/src/store/order/orderSlice.ts:77-84 | only the first order with the id changes, and only in its status |
| OrderSlice.PatchedOrdersUnknown | desifood-hub-main/src/store/order/orderSlice.ts:77-78 | an id not in the list leaves the list as it was |
| OrderSlice.PatchedOrdersIdempotent | desifood-hub-main/src/store/order/orderSlice.ts:77-84 | repeating the same update changes nothing more |
| OrderSlice.PatchedSingleSpec | desifood-hub-main/src/store/order/orderSlice.ts:87-94 | the single order changes only when it is loaded and has the id, and then only in its status |
| ProductCard.Prices | desifood-hub-main/src/components/ProductCard.tsx:30 | one price per variant, in order |
| ProductCard.DisplayPrice | desifood-hub-main/src/components/ProductCard.tsx:25-37 | no variants shows the base price and one variant its price; several show a range whose ends are the lowest and the highest variant price, and every variant price lies inside it |
| ProductCard.IsFavorite | desifood-hub-main/src/components/ProductCard.tsx:18 | the heart is filled exactly when the favourites hold the product's id |
| ProductCard.CategoryName | desifood-hub-main/src/components/ProductCard.tsx:20-23 | the first category with the id gives its name, or 'Unknown Category' when that name is empty; 'Unknown Category' when no category has the id |
| ProductCard.QuickAddPayload | desifood-hub-main/src/components/ProductCard.tsx:125-127 | the quick add sends the product itself: its id and base price, with no quantity, size or pieces |
| ProductCard.HandleFavorite | desifood-hub-main/src/components/ProductCard.tsx:39-56 | a favourite is removed and any other product added with its category's name; either way the product's favourite status flips |
| ProductCard.QuickAdd | desifood-hub-main/src/components/ProductCard.tsx:125-127 | the cart gains the quick add line, merged or appended, and its totals agree with its lines |
| ProductCard.ToggleTwiceRestores | desifood-hub-main/src/components/ProductCard.tsx:39-56 | two clicks on the heart of a product that is not a favourite leave the list as it was |
| ProductCard.QuickAddTotals | desifood-hub-main/src/components/ProductCard.tsx:125-127 | a quick add raises the item count by one, and the total by the base price when it starts a new line |
| ProductModal.CurrentPrice | desifood-hub-main/src/components/ProductModal.tsx:64-74 | a selected size prices at the first variant of that size, else a selected piece count at the first variant with it, else, or when no variant matches, at the base price |
| ProductModal.DefaultSelection | desifood-hub-main/src/components/ProductModal.tsx:31-54 | with a sized variant the dialog opens on a size and no piece count; with none sized but one with pieces, on a piece count and no size; with neither, on nothing |
| ProductModal.OptionsAreFiltered | desifood-hub-main/src/components/ProductModal.tsx:34-40 | there is a size (piece-count) button exactly when some variant has a size (piece count), and every button is a variant of its kind |
| ProductModal.SortedFilterKeeps | desifood-hub-main/src/components/ProductModal.tsx:34-40 | a filtered and sorted button list is non-empty exactly when some variant passes the filter, and holds only variants that pass |
| ProductModal.ModalPayload | desifood-hub-main/src/components/ProductModal.tsx:76-90 | the cart line carries the product id, the current unit price, the chosen quantity, and the size and pieces only when they are set |
| ProductModal.ModalState.OnProductChange | desifood-hub-main/src/components/ProductModal.tsx:31-54 | a new product resets the selection to the default and the quantity to 1; no product changes nothing |
| ProductModal.ModalState.PickSize | desifood-hub-main/src/components/ProductModal.tsx:162-165 | a size button selects that size and clears the piece count |
| ProductModal.ModalState.PickPieces | desifood-hub-main/src/components/ProductModal.tsx:188-191 | a piece-count button selects that count and clears the size |
| ProductModal.ModalState.ChangeQuantity | desifood-hub-main/src/components/ProductModal.tsx:92-94 | a new quantity is taken only when it is at least 1 |
| ProductModal.ModalState.AddToCart | desifood-hub-main/src/components/ProductModal.tsx:76-90 | the cart gains the dialog's line, and its totals agree with its lines |
| ProductModal.DefaultIsCheapestSize | desifood-hub-main/src/components/ProductModal.tsx:34-44 | with sized variants of distinct sizes, the dialog opens on a size whose price is the lowest of all sized variants |
| ProductModal.DefaultIsCheapestPieces | desifood-hub-main/src/components/ProductModal.tsx:38-47 | with no sized variant and piece variants of distinct counts, the dialog opens on a piece count whose price is that of a piece variant and the lowest of all piece variants |
| ProductModal.CheapestOption | desifood-hub-main/src/components/ProductModal.tsx:34-40 | the first button of a kind is a variant of that kind that no variant of that kind undercuts |
| ProductModal.PiecesDefault | desifood-hub-main/src/components/ProductModal.tsx:42-47 | with no sized variant the dialog opens on the first piece-count button's count and no size |
| ProductModal.PriceOfDistinctPieces | desifood-hub-main/src/components/ProductModal.tsx:64-73 | with distinct piece counts and no size selected, a piece variant's count prices the dialog at that variant's price |
| ProductModal.PriceOfDistinctSize | desifood-hub-main/src/components/ProductModal.tsx:64-73 | with distinct sizes, a sized variant's size prices the dialog at that variant's price |
| ProductModal.SameSizeSameVariant | desifood-hub-main/src/components/ProductModal.tsx:68 | with distinct sizes, the variant found for a size is the only one with it |
| ProductModal.SamePiecesSameVariant | desifood-hub-main/src/components/ProductModal.tsx:70 | with distinct piece counts, the variant found for a count is the only one with it |
| ProductModal.TotalTextReadsBack | desifood-hub-main/src/components/ProductModal.tsx:96-99 | the price line is "₨" followed by the unit price times the quantity |
| ProductModal.NoSelectionSameLine | desifood-hub-main/src/components/ProductModal.tsx:76-87 | a dialog add with nothing selected lands on the same cart line as a quick add, at the base price |
| FavoritesPage.DisplayPrice | desifood-hub-main/src/pages/Favorites.tsx:48-60 | an entry without variants shows its price and one variant its price; several show the range from the lowest to the highest variant price, and every variant price lies inside it |
| FavoritesPage.FavoritesScreen.RemoveFavorite | desifood-hub-main/src/pages/Favorites.tsx:21-23 | the entry with the product id goes, the rest stay in order, and the count follows |
| FavoritesPage.FavoritesScreen.AddToCart | desifood-hub-main/src/pages/Favorites.tsx:24-45 | the cart button only selects the entry and opens the dialog |
| VariantDrafts.WithField | desifood-hub-main/src/components/admin/AddProductPage.tsx:75-79 | editing a row's value or price sets that field to the typed text and keeps the other |
| VariantDrafts.Appended | desifood-hub-main/src/components/admin/AddProductPage.tsx:71-73 | `addVariant` keeps every row and appends one empty row |
| VariantDrafts.UpdatedAt | desifood-hub-main/src/components/admin/AddProductPage.tsx:75-79 | `updateVariant` changes the one field of the row at the index and no other row |
| VariantDrafts.RemovedAt | desifood-hub-main/src/components/admin/AddProductPage.tsx:81-83 | `removeVariant` drops the row at the index and keeps the others in order; an index outside the rows changes nothing |
| VariantDrafts.RemoveAppended | desifood-hub-main/src/components/admin/AddProductPage.tsx:71-83 | removing the row just added restores the rows |
| VariantDrafts.RemovedAtMultiset | desifood-hub-main/src/components/admin/AddProductPage.tsx:81-83 | removing loses exactly the row at the index |
| VariantDrafts.UpdatedAtTwice | desifood-hub-main/src/components/admin/AddProductPage.tsx:75-79 | typing into a field twice leaves only the second text |
| AddProductPage.ModeText | desifood-hub-main/src/components/admin/AddProductPage.tsx:112 | the mode sent as text reads back on the server as the mode chosen, and no mode reads back as none |
| AddProductPage.RequestOf | desifood-hub-main/src/components/admin/AddProductPage.tsx:107-115 | the form sends its name, description, category and price as typed, the switch as "true" or "false", the mode that reads back as chosen, and every row as `{value, price}` |
| AddProductPage.AddSubmit | desifood-hub-main/src/components/admin/AddProductPage.tsx:85-115 | a form is sent exactly when it has a name and category, a price or a mode, a row when a mode is chosen, and an image; otherwise the first failed check's message is shown, in order |
| AddProductPage.SubmitForm | desifood-hub-main/src/components/admin/AddProductPage.tsx:160-209 | pressing the button is blocked by the browser exactly when the name or the description is empty, or the price is empty with no mode; otherwise `handleSubmit` runs, so the price-or-mode message never shows, and the form is sent exactly when, besides those fields, it has a category, a row when a mode is chosen, and an image |
| AddProductPage.AddProductForm.SetMode | desifood-hub-main/src/components/admin/AddProductPage.tsx:217 | choosing a mode sets it and keeps the rows |
| AddProductPage.AddProductForm.AddVariant | desifood-hub-main/src/components/admin/AddProductPage.tsx:71-73 | the rows gain one empty row; there are rows only with a mode |
| AddProductPage.AddProductForm.UpdateVariant | desifood-hub-main/src/components/admin/AddProductPage.tsx:75-79 | the rows become those of `updateVariant` |
| AddProductPage.AddProductForm.RemoveVariant | desifood-hub-main/src/components/admin/AddProductPage.tsx:81-83 | the rows become those of `removeVariant` |
| AddProductPage.SubmittedFormIsCreated | desifood-hub-main/src/components/admin/AddProductPage.tsx:85-119 | a form that is sent with a mode and numeric row prices is created with 201: the name, category and featured flag typed, and one variant row per form row at its typed price |
| AddProductPage.NoModeCreatesPlainProduct | desifood-hub-main/src/components/admin/AddProductPage.tsx:92-114 | a form sent without a mode creates the product with no variants, at the price typed, or 0 when that is not a number |
| AddProductPage.EmptyPriceTakesCheapestVariant | desifood-hub-main/src/components/admin/AddProductPage.tsx:92-114 | a form sent with an empty price has a mode and rows, and the product is stored at the cheapest numeric row price, or 0 when there is none |
| EditProductPage.ModeFor | desifood-hub-main/src/components/admin/EditProductPage.tsx:88-103 | a product with variants opens in size mode when its first variant has a size and in pieces mode otherwise; one without variants opens with no mode |
| EditProductPage.LoadedDrafts | desifood-hub-main/src/components/admin/EditProductPage.tsx:92-99 | one row per variant |
| EditProductPage.LoaderKeepsPrice | desifood-hub-main/src/components/admin/EditProductPage.tsx:94-97 | a loaded row's sort key is its variant's price |
| EditProductPage.LoadedDraftsSorted | desifood-hub-main/src/components/admin/EditProductPage.tsx:92-99 | the rows are the variants sorted by price, each in the mode's shape, and they are in ascending price order |
| EditProductPage.InitFormShowsProduct | desifood-hub-main/src/components/admin/EditProductPage.tsx:71-104 | the opened form shows the product's name, category, description and featured flag, a price text that reads back as its price, no new image, and a mode exactly when it has variants, with one row per variant |
| EditProductPage.SendDraft | desifood-hub-main/src/components/admin/EditProductPage.tsx:148-154 | a size row is sent as `{size, price}` and a pieces row as `{pieces, price}`, with the numbers parsed |
| EditProductPage.VariantsSent | desifood-hub-main/src/components/admin/EditProductPage.tsx:145-157 | the variants go only with at least one row and a mode, and then every row goes in order |
| EditProductPage.EditSubmit | desifood-hub-main/src/components/admin/EditProductPage.tsx:129-159 | a form without name, price or category is refused; otherwise it sends the name, the description text, the price as a number, the category, the flag as "1" or "0", and the variants as `VariantsSent` |
| EditProductPage.SubmitForm | desifood-hub-main/src/components/admin/EditProductPage.tsx:205-259 | pressing the button is blocked by the browser exactly when the name, the price or the description is empty; otherwise `handleSubmit` runs, which then refuses exactly a form without category, and a sent form carries the description shown |
| EditProductPage.EditProductForm.constructor | desifood-hub-main/src/components/admin/EditProductPage.tsx:33-40 | the form opens showing the product |
| EditProductPage.EditProductForm.OnProductChange | desifood-hub-main/src/components/admin/EditProductPage.tsx:71-104 | a new product reloads the form from it; there are rows only with a mode |
| EditProductPage.EditProductForm.SetMode | desifood-hub-main/src/components/admin/EditProductPage.tsx:266 | choosing a mode sets it and keeps the rows |
| EditProductPage.EditProductForm.AddVariant | desifood-hub-main/src/components/admin/EditProductPage.tsx:57-59 | the rows gain one empty row |
| EditProductPage.EditProductForm.UpdateVariant | desifood-hub-main/src/components/admin/EditProductPage.tsx:61-65 | the rows become those of `updateVariant` |
| EditProductPage.EditProductForm.RemoveVariant | desifood-hub-main/src/components/admin/EditProductPage.tsx:67-69 | the rows become those of `removeVariant` |
| EditProductPage.FeaturedText | desifood-hub-main/src/components/admin/EditProductPage.tsx:142 | "1" and "0" read back on the server as 1 and 0 |
| EditProductPage.UnchangedEditKeepsProduct | desifood-hub-main/src/components/admin/EditProductPage.tsx:71-259 | saving a named, categorised product's form unchanged is blocked exactly when the product has no description; with one it is sent and leaves the stored row as it was, its featured flag normalized to 1 or 0 |
| EditProductPage.UnchangedEditKeepsVariants | desifood-hub-main/src/components/admin/EditProductPage.tsx:88-259 | the unchanged save gets past the browser exactly when the product has a description, and then re-inserts one row per variant, in price order, each with its price and with the size or the piece count as the mode chose |
| OrdersManagement.ItemOf | desifood-hub-main/src/components/admin/OrdersManagement.tsx:54-59 | an item line keeps the product name, quantity and unit price, and its total is the quantity times the price |
| OrdersManagement.AdminOrderOf | desifood-hub-main/src/components/admin/OrdersManagement.tsx:46-67 | the admin order keeps the order's id, customer name, status and date, has an empty e-mail, a total that is the order's amount or 0 when it has none, "paid" as payment status, and one item line per item row in order |
| OrdersManagement.WindowsNest | desifood-hub-main/src/components/admin/OrdersManagement.tsx:70-92 | every order inside a narrower time window is inside every wider one |
| OrdersManagement.NarrowerWindowWithinWider | desifood-hub-main/src/components/admin/OrdersManagement.tsx:70-92 | a narrower window's list is the wider window's list filtered again, so it is a subsequence of it and never longer |
| OrdersManagement.AllTimeKeepsAll | desifood-hub-main/src/components/admin/OrdersManagement.tsx:89-90 | "All Time" lists every order |
| OrdersManagement.BadgeMatchesList | desifood-hub-main/src/components/admin/OrdersManagement.tsx:194-224 | the count on every window's button is the length of the list that window shows |
| OrdersManagement.FilteredWithinWindow | desifood-hub-main/src/components/admin/OrdersManagement.tsx:95-102 | the list shown keeps the window's order and holds only orders that are in the window and match the status and the search |
| OrdersManagement.NoSearchShowsWindow | desifood-hub-main/src/components/admin/OrdersManagement.tsx:95-102 | with status "All" and no search text the list is the whole window |
| OrdersManagement.EmailNeverMatches | desifood-hub-main/src/components/admin/OrdersManagement.tsx:52-100 | a non-empty search matches an order exactly when the lower-cased text is in the lower-cased customer name or order id, since the e-mail searched is always empty |
| OrdersManagement.SummaryOf | desifood-hub-main/src/components/admin/OrdersManagement.tsx:313-345 | the summary counts the orders shown, its revenue is the sum of their totals (0 for none), and the pending and delivered figures count the shown orders with that status, each 0 exactly when no shown order has it; the two never exceed the count |
| OrdersManagement.DisjointCounts | desifood-hub-main/src/components/admin/OrdersManagement.tsx:329-345 | orders meeting two exclusive status tests number no more than the list |
| OrdersManagement.SumOfNonNegative | desifood-hub-main/src/components/admin/OrdersManagement.tsx:321-327 | a sum of non-negative totals is not negative |
| OrdersManagement.RevenueOfNarrowerList | desifood-hub-main/src/components/admin/OrdersManagement.tsx:321-327 | with no negative totals, narrowing the list never raises the revenue shown, and it is never negative |
| OrdersManagement.OrdersScreen.constructor | desifood-hub-main/src/components/admin/OrdersManagement.tsx:37-38 | the page opens on the list with no order selected |
| OrdersManagement.OrdersScreen.ViewOrder | desifood-hub-main/src/components/admin/OrdersManagement.tsx:115-118 | viewing an order shows its details and selects its id |
| OrdersManagement.OrdersScreen.BackToList | desifood-hub-main/src/components/admin/OrdersManagement.tsx:120-123 | going back shows the list and clears the selection |
| Home.MatchesSearchAsWritten | desifood-hub-main/src/pages/Home.tsx:37-42 | the search test throws exactly when the product has no description and its name misses the text; when it answers, it answers as the intended search over name, description and category name |
| Home.FilteredAsWritten | desifood-hub-main/src/pages/Home.tsx:34-45 | the list fails exactly when some product's test throws; otherwise it is the intended list |
| Home.MissingDescriptionThrows | desifood-hub-main/src/pages/Home.tsx:37-42 | a product without a description whose name misses the text makes the page throw, while the intended list just leaves it out |
| Home.DescribedProductsAgree | desifood-hub-main/src/pages/Home.tsx:34-45 | when every product has a description, the list as written is the intended list |
| Text.IncludesEmpty | desifood-hub-main/src/pages/Home.tsx:38 | the empty search text is contained in every text, so an empty search box keeps every product or order |
| Home.EmptySearchListsCategory | desifood-hub-main/src/pages/Home.tsx:34-45 | with no search text the list is every product of the chosen category, in order, and the page does not throw |
| Home.FeaturedSplit | desifood-hub-main/src/pages/Home.tsx:47-48 | every product is in exactly one of the featured and the other dishes' lists |
| Home.FilteredNonFeaturedSpec | desifood-hub-main/src/pages/Home.tsx:62-65 | the other dishes are, in menu order, the products not featured and of the chosen category; with "All" they are every product not featured |
| Home.HomeScreen.constructor | desifood-hub-main/src/pages/Home.tsx:21-27 | the page opens on "All", with no search text and no dialog |
| Home.HomeScreen.HandleSearch | desifood-hub-main/src/pages/Home.tsx:55-60 | the search text is set, and a non-empty one switches the category to "All"; the dialog is untouched |
| Home.HomeScreen.SelectCategory | desifood-hub-main/src/pages/Home.tsx:21-24 | choosing a category sets it and nothing else |
| Home.HomeScreen.HandleProductClick | desifood-hub-main/src/pages/Home.tsx:50-53 | clicking a card opens the dialog on that product and keeps the filters |
| Home.SearchSpansCategories | desifood-hub-main/src/pages/Home.tsx:34-60 | with the category on "All", as a search sets it, the results are drawn from every category |
| Signup.SplitEmailIsValid | desifood-hub-main/src/pages/Signup.tsx:43-44 | every address made of non-empty plain parts as `local@domain.tld` passes the e-mail check |
| Signup.ValidEmailSplits | desifood-hub-main/src/pages/Signup.tsx:43-44 | every address that passes the e-mail check is made of three non-empty plain parts as `local@domain.tld` |
| Signup.Validate | desifood-hub-main/src/pages/Signup.tsx:31-72 | the form is accepted exactly when every field is filled, the e-mail passes, the password has at least 6 characters and both passwords agree; otherwise the first check that fails gives its message: an empty field, then a bad address, then a short password, then a mismatch |
| Signup.SignupRequest | desifood-hub-main/src/pages/Signup.tsx:74-90 | a body is posted exactly when the form is accepted, carrying the name, the e-mail and the password as typed, which is also the confirmation |
| Signup.ExampleAddressPasses | desifood-hub-main/src/pages/Signup.tsx:43-44 | "ali@food.pk" passes |
| Signup.NoDotFails | desifood-hub-main/src/pages/Signup.tsx:43-44 | "ali@foodpk" fails: no dot after the `@` |
| Signup.SpaceFails | desifood-hub-main/src/pages/Signup.tsx:43-44 | "a li@food.pk" fails: white space |
| Sorting.SortBy | desifood-hub-main/src/components/ProductModal.tsx:34-40 | sorting by price keeps the length and exactly the same variants |
| Sorting.Insert | desifood-hub-main/src/components/ProductModal.tsx:34-40 | one insertion step adds exactly the element inserted |
| Sorting.SortBySorted | desifood-hub-main/src/components/admin/EditProductPage.tsx:97 | the sorted list is in ascending order of its key |
| Sorting.InsertSorted | desifood-hub-main/src/components/admin/EditProductPage.tsx:97 | inserting into an ordered list keeps it ordered |
| Sorting.FirstMinIndex | desifood-hub-main/src/components/ProductModal.tsx:42-43 | the position found holds the least key, and no earlier element has that key |
| Sorting.SortByHead | desifood-hub-main/src/components/ProductModal.tsx:42-43 | the first element after the sort is the first of those with the least key, as the stable sort of the source keeps ties in order |
| Sorting.SortByMap | desifood-hub-main/src/components/admin/EditProductPage.tsx:92-97 | mapping each row to a shape with the same key commutes with sorting |
| Text.ToLower | desifood-hub-main/src/pages/Home.tsx:38 | lower-casing keeps the length and lower-cases each character |
| Text.Includes | desifood-hub-main/src/pages/Home.tsx:38 | `includes` holds exactly when the needle occurs at some position of the text |
| Text.TrimStart | backend/controller/order.js:29 | the text left does not start with white space |
| Text.TrimStartDrops | backend/controller/order.js:29 | what is left is a suffix of the text, and everything removed before it is white space |
| Text.TrimEnd | backend/controller/order.js:29 | the text left does not end with white space |
| Text.TrimEndDrops | backend/controller/order.js:29 | what is left is a prefix of the text, and everything removed after it is white space |
| Text.NatToString | backend/controller/product.js:65-66 | the decimal text of a number is non-empty, all digits, and has no leading zero |
| Text.NatToStringValue | backend/controller/product.js:65-66 | the decimal text of a number reads back as that number |
| Text.NumberOfIntToString | backend/controller/product.js:286 | `Number` of an integer's decimal text is that integer |
| Text.ParseIntOfIntToString | backend/controller/analytics.js:109 | `parseInt` of an integer's decimal text is that integer |

## Left out

- Storage and services: the MySQL pool and SQL text, Cloudinary uploads and deletions, multer and temporary-file removal, Nodemailer, JWT signing and `localStorage` persistence. The tables are in-memory sequences and maps; the code, the clock and the image URL are parameters.
- The `catch` branches that answer 500 on a failing query, and concurrent requests (the category pre-check race, last write wins). Requests are taken one after the other.
- `updateProfile`, `getUserRole` and `getUserById` in `auth.js`, which only read or rewrite one user row. The routes also import `registerUser` and `loginUser`, which `auth.js` does not define, so no password flow exists to model.
- The async thunk lifecycle (loading and error flags) in the category, product, analytics and auth slices, and the axios service wrappers.
- Rendering, currency and date formatting, charts, route guards and the growth percentages of the analytics screen, which are floating-point display values.
- The deletion of an order's item rows by a foreign-key cascade: `deleteOrder` removes the order row only, and the item rows are left to the database.
- Ties in SQL `ORDER BY`: the model breaks them by table order, which the database does not promise. The rows of `getOrderStats`, whose `GROUP BY status` has no `ORDER BY` at all, come in the order each status first occurs in the table; the database promises no order for them.
- MySQL collation: category names are compared by lower-casing them, as the queries' `LOWER(...)` does; every other comparison, e-mails included, is exact, as under a binary collation, where the server's default collation would ignore case.
- Calendar and time zones: `DATE()` is the day number of a millisecond timestamp, and a year is 365 days.
- `DECIMAL` columns, which the driver returns as text, are integers here.
- The form inputs and the image picker: the forms are modelled as records of the typed texts, and the image as whether one was chosen. The browser's `required` check is modelled (`SubmitForm` on both product forms); the sanitising of `type="number"` inputs, which empties text that is not a number, is not, so the model admits any typed text, a superset of what the browser lets through.
- The `isSubmitting` flag that disables a form's button while its request is in flight: submissions are taken one after the other.
- The `LEFT JOIN ... ORDER BY` that the catalogue reads query: `Grouped` and `SingleProduct` take the joined rows, in the query's order, as input, and no function builds those rows from a `ProductStore`.
- ProductController.ProductStore.CreateProduct: on the path with no base price and no numeric variant price, the row written carries the intended base price 0 (`BasePriceRule`) rather than the `Infinity` the code binds (first row of the findings); what MySQL and the driver do with `Infinity` is not modelled. `PlanCreate` does the same.
- Text.ToLower: lower-cases the letters A to Z only, not the rest of Unicode.
- Text.NumberOf: reads integer text only; fractions, exponents, hexadecimal and "Infinity" read as NaN, so a fractional price is not modelled.
- Text.ParseIntOf: reads decimal text; `parseInt` called without a radix, as `analytics.js` calls it, would also read `0x` text as hexadecimal.
- Signup.Validate: counts the password's length in characters rather than UTF-16 code units.
- EditProductPage.InitFormShowsProduct: takes the featured flag from the loading effect; the `useState` initial value that is shown before the effect runs is not modelled.
- ProductController.PiecesColumn: a pieces-mode value that is not a number is stored as `None` (null) rather than as NaN, since the model's numbers have no NaN; what the driver makes of NaN is not modelled.
- EditProductPage.SendDraft: a piece count that is not an integer is sent as `None` rather than as NaN, which `JSON.stringify` would turn into `null` in any case. Its price is read as integer text, where the code calls `parseFloat`; the two agree on the integer prices the model has.
- Catalog: a product stored with no image URL or description is read with that field as `None`. ProductCard.FavoriteFrom and ProductModal.ModalPayload store a missing image URL (and FavoriteFrom a missing description) in the favourites and the cart as the empty text, where the client passes the `null` through unchanged; the store fields are plain text here.

## Findings

| source | as written | input that shows it | evidently intended | confidence | as-written member | corrected member |
|---|---|---|---|---|---|---|
| backend/controller/product.js:57-67 | with no base price, the price is `Math.min` over the numeric variant prices, which is `Infinity` when there are none | a request sent to the endpoint directly (the add form's number inputs cannot send it) with no `price`, `variantMode` "size" and one variant with price "abc" | the rule's own fallback: 0 when no variant price is a number | not executed | ProductController.BasePriceInfiniteExample | ProductController.BasePriceRule |
| backend/controller/product.js:265-270 | an unknown id calls `db.rollback()` on the connection pool, which has no such method, so the `catch` answers 500 | `updateProduct` with an id no product has | 404 "Product not found", changing nothing | not executed | ProductController.UpdateRejectionDiffers | ProductController.ProductStore.UpdateProduct |
| desifood-hub-main/src/pages/Home.tsx:37-42 | `product.description.toLowerCase()` runs on a product stored without a description, and the page throws | a product named "a" with no description, searched for "b" | a missing description matches like empty text | not executed | Home.MissingDescriptionThrows | Home.DescribedProductsAgree |
