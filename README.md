# Storefront backend: storage layer and order workflow

This project models the backend of a small online storefront. Its `DatabaseStorage` class
keeps thirteen PostgreSQL tables:

- users, contacts, products, orders, order items and the shopping cart;
- an inventory ledger;
- showcase images, messages, notifications and settings;
- visitor and page-view analytics.

The Express handlers chain several storage calls. The project models:

- the storage layer, as a Dafny class over in-memory tables;
- its read side, as pure functions;
- the handlers that write more than one table.

Properties the model proves:

- Placing an order inserts one item row per submitted line, in order.
- Each order line lowers the product's stock by the ordered quantity, with no floor. Two lines of 1 and 2 units turn 10 into 7.
- Each such line also records an "out" movement with reason "Order sale" and reference `order-<id>`.
- A line naming a missing product is still inserted, but moves no stock and records no movement.
- After a completed order, the ledger accounts for each product's new stock.
- Adding to the cart merges into the session's row for the product.
- Settings are upserted by key.
- Marking a row read is idempotent.
- Each analytics breakdown is in descending order and gives each listed value its own bucket with its exact count. It leaves out a value only when its `LIMIT` is full and the value outnumbers no listed one. When both "" and "Unknown" occur, they get two buckets, both shown as "Unknown".

## Structure

| file | module | contents |
|---|---|---|
| common.dfy | `Common` | `Option`, `Outcome` (a value, or `Raised` when the database rejects a statement), opaque decimals and JSON, ids, timestamps, decimal rendering of ids |
| seqs.dfy | `Seqs` | `WHERE`, `count(*)`, `ORDER BY` (a stable insertion sort), `LIMIT`, first match, `UPDATE ... WHERE` |
| schema.dfy | `Schema` | one datatype per table row, per insert payload and per update payload, with the column defaults |
| tables.dfy | `Tables` | each write as a function from the old table to the new one, and what it keeps or changes |
| queries.dfy | `Queries` | every getter of `DatabaseStorage` |
| storage.dfy | `Storage` | the class `DatabaseStorage`: one field per table plus its `serial` counter, one method per writing storage call |
| analytics.dfy | `Analytics` | `getAnalyticsData` |
| sales.dfy | `Sales` | order placement as a specification over the three tables it writes |
| routes.dfy | `Routes` | the handlers, as methods on a `DatabaseStorage` |

### Tables and ids

Each table is a sequence of rows plus the next value of its `serial` sequence. The predicate
`Keyed` states three things about every table:

- every id in it has been handed out;
- ids increase along the table;
- no id repeats.

Two tables carry one more invariant:

- the cart has at most one row per (session, product) pair, because `addToCart` merges instead of inserting;
- the settings keys are unique, by their `UNIQUE` index.

Every mutator keeps these invariants. Queries that carry `ORDER BY created_at DESC` return the selected rows, every copy of each and nothing else, with timestamps that never increase. A query whose optional filter is absent or 0 selects the whole table.

### Constraint mode

`enforcesConstraints` says whether the database checks the `UNIQUE` and `REFERENCES` clauses of
the schema. When it does, the following are rejected:

- a duplicate username or sku;
- an order item, cart row or ledger row that names a missing product;
- a message that names a missing contact;
- a page view that names a missing visitor;
- the deletion of a product that rows still refer to.

A rejected insert has already drawn its id from the sequence, as in PostgreSQL, so that id is
never handed out. Inserting a new setting without a value breaks `NOT NULL`, so it is rejected in
both modes.

### Handlers

A handler answers with `Ok(body)`, `BadRequest` (400), `NotFound` (404) or `ServerError` (500).

- A body the zod schema rejects arrives as `None`.
- A rejected storage call reaches the handler's `catch` and answers 500. Rows written before it stay.

### Two sources of the `DELETE` handler

The two sources differ on `DELETE /api/products/:id`:

- routes.ts answers 404 for a missing product (`Routes.DeleteProductRoute`);
- the compiled bundle has no such check and answers 200 (`Routes.DeleteProductAsCompiled`).

Both variants are modelled.

### Stock changes through `PUT /api/products/:id`

`PUT /api/products/:id` writes its "Manual adjustment" movement before it updates the product.
When that update is then rejected because of a sku clash, the movement stays and the stock does
not change. `Routes.UpdateProductRoute` states this.

## Model

| member | source | states |
|---|---|---|
| Common.NatToString | routes.ts:233 | the text of an id in a template literal: decimal digits only, one digit exactly below 10 |
| Common.NatToStringInjective | routes.ts:233 | different ids render as different texts |
| Sales.SaleReferenceInjective | routes.ts:233 | two orders never share an `order-<id>` reference |
| Routes.InitialReferenceInjective | routes.ts:75 | two products never share an `initial-<id>` reference |
| Schema.NewUser.ToRow | dist/index.js:46-54 | the inserted user keeps its username, gets the id and time, and `role` defaults to "customer" |
| Schema.NewProduct.ToRow | dist/index.js:64-80 | the inserted product keeps its sku; stock defaults to 0 and `isActive` to true |
| Schema.ProductPatch.Apply | dist/index.js:290-293 | an update keeps id and creation time, sets `updatedAt`, and changes stock, sku and `isActive` only when the patch carries them; an empty patch changes only `updatedAt` |
| Schema.NewOrder.ToRow | dist/index.js:81-97 | `status` and `paymentStatus` default to "pending" |
| Schema.NewOrderItem.ToRow | dist/index.js:98-105 | the item row carries its order, product and quantity and gets the id |
| Schema.NewCartItem.ToRow | dist/index.js:106-112 | the cart row carries session, product and quantity and gets the id and time |
| Schema.NewMovement.ToRow | dist/index.js:113-123 | a ledger row keeps product, type, quantity, reason and reference |
| Schema.NewNotification.ToRow | dist/index.js:142-150 | `type` defaults to "info" and `isRead` to false |
| Schema.NewMessage.ToRow | dist/index.js:134-141 | `isRead` and `fromAdmin` default to false |
| Schema.NewShowcaseImage.ToRow | dist/index.js:124-133 | `order` defaults to 0 |
| Schema.ShowcasePatch.Apply | dist/index.js:370-373 | an update keeps id and creation time, sets `updatedAt`, and changes `order` and `isActive` only when the patch carries them; an empty patch changes only `updatedAt` |
| Schema.NewVisitor.ToRow | dist/index.js:158-174 | `isReturning` defaults to false |
| Schema.VisitorPatch.Apply | dist/index.js:436-439 | an update keeps id and creation time, sets `updatedAt`, and changes country, device, browser and `isReturning` only when the patch carries them; an empty patch changes only `updatedAt` |
| Schema.NewPageView.ToRow | dist/index.js:175-182 | the view row carries its visitor and page and gets the id and time |
| Seqs.Filter | dist/index.js:313-315 | `WHERE p`: a sub-multiset of the rows, holding exactly the rows that satisfy `p` |
| Seqs.FilterMultiset | dist/index.js:313-315 | `WHERE p` keeps every copy of a row that satisfies `p` and no copy of any other row |
| Seqs.FilterAppend | dist/index.js:313-315 | a `WHERE` over two runs of rows is the two results one after the other |
| Seqs.Count | dist/index.js:453 | `count(*) WHERE p` is the size of the filtered rows, and 0 exactly when no row matches |
| Seqs.SortDescBy | dist/index.js:274-277 | `ORDER BY key DESC` is a permutation whose keys never increase |
| Seqs.SortBy | dist/index.js:359-361 | `ORDER BY` returns a permutation of the rows |
| Seqs.SortBySorted | dist/index.js:359-361 | the insertion sort orders by any total order |
| Seqs.Take | dist/index.js:462 | `LIMIT n` keeps the first `n` rows, or all of them when there are fewer |
| Seqs.First | dist/index.js:257-260 | `const [row] = ...` is `None` exactly when no row matches, otherwise a matching row of the table |
| Queries.GetUser | dist/index.js:257-260 | a user with the id, or `None` exactly when there is none |
| Queries.GetUserByUsername | dist/index.js:261-264 | a user with the username, or `None` exactly when there is none |
| Queries.GetContacts | dist/index.js:274-277 | all contacts, newest first |
| Queries.GetContact | dist/index.js:393 | a contact with the id, or `None` exactly when there is none |
| Queries.GetProducts | dist/index.js:279-281 | all products, newest first |
| Queries.GetProduct | dist/index.js:282-285 | a product with the id, or `None` exactly when there is none |
| Queries.GetOrders | dist/index.js:298-300 | all orders, newest first |
| Queries.GetOrder | dist/index.js:301-304 | an order with the id, or `None` exactly when there is none |
| Queries.GetOrderItems | dist/index.js:313-315 | exactly the items of that order, each as often as in the table |
| Queries.GetCartItems | dist/index.js:321-323 | exactly the session's cart rows, each as often as in the table |
| Queries.FindCartRow | dist/index.js:325 | the session's row for the product, or `None` exactly when there is none |
| Queries.GetCartRow | dist/index.js:335 | the cart row `RETURNING` hands back after an update by id |
| Queries.GetInventoryMovements | dist/index.js:345-350 | a truthy product id selects exactly that product's movements, otherwise all of them; the result holds each selected row as often as the table does, newest first |
| Queries.GetShowcaseImages | dist/index.js:359-361 | all images, ascending by `order`, newest first within one `order` |
| Queries.GetShowcaseImage | dist/index.js:362-365 | an image with the id, or `None` exactly when there is none |
| Queries.GetMessages | dist/index.js:378-383 | a truthy contact id selects exactly that contact's messages, otherwise all of them; the result holds each selected row as often as the table does, newest first |
| Queries.GetMessage | dist/index.js:389 | the message `RETURNING` hands back |
| Queries.GetContactWithMessages | dist/index.js:392-397 | `None` exactly for a missing contact; otherwise the contact with exactly its messages (all messages for id 0), each as often as in the table, newest first |
| Queries.GetNotifications | dist/index.js:399-401 | all notifications, newest first |
| Queries.GetNotification | dist/index.js:407 | the notification `RETURNING` hands back |
| Queries.GetSetting | dist/index.js:414-417 | the row with the key, or `None` exactly when there is none |
| Queries.GetVisitors | dist/index.js:433-435 | all visitors, newest first |
| Queries.GetVisitor | dist/index.js:437 | the visitor `RETURNING` hands back |
| Queries.GetPageViews | dist/index.js:444-449 | a truthy visitor id selects exactly that visitor's views, otherwise all of them; the result holds each selected row as often as the table does, newest first |
| Tables.UpdateById | dist/index.js:290-293 | `UPDATE ... WHERE id = k` rewrites the rows with that id and leaves every other row |
| Tables.UpdateByIdOne | dist/index.js:290-293 | with serial keys an update by id rewrites exactly one row, or none when the id is absent |
| Tables.SetOrderStatus | dist/index.js:309-312 | only status and update time change, and only on the row with the id |
| Tables.PatchShowcase | dist/index.js:370-373 | every image keeps its id; the image with the id becomes the patched image and every other image stays |
| Tables.PatchVisitor | dist/index.js:436-439 | every visitor keeps its id; the visitor with the id becomes the patched visitor and every other visitor stays |
| Tables.DeleteById | dist/index.js:294-296 | `DELETE ... WHERE id = k` keeps exactly the rows with other ids |
| Tables.DeleteByIdOne | dist/index.js:294-296 | with serial keys, deleting by id removes exactly that one row and keeps the others in order |
| Tables.KeyedDelete | dist/index.js:338-340 | a delete keeps the keys serial |
| Tables.KeyedFilter | dist/index.js:341-343 | any filtered table keeps its keys serial |
| Tables.SetStockAt | dist/index.js:355-357 | `updateProductStock` row by row: only rows with the id get the new stock and time |
| Tables.SetStockOnlyTarget | dist/index.js:355-357 | only the target product's stock and update time change; a missing id changes nothing |
| Tables.SetStockReads | dist/index.js:355-357 | afterwards the target reads the new stock and every other product reads as before |
| Tables.PatchProductReads | dist/index.js:290-293 | after `updateProduct`, reading the product back gives the patch applied to the old row |
| Tables.PatchProduct | dist/index.js:290-293 | every row keeps its id; the row with the id becomes the patched row and every other row stays |
| Tables.AddToCart | dist/index.js:324-333 | existing rows keep id, session and product; the table grows by one row, the new pair's row, exactly when the pair had no row |
| Tables.AddToCartMerge | dist/index.js:324-333 | with an existing row for the pair, only that row's quantity changes, by the added quantity |
| Tables.AddToCartQuantity | dist/index.js:324-333 | one row per pair stays; the pair's quantity grows by the added quantity; a row is appended only for a new pair |
| Tables.AddToCartKeeps | dist/index.js:324-333 | a merge keeps every id and an insert draws the next one |
| Tables.AddTwoThenThree | dist/index.js:324-333 | adding 2 and then 3 of a new product leaves one row holding 5 |
| Tables.MergedRowFound | dist/index.js:326-328 | after the merge, the pair is found at its one rewritten row |
| Tables.AppendedRowFound | dist/index.js:330-331 | after inserting a new pair, the lookup finds the new row |
| Tables.SetCartQuantity | dist/index.js:334-337 | only the quantity changes, and only on the row with the id |
| Tables.PairsUniqueSetQuantity | dist/index.js:334-337 | `updateCartItem` keeps one row per pair |
| Tables.PairsUniqueFilter | dist/index.js:338-343 | deleting cart rows keeps one row per pair |
| Tables.ClearCart | dist/index.js:341-343 | exactly the rows of other sessions are kept |
| Tables.ClearCartRemovesSession | dist/index.js:341-343 | clearing removes exactly the rows `getCartItems` returns, and the session then has none |
| Tables.MarkMessageRead | dist/index.js:388-391 | only `isRead` changes: a message is read afterwards exactly when it was read before or has the id |
| Tables.MarkMessageReadOnce | dist/index.js:388-391 | only that message becomes read; a missing id changes nothing; marking again changes nothing |
| Tables.MarkNotificationRead | dist/index.js:406-409 | only `isRead` changes: a notification is read afterwards exactly when it was read before or has the id |
| Tables.MarkNotificationReadOnce | dist/index.js:406-409 | only that notification becomes read; a missing id changes nothing; marking again changes nothing |
| Tables.SetSettingValue | dist/index.js:420-422 | the update branch changes only rows with the key, and keeps ids and keys |
| Tables.UpsertSetting | dist/index.js:418-427 | rejected exactly for a new key without a value; otherwise ids and keys of the old rows stay, and one row is added exactly when the key was new |
| Tables.UpsertSettingReads | dist/index.js:418-427 | afterwards the key reads the value and other keys read as before; the table grows exactly when the key was new |
| Tables.UpdatedSettingReads | dist/index.js:420-422 | the update branch makes the key read the new value, or its old one when the body had none |
| Tables.SettingUpdateKeeps | dist/index.js:420-422 | the update branch keeps the ids serial and the keys unique |
| Tables.SettingInsertKeeps | dist/index.js:423-425 | the insert branch draws the next id, keeps the keys unique, and makes the key read the new row |
| Tables.GetSettingAppend | dist/index.js:423-425 | a lookup after an append finds the old row, or else the new one |
| Tables.UpsertSettingTwice | dist/index.js:418-427 | repeating the same `updateSetting` adds no second row |
| Storage.DatabaseStorage.constructor | dist/index.js:255 | an empty database whose sequences start at 1 |
| Storage.DatabaseStorage.CreateUser | dist/index.js:265-268 | rejected exactly for a taken username under `UNIQUE`; otherwise appends the row with the next id |
| Storage.DatabaseStorage.CreateContact | dist/index.js:270-273 | appends the contact with the next id |
| Storage.DatabaseStorage.CreateProduct | dist/index.js:286-289 | rejected exactly for a taken sku under `UNIQUE`; otherwise appends the row; the id is drawn either way |
| Storage.DatabaseStorage.UpdateProduct | dist/index.js:290-293 | the patched table; returns the row read back, `None` exactly for a missing id; rejected exactly for a sku clash under `UNIQUE` |
| Storage.DatabaseStorage.DeleteProduct | dist/index.js:294-296 | removes the row, unless it is still referenced under `REFERENCES` |
| Storage.DatabaseStorage.UpdateProductStock | dist/index.js:355-357 | the table becomes `SetStock` of the old one |
| Storage.DatabaseStorage.CreateOrder | dist/index.js:305-308 | appends the order with the next id |
| Storage.DatabaseStorage.UpdateOrderStatus | dist/index.js:309-312 | sets the status and update time; returns the row, `None` exactly for a missing id |
| Storage.DatabaseStorage.CreateOrderItem | dist/index.js:316-319 | rejected exactly for a missing order or product under `REFERENCES`; otherwise appends the item |
| Storage.DatabaseStorage.AddToCart | dist/index.js:324-333 | merges into the pair's row and returns it, or inserts with the next id; only the insert can be rejected |
| Storage.DatabaseStorage.UpdateCartItem | dist/index.js:334-337 | sets the quantity of that row; returns it, `None` exactly for a missing id |
| Storage.DatabaseStorage.RemoveFromCart | dist/index.js:338-340 | removes the row with the id |
| Storage.DatabaseStorage.ClearCart | dist/index.js:341-343 | removes the session's rows |
| Storage.DatabaseStorage.CreateInventoryMovement | dist/index.js:351-354 | rejected exactly for a missing product under `REFERENCES`; otherwise appends the movement |
| Storage.DatabaseStorage.CreateShowcaseImage | dist/index.js:366-369 | appends the image with the next id |
| Storage.DatabaseStorage.UpdateShowcaseImage | dist/index.js:370-373 | patches the image; returns it, `None` exactly for a missing id |
| Storage.DatabaseStorage.DeleteShowcaseImage | dist/index.js:374-376 | removes the image with the id |
| Storage.DatabaseStorage.CreateMessage | dist/index.js:384-387 | rejected exactly when it names a missing contact under `REFERENCES`; otherwise appends |
| Storage.DatabaseStorage.MarkMessageAsRead | dist/index.js:388-391 | the message is read afterwards; `None` exactly for a missing id |
| Storage.DatabaseStorage.CreateNotification | dist/index.js:402-405 | appends the notification with the next id |
| Storage.DatabaseStorage.MarkNotificationAsRead | dist/index.js:406-409 | the notification is read afterwards; `None` exactly for a missing id |
| Storage.DatabaseStorage.UpdateSetting | dist/index.js:418-427 | the upsert; rejected exactly for a new key without a value; afterwards the key reads the returned row |
| Storage.DatabaseStorage.CreateVisitor | dist/index.js:429-432 | appends the visitor with the next id |
| Storage.DatabaseStorage.UpdateVisitor | dist/index.js:436-439 | patches the visitor; returns it, `None` exactly for a missing id |
| Storage.DatabaseStorage.CreatePageView | dist/index.js:440-443 | rejected exactly when it names a missing visitor under `REFERENCES`; otherwise appends |
| Analytics.Occurrences | dist/index.js:461 | how often a key occurs: positive exactly when it is present |
| Analytics.Distinct | dist/index.js:462 | every key once, and only keys that occur |
| Analytics.GroupCount | dist/index.js:459-462 | `GROUP BY`: one group per distinct key, with its exact count |
| Analytics.TopGroups | dist/index.js:459-474 | groups in descending count, exact and non-zero, at most `limit`; a key left out occurs no more often than any key kept |
| Analytics.TopGroupsCorrect | dist/index.js:459-474 | sorting and truncating the groups yields `TopGroups`'s promise |
| Analytics.TopGroupsCutOff | dist/index.js:462 | only the `LIMIT` leaves a key out, and only one that does not outnumber a kept key |
| Analytics.OccurrencesPresent | dist/index.js:466 | counting a value among the non-null entries of a column counts the visitors holding it |
| Analytics.Breakdown | dist/index.js:463-474 | per-column counts in descending order, one bucket per distinct value, each the exact number of visitors with that value, labelled with "Unknown" for the empty string; every non-null value has its own bucket ("" and "Unknown" included, as two buckets), unless the limit is reached and the value holds no more visitors than any bucket kept |
| Analytics.BreakdownCounts | dist/index.js:481-483 | the labelled buckets stand for distinct values and count their visitors exactly |
| Analytics.BucketNamesUnique | dist/index.js:481-483 | two buckets of a breakdown share a name only when it is "Unknown" (the empty string and the value "Unknown" itself) |
| Analytics.BreakdownCovers | dist/index.js:463-474 | the values the buckets stand for include every non-null value, except one cut by the limit that holds no more visitors than any kept bucket |
| Analytics.OwnBuckets | dist/index.js:466-474 | without a limit, two different values get two different buckets with their exact counts, even when both are labelled "Unknown" |
| Analytics.TopPages | dist/index.js:459-462 | at most 10 pages, no page twice, each with its exact view count, in descending order; a viewed page is missing only when 10 are listed and it has no more views than any of them |
| Analytics.TopPagesCounts | dist/index.js:480 | the page buckets count views exactly |
| Analytics.TopPagesCovers | dist/index.js:459-462 | a viewed page missing from the buckets was cut by `LIMIT 10` and has no more views than any kept page |
| Analytics.TopPageCovered | dist/index.js:459-462 | one viewed page is either listed or was cut by `LIMIT 10` with no more views than any kept page |
| Analytics.PagesOccurrences | dist/index.js:459-462 | a page's occurrences in the page column are its views |
| Analytics.UniqueVisitors | dist/index.js:453-454 | the number of visitor rows with `is_returning = false`, at most all visitors; 0 exactly when every visitor is returning (a NULL flag is not represented) |
| Analytics.GetAnalyticsData | dist/index.js:450-485 | totals equal the table sizes; `uniqueVisitors` counts the first-time visitors; at most 10 top pages and countries; every breakdown exact, descending, one bucket per distinct value and complete up to its limit; device and browser give every non-null value its own bucket |
| Sales.ItemRow | routes.ts:213-219 | the item row carries the order id, product and quantity of the line |
| Sales.SaleReference | routes.ts:233 | the reference is "order-" followed by the decimal id |
| Sales.SaleMovement | routes.ts:224-234 | a sold line's movement is "out", of the line's product and quantity, with reason "Order sale" and the order's reference |
| Sales.FindProductIsGetProduct | dist/index.js:282-285 | the scan the order loop uses is `getProduct` |
| Sales.SellOne | routes.ts:213-235 | one pass: rejected exactly when the insert is; the item row appended otherwise; a movement only for an existing product |
| Sales.SellOneCases | routes.ts:213-235 | one pass ends in exactly one of three ways: rejected, product missing, or product sold |
| Sales.Sell | routes.ts:212-236 | the loop over the first `k` lines creates no product |
| Sales.ItemRows | routes.ts:212-220 | one item row per line, in submission order, with consecutive ids |
| Sales.SaleMoves | routes.ts:223-234 | at most one movement per line |
| Sales.SaleMovesShape | routes.ts:228-234 | every movement has the next ledger id, type "out", reason "Order sale" and the order's reference |
| Sales.SellFailedStays | routes.ts:212-236 | once a call is rejected, later lines change nothing |
| Sales.SellSameIds | routes.ts:212-236 | placing an order neither adds nor removes products |
| Sales.Sold | routes.ts:212-236 | the quantity the lines order of a product, 0 when no line names it |
| Sales.SellOneProducts | routes.ts:222-235 | one pass lowers only the line's product, by its quantity, and touches no other column |
| Sales.SellProducts | routes.ts:212-236 | a product's stock drops by the total its lines order (no floor), its other columns stay, and an unnamed product is untouched |
| Sales.SellItems | routes.ts:212-220 | a completed loop appends exactly `ItemRows` |
| Sales.SellItemsStep | routes.ts:213-219 | each completed line appends its row after the earlier ones |
| Sales.SellOneLedger | routes.ts:228-234 | one pass records a movement exactly when the line's product existed |
| Sales.SaleMovesStep | routes.ts:223-234 | `SaleMoves` for one more line adds that line's movement when its product exists |
| Sales.SellLedger | routes.ts:212-236 | a completed loop appends exactly `SaleMoves`: a line whose product is missing records nothing |
| Sales.SaleMovesNet | routes.ts:224-234 | the movements net to minus the quantity sold of an existing product, and to nothing for a missing one |
| Sales.Net | routes.ts:224-234 | the signed stock change the movements record for a product, 0 when none is of that product |
| Sales.NetAppendOne | routes.ts:228-234 | one more movement changes the net by its signed quantity |
| Sales.SaleLedgerAccounts | routes.ts:212-236 | after a completed order, each product's stock is its old stock plus the net of the new movements |
| Sales.SellCompletes | routes.ts:212-236 | the loop completes exactly when no line is rejected, so always without `REFERENCES` |
| Sales.SellRejects | routes.ts:213-219 | a reached line is rejected exactly when its product was missing before the order |
| Sales.SellStopsAt | routes.ts:212-236 | a loop cut short stopped at the first rejected line, and that line only used up an item id |
| Sales.SellTenLessOneAndTwo | routes.ts:222-234 | 10 in stock, lines of 1 and 2: stock 7, two items, two movements |
| Routes.ContactNotice | routes.ts:15-19 | the notice has the fixed title, type "info", no read flag, and a message naming the sender and the subject |
| Routes.SubmitContact | routes.ts:9-29 | invalid form: 400 and nothing written; valid form: exactly one contact and one unread "info" notification naming sender and subject |
| Routes.InitialReference | routes.ts:75 | the reference is "initial-" followed by the decimal id |
| Routes.InitialMovement | routes.ts:70-76 | a new product's movement is "in", of its whole stock, with reason "Initial stock" and its reference |
| Routes.InitialStockAccounts | routes.ts:70-76 | the initial "in" movement accounts for the whole new stock |
| Routes.CreateProductRoute | routes.ts:64-86 | 400 on an invalid body; 500 for a taken sku under `UNIQUE`, with nothing written; else the product plus its "Initial stock" movement |
| Routes.Adjustment | routes.ts:93-107 | a movement exactly when the body has a stock, the product exists and the stock differs: "in" for growth, "out" for shrinkage, its quantity the absolute difference, reason "Manual adjustment", reference `adjustment-<now>` |
| Routes.AdjustmentAccounts | routes.ts:93-110 | after the patch, the stock is the old stock plus the net of the adjustment movement |
| Routes.UpdateProductRoute | routes.ts:88-115 | the adjustment first, then the patch; 200 with `None` for a missing product; 500 exactly for a sku clash, and then the movement stays |
| Routes.DeleteProductRoute | routes.ts:117-130 | 404 and no change for a missing product; otherwise deleted, or 500 when still referenced under `REFERENCES` |
| Routes.DeleteProductAsCompiled | dist/index.js:583-591 | no existence check: a missing product answers 200 and nothing changes |
| Routes.GetOrderRoute | routes.ts:188-201 | 404 exactly for a missing order; otherwise the order with exactly its items |
| Routes.PlacedOrderReadsBack | routes.ts:188-201 | reading a placed order back gives exactly the rows placement inserted, in order |
| Routes.RecordSale | routes.ts:224-234 | the stock lowered by the quantity, and one "out" movement |
| Routes.StockLine | routes.ts:222-235 | a missing product: nothing written; an existing one: the sale recorded |
| Routes.SellLine | routes.ts:213-235 | one pass on the storage does what `Sales.SellOne` says |
| Routes.SellNextLine | routes.ts:212-236 | pass `k` takes the tables from `Sell` of `k` lines to `Sell` of `k + 1` |
| Routes.SellLines | routes.ts:212-236 | the loop leaves the tables `Sell` over all lines describes, and stops at the first rejected line |
| Routes.PlaceOrder | routes.ts:203-246 | 400 and nothing written when the order is invalid; otherwise the order row, then the loop; 500 when `items` is missing or a call was rejected |
| Routes.UpdateSettingRoute | routes.ts:436-444 | the upsert; 500 exactly for a new key without a value |

## Left out

- HTTP, Express, logging and the JSON response wrappers. A handler's response is reduced to its body or its error status.
- The PostgreSQL driver and the query builder. Tables are sequences in memory, and each statement is a function on them.
- zod validation. A body it rejects is `None`; what it accepts is a typed payload.
- Timestamps. `new Date()`, `Date.now()` and `defaultNow()` are one injected `now` per call.
- Concurrency and transactions. Handlers run one at a time, and the order route has no transaction. A failure part-way through keeps what was written.
- Decimal columns such as prices and totals. Nothing computes with them, so they stay opaque text.
- JSON columns such as the shipping address and specifications. They stay opaque.
- `avgTimeOnSite` in `getAnalyticsData`. This is a floating-point average, rounded.
- `count(*)` values. The driver returns them as strings; they are modelled as numbers. The `|| 0` fallbacks are also left out, because an aggregate always yields a row.
- Building visitor and page-view records from request headers. The payload is taken as given.
- Order items with missing fields. Each line is a well-formed `OrderLine`; a line whose `NOT NULL` columns are absent would be rejected by the database.
- Ids parsed from the path. They are integers: `parseInt` giving `NaN` is not modelled.
- The JSON types of an unvalidated `PUT /api/products/:id` body. The patch is a typed `ProductPatch`, and a `null` field is treated as absent.
- Schema.ProductPatch.Apply: a patch has no key columns, so `id` and `createdAt` always stay. `updateProduct`, `updateShowcaseImage` and `updateVisitor` spread the raw request body into their `SET` list (dist/index.js:291, dist/index.js:371, dist/index.js:437). A body naming `id` or `createdAt` would overwrite them there. `Schema.ShowcasePatch.Apply` and `Schema.VisitorPatch.Apply` make the same assumption.
- Routes.PlaceOrder: inserts the validated order payload. The handler inserts the raw `orderInfo` instead of the parsed `orderData` (routes.ts:205-209), so a body carrying `id` or `createdAt` would choose those columns; the model's `NewOrder` has no such fields.
- Tables.SetStock: carries no contract of its own. `Tables.SetStockAt`, `Tables.SetStockOnlyTarget` and `Tables.SetStockReads` state what it does.
- Routes.UpdateSettingRoute: a JSON `null` (or any non-string) `value` is not modelled; the body's value is absent or a string. For `null` the source sets or inserts `value = NULL` (routes.ts:438-439, dist/index.js:420-425), which breaks `NOT NULL` (dist/index.js:154), so it answers 500 on both branches. The model's `None` stands only for an absent value, which keeps the old value on update.
- A NULL `is_returning` flag. The column is nullable (dist/index.js:171) and `eq(isReturning, false)` does not count NULL rows (dist/index.js:453); the model's flag is a plain boolean, as every handler write supplies one (routes.ts:461).
- `updateCartItem` with an undefined quantity. The route passes the body's field unchecked; the model takes an integer.
- Schema.NewContact.ToRow: states only the id, name, subject and time. The other columns are copied unchanged.
- Queries.GetSettings: has no contract. `getSettings` has no `ORDER BY` and returns the table as stored.
- The handlers that call just one storage method (the getters, cart, status, showcase, message, notification and analytics endpoints). They are not modelled separately, because each one forwards to a storage method.
- Machine-integer width. PostgreSQL `integer` is 32 bits and `serial` overflows at 2^31 - 1; the model's integers are unbounded.
