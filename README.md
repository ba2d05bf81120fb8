# Inventory stock ledger — a Dafny model

This project models the stock-keeping core of an inventory management web application
(Next.js route handlers over Mongoose models, with React pages as clients).

- **The stock ledger** is the POST handler of the inventory movement route. It checks a
  movement request and reads the product's `currentStock`. It applies the rule of the
  movement type (`in`, `out`, `adjustment`, `transfer`), then saves one immutable movement
  record that snapshots the balance before and after. Finally it writes the new balance,
  plus the type's bookkeeping (`lastRestocked`, `totalSold`, `lastSold`), back to the
  product.
  - `MovementRoute.Post` states the handler as a function of the product store and the
    movement log.
  - `MovementRoute.Ledger` is a class holding both stores. Its method `ApplyMovement`
    performs the handler step by step and is proved to agree with `Post`. It keeps the
    ledger invariant: every product's balance is the replay of its own movements.
- **The movement history query** is the GET handler of the same route:
  - an optional product filter;
  - newest-first order;
  - `skip`/`limit` windows;
  - `ceil(total / limit)` pages.
- **The schema rules** of the `InventoryMovement` and `Product` documents (Mongoose
  validators, casting, defaults) and their pre-save hooks.
- **The client-side rules** built on the ledger:
  - the stock-update form's preview of the new balance and the product filters of the
    inventory page;
  - the stock classifier of the product detail modal and of the product card, with their
    alerts and colours;
  - the page bar of the products page;
  - the activity filters, filter badge and pagination of the activities page.

Helper modules:

| module | what it holds |
|---|---|
| `Wrappers` | `Option` and `Result` |
| `JsText` | JavaScript string operations, on ASCII: case folding, `includes`, `trim`, `parseInt` |
| `Seqs` | `Array.prototype.filter`; a stable newest-first sort |
| `Paging` | `Math.ceil(a / b)` on integers; `Array.prototype.slice`; page arithmetic |

Money amounts and timestamps are integers: smallest currency unit and milliseconds. Identifiers are strings.

## Model

| member | source | states |
|---|---|---|
| `MovementRoute.HttpStatus` | app/api/inventory/movement/route.js:29-68 | 404 exactly for an unknown product. 500 exactly for a record the schema refuses on save (the catch block). 400 for every other rejection. |
| `MovementRoute.NextStockSpec` | app/api/inventory/movement/route.js:45-63 | Per type: stock-in adds. Stock-out fails exactly when the quantity exceeds the stock, otherwise it subtracts. Adjustment sets the balance to the quantity. Transfer subtracts, floored at 0, with no insufficiency check. From a stock ≥ 0 and a quantity ≥ 1 the result is never negative. |
| `MovementRoute.Decide` | app/api/inventory/movement/route.js:29-85 | An accepted request has its fields present, names a known product and carries one of the four types. The saved record is numbered next in the log. It carries the request's product, type and quantity, the stock read as `previousStock`, the type rule's result as `newStock`, the caller and the time. It satisfies the schema. |
| `MovementRoute.PostMissingFields` | app/api/inventory/movement/route.js:29-34 | The response is 400 "required" exactly when productId or type is empty or the quantity is absent, NaN or 0. |
| `MovementRoute.PostUnknownProduct` | app/api/inventory/movement/route.js:36-39 | The response is 404 exactly when the fields are present and no product has the id. |
| `MovementRoute.PostInvalidType` | app/api/inventory/movement/route.js:64-68 | The response is "Invalid movement type" exactly when the product exists and the type is none of the four tags. |
| `MovementRoute.PostRejectionChangesNothing` | app/api/inventory/movement/route.js:29-69 | Every rejection leaves the product store and the movement log unchanged. |
| `MovementRoute.PostSucceedsIff` | app/api/inventory/movement/route.js:29-85 | A request succeeds exactly when all of these hold: its fields are present; the product exists; the type is one of four; a stock-out does not exceed the stock; the schema accepts the record. |
| `MovementRoute.PostAppendsOneRecord` | app/api/inventory/movement/route.js:41-104 | A success appends exactly one record. Its `previousStock` is the stock read and its `newStock` is the balance written to the product and returned in the response. Only that product changes. The quantity is ≥ 1, the new balance is ≥ 0, and the snapshot follows the type's rule. |
| `MovementRoute.PostStockIn` | app/api/inventory/movement/route.js:46-96 | Stock-in adds the quantity and stamps `lastRestocked`. `totalSold` and `lastSold` are untouched, and no `totalSold` is returned. |
| `MovementRoute.PostStockOut` | app/api/inventory/movement/route.js:49-101 | A stock-out above the stock is refused with "Insufficient stock" and writes nothing. Otherwise it subtracts, grows `totalSold` by exactly the quantity, stamps `lastSold` and returns the new `totalSold`. |
| `MovementRoute.PostAdjustment` | app/api/inventory/movement/route.js:58-101 | Adjustment sets the balance to the quantity whatever it was. It touches no bookkeeping field. |
| `MovementRoute.PostTransfer` | app/api/inventory/movement/route.js:61-101 | Transfer never reports insufficient stock. It writes max(0, stock − quantity) and touches no bookkeeping field. |
| `MovementRoute.PostNonPositiveQuantity` | app/api/inventory/movement/route.js:29-85 | A negative quantity passes the truthiness check but is refused when the record is saved (quantity ≥ 1), and nothing changes. |
| `MovementRoute.AdjustmentIdempotent` | app/api/inventory/movement/route.js:58-60 | Two equal adjustments in a row: once the first succeeds, the second always succeeds too, and the balance is the quantity after each. |
| `MovementRoute.PostKeepsOtherFields` | app/api/inventory/movement/route.js:86-103 | A success writes only the balance, `updatedBy` (the caller), `updatedAt` (the request time) and the type's bookkeeping. Name, SKU, prices, stock bounds, status and `createdAt` stay as they were. |
| `MovementRoute.PostRecordRejected` | app/api/inventory/movement/route.js:72-84 | A request that passes every check before the save, but whose record the schema refuses, gets a 500 naming exactly the fields the schema refuses. |
| `MovementRoute.PostReasonChecked` | app/api/inventory/movement/route.js:72-84 | The reason reaches the record as sent. A request is refused for its reason exactly when the reason is not one of the twelve and the request got past every check before the save. |
| `MovementRoute.PostRefusedForReasonAlone` | app/api/inventory/movement/route.js:72-84 | A well-formed stock-in whose only fault is its reason is refused with 500 naming the reason alone. |
| `MovementRoute.PostLogOnlyGrows` | app/api/inventory/movement/route.js:72-85 | The log after a request extends the log before it by at most one record. |
| `MovementRoute.LedgerScenario` | app/api/inventory/movement/route.js:45-104 | A product at 20 goes as follows: in 50 gives 70 (snapshot 20 to 70); out 25 gives 45; out 1000 is refused and leaves 45; adjustment 10 gives 10; transfer 5 gives 5. Four records are saved. |
| `MovementRoute.TrailExtends` | app/api/inventory/movement/route.js:72-92 | A record that starts from a product's balance and follows its type's rule extends that product's chained trail. |
| `MovementRoute.RecordsStep` | app/api/inventory/movement/route.js:72-85 | Appending a valid record about a known product keeps every record numbered, schema-valid and about a known product. |
| `MovementRoute.TrailsStep` | app/api/inventory/movement/route.js:72-104 | Appending such a record and writing its `newStock` keeps every product's trail. |
| `MovementRoute.StepPreservesInvariant` | app/api/inventory/movement/route.js:72-104 | The save followed by the balance write keeps the ledger invariant. |
| `MovementRoute.PostPreservesInvariant` | app/api/inventory/movement/route.js:9-128 | Every request keeps the ledger invariant. Every record is valid and about a known product. Every balance is ≥ 0. Each product's records are chained (previousStock = the newStock before it) and end at its current balance. |
| `MovementRoute.ReplayChained` | app/api/inventory/movement/route.js:41-83 | A chained history replays from its first snapshot to its last. |
| `MovementRoute.BalanceIsReplay` | app/api/inventory/movement/route.js:41-104 | Under the invariant, a product's balance is its initial stock with the type rules of its own movements folded over it in log order. |
| `MovementRoute.HistoryAppend` | app/api/inventory/movement/route.js:72-85 | Saving a record adds it to its own product's history only. |
| `MovementRoute.HistoryOfUnknown` | app/api/inventory/movement/route.js:36-39 | A product that no record names has an empty history. |
| `MovementRoute.InsertSpec` | models/Product.js:14-109 | A product is stored exactly when the schema and the hook accept it and neither its id nor its SKU is in use (unique index). A stored product is schema-valid with minimum < maximum. |
| `MovementRoute.AddProductPreservesInvariant` | models/Product.js:39-43 | A new product under an unused id starts its own trail from its initial stock and leaves every other trail alone. |
| `MovementRoute.Ledger.constructor` | app/api/inventory/movement/route.js:36-85 | An empty ledger satisfies the invariant. |
| `MovementRoute.Ledger.CreateProduct` | models/Product.js:3-109 | Creating a product gives the result of `Insert`. It adds the product only on success and keeps the invariant. The log is untouched. |
| `MovementRoute.Ledger.Check` | app/api/inventory/movement/route.js:29-85 | The imperative checks and per-type switch give exactly `Decide`'s verdict. |
| `MovementRoute.Ledger.ApplyMovement` | app/api/inventory/movement/route.js:9-120 | It returns `Post`'s response and leaves the stores as `Post` does. The log only grows, and the ledger invariant is kept. |
| `MovementQuery.IntOr` | app/api/inventory/movement/route.js:141-142 | `parseInt(x) \|\| d` is the parsed number when one parses and is not 0, and `d` otherwise. |
| `MovementQuery.MatchingSpec` | app/api/inventory/movement/route.js:144-147 | Exactly the given product's movements match. With no productId or an empty one, every movement matches. |
| `MovementQuery.WindowSpec` | app/api/inventory/movement/route.js:155-156 | `skip(s).limit(l)` holds at most \|l\| documents: those from position s onwards, or none past the end. It keeps the sort order. |
| `MovementQuery.GetDefaults` | app/api/inventory/movement/route.js:141-167 | Without parameters the handler serves page 1 of 50: the 50 newest movements of all, with the total counting all. |
| `MovementQuery.GetFailsIff` | app/api/inventory/movement/route.js:141-174 | The parsed limit and page are never 0. The handler fails (500) exactly when (page − 1)·limit is negative. |
| `MovementQuery.ServeSpec` | app/api/inventory/movement/route.js:149-167 | A listing is newest-first and holds only matching movements, at most \|limit\| of them. It is the sorted matches from the skip on. Its pagination reports page, limit, the matching total and ceil(total / limit). |
| `MovementQuery.WindowIsPage` | app/api/inventory/movement/route.js:149-156 | For a positive limit and a page from 1, the skip/limit window is that page. |
| `MovementQuery.ServePagesPartition` | app/api/inventory/movement/route.js:149-166 | For a positive limit and a page from 1, the handler serves that page of the newest-first matches. Pages 1..pages, read in order, give every match exactly once. None of them is empty, and every later page is empty. |
| `InventoryMovementModel.ParseType` | models/InventoryMovement.js:9-13 | Only the four tags denote a movement type, each its own. |
| `InventoryMovementModel.ParseTypeTag` | models/InventoryMovement.js:9-13 | Every movement type is recognised from its own tag. |
| `InventoryMovementModel.NewMovement` | models/InventoryMovement.js:46-81 | Constructing a record trims `reference`, stamps `timestamp` with the creation time and gives `cost` its defaults (currency USD). |
| `InventoryMovementModel.OnlyReasonViolated` | models/InventoryMovement.js:29-45 | A record that is valid in every path except its reason is refused naming the reason alone. |
| `InventoryMovementModel.SchemaValidIff` | models/InventoryMovement.js:4-68 | The schema accepts a record exactly when productId and userId are present, quantity ≥ 1, both snapshots ≥ 0, the reason (if any) is one of the twelve, the reference is at most 100 characters and the notes at most 500. |
| `InventoryMovementModel.PriceOnSave` | models/InventoryMovement.js:96-101 | With a present, non-zero `unitCost`, `totalCost` becomes unitCost × quantity. Otherwise the record is unchanged. |
| `InventoryMovementModel.Save` | models/InventoryMovement.js:3-101 | A save succeeds exactly when the schema accepts the record, and a refusal names at least one field. The stored record differs from the one built only in `totalCost`, and it is schema-valid. |
| `InventoryMovementModel.SavedRecordKeepsSnapshot` | models/InventoryMovement.js:14-101 | The stored record keeps its snapshot, with quantity ≥ 1 and both stocks ≥ 0. |
| `ProductModel.SkuAcceptedIff` | models/Product.js:14-20 | A SKU is accepted exactly when it is non-empty and made of ASCII letters of either case, digits and hyphens (upper-casing runs before the pattern). |
| `ProductModel.PreSave` | models/Product.js:103-109 | The hook reports an error exactly when minimumStock ≥ maximumStock. Lacking a `return`, it stamps `updatedAt` in both cases and changes nothing else. |
| `ProductModel.CreateSpec` | models/Product.js:3-109 | Creation succeeds exactly when no validator fails and minimum < maximum (after defaults). The product is then schema-valid: stock ≥ 0, minimum ≥ 0, maximum ≥ 1, name trimmed and 1..100 characters, description ≤ 1000, SKU pattern, prices ≥ 0. It starts with nothing sold. |
| `ProductModel.CreateDefaults` | models/Product.js:39-81 | Omitted stock fields and status default to 0 in stock, minimum 10, maximum 1000, status active. |
| `ProductModel.CreateRejectsInvertedBounds` | models/Product.js:103-106 | A minimum at or above the maximum is refused. |
| `InventoryPage.FormQuantity` | app/inventory/page.js:70 | A quantity field without leading digits counts as 0. Otherwise its parsed value counts. |
| `InventoryPage.FormQuantityExamples` | app/inventory/page.js:70 | An empty field previews as 0, and every decimal rendering of n previews as n. |
| `InventoryPage.PreviewOfRefusedStockOut` | app/inventory/page.js:69-79 | A stock-out above the stock previews as 0, although the server refuses it with "Insufficient stock". From a stock and a quantity ≥ 0, no preview is negative. |
| `InventoryPage.EmptyReasonRejected` | app/inventory/page.js:21-44 | As written, the form posts its reason as entered. When the reason is left at "Select reason" (""), the update never succeeds. Once it gets past the route's checks, it is refused with 500 naming the reason. |
| `InventoryPage.FormWithoutReasonRefused` | app/inventory/page.js:21-44 | As written, a valid restock of a non-negative stock is refused with 500 naming only the reason, when no reason is chosen and the reference and notes are empty. |
| `InventoryPage.ReasonNeverRejectsCorrected` | app/inventory/page.js:157-173 | When the body leaves an unselected reason out, neither "" nor any of the twelve reasons is ever the cause of a refusal. |
| `InventoryPage.FormWithoutReasonCorrected` | app/inventory/page.js:21-44 | With the corrected body, the same restock without a reason succeeds and adds the quantity to the stock. |
| `InventoryPage.TransferPreviewDisagrees` | app/inventory/page.js:78 | With 10 in stock and a transfer of 5, the form previews 10 while the server writes 5. |
| `InventoryPage.PreviewMatchesServer` | app/inventory/page.js:69-79 | Whenever the server's rule accepts the quantity, the corrected preview shows the balance the server writes, for all four types. It differs from the preview as written only on transfers. |
| `InventoryPage.ProductFiltersSpec` | app/inventory/page.js:369-376 | `filteredProducts` keeps, in order, exactly the products whose name or SKU contains the term ignoring case; an empty term keeps all. `lowStockProducts` is exactly the filtered products at or below their minimum. |
| `InventoryPage.Rows` | app/inventory/page.js:491 | The table shows the first min(10, n) filtered products. |
| `InventoryPage.RowLabelMatchesModal` | app/inventory/page.js:492-517 | The row badge is "Out of Stock" exactly at 0, "Low Stock" exactly when non-zero and at or below the minimum, "In Stock" otherwise. This is the detail modal's label. |
| `ActivitiesPage.ActivityOf` | app/activities/page.js:431-443 | A fetched movement keeps its time, reference, reason and type tag. Its product and user names are present exactly when those documents exist. |
| `ActivitiesPage.EndOfDaySpec` | app/activities/page.js:513-514 | `setHours(23, 59, 59, 999)` gives an instant on the same day, not before it, and no instant of that day is later. |
| `ActivitiesPage.ApplyFilters` | app/activities/page.js:483-519 | Narrowing the list stage by stage gives exactly the activities every active stage keeps. |
| `ActivitiesPage.NextStage` | app/activities/page.js:496-516 | Each stage either narrows the list by its test or, with its filter off, keeps it. |
| `ActivitiesPage.FilteredSpec` | app/activities/page.js:483-519 | The result is an order-preserving subsequence of the activities. It holds exactly those that pass every filter that is on (AND). The search hits product name, SKU, user name or reference, ignoring case. |
| `ActivitiesPage.NoFiltersKeepEverything` | app/activities/page.js:289-516 | With no search term and the filters reset, nothing is filtered out. |
| `ActivitiesPage.DateRangeInclusive` | app/activities/page.js:507-516 | The date range is inclusive: from the dateFrom instant through every instant of the dateTo day passes, and a later day does not. |
| `ActivitiesPage.ActiveFiltersCountSpec` | app/activities/page.js:289-560 | The badge counts the non-empty filter values (0 to 5) and is 0 after a reset. |
| `ActivitiesPage.UserFilterIgnored` | app/activities/page.js:483-560 | The user filter changes the badge but never the list. |
| `ActivitiesPage.ShowingRange` | app/activities/page.js:572-730 | A page holds at most 20 activities. A shown page is exactly items X..Y (counting from 1) of the filtered list, with X = (p−1)·20+1 and Y = min(p·20, N), and 1 ≤ X ≤ Y ≤ N. |
| `ActivitiesPage.PagesCoverFiltered` | app/activities/page.js:572-772 | Pages 1..ceil(N/20), read in order, are the filtered list. None of them is empty and later pages are empty. |
| `ActivitiesPage.PageTwoShowsNothing` | app/activities/page.js:431-575 | With 21 to 100 movements and no filter, page 1 offers a page-2 button, yet page 2 shows nothing, though the history has a second page of 20. |
| `ActivitiesPage.CorrectedPagesCoverHistory` | app/activities/page.js:431-575 | With one fetch paged on the client, pages 1..ceil(N/20) reach every filtered activity of the newest 100, each page non-empty. Up to 100 movements, that is every filtered movement. |
| `ProductDetailModal.Level` | components/ProductDetailModal.js:27-31 | Out of stock exactly at 0. Low exactly when non-zero and at or below the minimum. Good exactly when above the minimum. |
| `ProductDetailModal.GetStockStatus` | components/ProductDetailModal.js:27-31 | The status tag is out-of-stock, low-stock or good under exactly those conditions. |
| `ProductDetailModal.AlertsAgreeWithStatus` | components/ProductDetailModal.js:27-328 | For a stock and a minimum ≥ 0 exactly one alert renders. Out of Stock goes with out-of-stock, Low Stock Warning with low-stock, Healthy with good. |
| `ProductDetailModal.NegativeMinimumShowsTwoAlerts` | components/ProductDetailModal.js:298-328 | With no stock and minimum −1, two alerts render at once. |
| `ProductsPage.GetStockStatus` | app/products/page.js:23-27 | out-of-stock exactly at 0. low-stock exactly when non-zero and at or below the minimum. good otherwise. |
| `ProductsPage.StatusMatchesModal` | app/products/page.js:23-27 | The card's tag is the detail modal's tag for every input. |
| `ProductsPage.ColorDeterminesStatus` | app/products/page.js:29-35 | The three statuses get three distinct colour classes, so equal colours mean equal statuses. |
| `ProductsPage.TotalPages` | app/products/page.js:420 | `pages \|\| 1` is never 0, and it is the reported page count when that is non-zero. |
| `ProductsPage.PageButtons` | app/products/page.js:557 | The buttons are numbered 1..totalPages, one each. |
| `ProductsPage.NavigationStaysInRange` | app/products/page.js:547-575 | The buttons are exactly 1..totalPages. Previous is disabled exactly at page 1 and Next exactly at the last page. From a page in range, every enabled button leads to a page in range. |
| `JsText.ParseIntRoundTrip` | app/api/inventory/movement/route.js:141-142 | `parseInt` reads back every integer rendered in decimal. |
| `JsText.ParseIntNoDigits` | app/inventory/page.js:70 | A string without digits, the empty one included, parses to NaN. |
| `JsText.IncludesIff` | app/inventory/page.js:369-372 | `includes` holds exactly when the term occurs as a contiguous slice. |
| `JsText.TrimShape` | models/InventoryMovement.js:46-50 | `trim` yields a slice of the input with no white space at either end, and trimming again changes nothing. |
| `Seqs.FilterIsSubsequence` | app/activities/page.js:483-519 | `filter` returns an order-preserving subsequence of its input. |
| `Seqs.FilterMembers` | app/inventory/page.js:369-376 | An element survives `filter` exactly when it is in the input and passes. |
| `Seqs.FilterCompose` | app/activities/page.js:487-516 | Filtering twice is filtering once by the conjunction. |
| `Seqs.SortDescSpec` | app/api/inventory/movement/route.js:154 | The newest-first sort returns a permutation of its input in descending timestamp order. |
| `Paging.CeilDivSpec` | app/api/inventory/movement/route.js:166 | `Math.ceil(a / b)` is the least c with c ≥ a / b. |
| `Paging.PageContents` | app/activities/page.js:572-575 | Page p holds the items from (p−1)·size up to p·size, at most size of them, and none past the end. |
| `Paging.PagesPartition` | app/activities/page.js:572-745 | Pages 1..ceil(n/size), laid end to end, give back the list. None is empty, and every later page is empty. |

## Left out

- Authentication and permissions (the session check and the `manage_inventory` permission). The caller's id is a parameter of the handler.
- Database I/O: connecting, `findById`, `countDocuments` and `populate`. The stores are an in-memory map of products and a sequence of records. A product id that is not a valid ObjectId, which makes `findById` throw (500), is not modelled; an id is any string.
- `checkStockLevels`: its source is not part of this model. It runs after both writes and changes neither store as far as the route is concerned.
- Concurrency and partial failure. The record save and the product update are two separate writes. If the update failed, the saved record would be orphaned. The model treats a request as one sequential step.
- `MovementRoute.PostMissingFields`: the request's quantity is modelled after `parseInt`, as an optional integer, and the presence check (route.js:28) is applied to that parsed value. The handler applies `!quantity` to the raw body value instead. A raw value whose truthiness differs from its parsed value's is not modelled. Examples are the strings "0", "00" and "0.5", the number 0.5, and a non-numeric string such as "abc". Such a value passes the handler's check and then fails later, as 404 for an unknown product or 500 when the schema refuses quantity 0 or NaN, whereas the model answers 400.
- The `location`, `batchNumber`, `serialNumbers`, `approvedBy` and `metadata` fields of a record, and every product field the ledger neither reads nor writes (barcode, supplier, dimensions, images, tags, tax, perishability).
- `InventoryMovementModel.WithinLength`: string lengths are counted in characters (`|s|`), whereas Mongoose's `maxlength` counts UTF-16 code units. A character outside the Basic Multilingual Plane counts once in the model and twice in Mongoose. For example, notes of 300 emoji pass the model's 500 limit but fail Mongoose's. The same holds for the product name and description limits.
- `parseInt` is modelled for radix 10 only, with no hexadecimal prefix. Case folding and `trim` cover ASCII letters and ASCII white space only, with no Unicode case mapping.
- Date parsing and time zones. The date filters take a parsing function as a parameter. `EndOfDay` counts days in UTC, whereas the page counts them in the browser's time zone.
- Floating-point arithmetic. Quantities and stock are integers and money is in whole smallest units. Stock percentages, profit margins and currency formatting are left out.
- The order of movements with equal timestamps. The database does not fix it; the model keeps the log order (a stable sort).
- React state, effects, form submission and rendering other than the branches modelled. The products page's own server query (the products API) is not part of this model; only its page count is.
- `ActivitiesPage.ShownCorrected`: pages only the newest 100 movements. Movements beyond those are reachable only by also paging the fetch.
- `ActivitiesPage.UserFilterIgnored`: the filter panel has no control for the user filter, so it is empty unless set elsewhere. The model proves only that, when set, it is counted but never applied.
- Stock changes outside the ledger. The product edit and delete routes (app/api/products/[id]/route.js) are not part of this model. The ledger invariant covers a product store changed only by product creation and by movements.

## Findings

| source | as written | input that shows it | evidently intended | confidence | as-written member | corrected member |
|---|---|---|---|---|---|---|
| app/inventory/page.js:69-79 | the preview of a `transfer` shows the current stock unchanged | 10 in stock, transfer of 5: the form shows 10, the server writes 5 (route.js:61-63) | the preview shows max(0, current − quantity) for a transfer, as the server computes | not executed | `InventoryPage.TransferPreviewDisagrees` | `InventoryPage.PreviewMatchesServer` |
| app/inventory/page.js:21-44 | the form posts its reason as entered; the reason select starts at "" and is not required | any stock update submitted with "Select reason" left selected: the schema's enum refuses "", so the route answers 500 | an unselected reason is left out of the body, and the schema then sees no reason | not executed | `InventoryPage.FormWithoutReasonRefused` | `InventoryPage.FormWithoutReasonCorrected` |
| app/activities/page.js:431-575 | the current page selects both the server page of 100 and the client slice of 20 | 21 to 100 movements, no filter: page 2 is offered but the second fetch returns nothing, so page 2 is empty | the newest movements are fetched once and the filtered list is paged by 20 on the client | not executed | `ActivitiesPage.PageTwoShowsNothing` | `ActivitiesPage.CorrectedPagesCoverHistory` |
