# InfraspeakApp sync jobs in Dafny

This project models the reconciliation logic of five AWS Lambda jobs. The jobs keep an
Unleashed inventory account and an Infraspeak maintenance platform in step:

- **purchaseOrderStatusChange**: compares the purchase orders Unleashed lists now
  with a snapshot table keyed by order number. It deletes orders that left the feed
  or reached `Complete`, inserts new orders, overwrites orders whose status
  changed, and renders the list of changes as a notification message.
- **UnleashedToInfraspeak**: flattens Unleashed's stock on hand into one row per
  (product, warehouse) pair. It looks each row's material and quantity up in
  Infraspeak, page by page, and posts at most one `ADD` or `ABATE` movement that
  makes the two quantities agree.
- **UnleashedProductsPoll** and **match-products**: find the Unleashed product
  codes Infraspeak does not have yet. They take the details of the first such
  product, choose its warehouses and folder, and build the folder, material and
  stock-movement payloads.
- **InfraspeakToUnleashedStockLevels**: turns the stock movements of an
  Infraspeak failure into the lines of one completed Unleashed sales order.

Every network answer is an input. Paged endpoints are sequences of pages,
page 1 first. A lookup is a function from a key to an optional answer. A POST
is a predicate saying whether the service accepts it, or the id it returns.
The DynamoDB table is a class holding a `map` whose requests may throw after
a budget of successful calls.

The files:

- `common.dfy`: `Option` and `Result`.
- `js_text.dfy`: the JavaScript string built-ins the jobs call. These are
  `trim`, ASCII `toUpperCase`, `parseInt(_, 10)` and number `toString`.
- `seqs.dfy`: sequence helpers (`filter`, first-match `find`, dedup by `Set`,
  subsequence).
- `purchase_order_diff.dfy`: the purchase-order diff as values. It holds the
  plan of store calls and entries, the state the table converges to, and the
  message.
- `purchase_order_store.dfy`: the same job as it runs. It holds the table
  object, the deletion and incoming loops, the message loop and the handler,
  each proved against the plan.
- `unleashed_to_infraspeak.dfy`: the page scans, the quantity decision, the
  row flattening and the warehouse-code lookup.
- `catalog_sync.dfy`: the steps UnleashedProductsPoll and match-products share
  line for line.
- `unleashed_products_poll.dfy` and `match_products.dfy`: where the two jobs
  differ (normalisation, matcher, product lookup).
- `infraspeak_to_unleashed_stock_levels.dfy`: the `getMaterialData` loop, the
  sales-order payload and the handler.

## Model

| member | source | states |
|---|---|---|
| PurchaseOrderDiff.PageOrders | lambda/purchaseOrderStatusChange/index.mjs:211-216 | as many tracked orders as page items, the `i`-th order built from the `i`-th item with its number, status and both modification fields copied |
| PurchaseOrderDiff.ProcessFetchedPurchaseOrders | lambda/purchaseOrderStatusChange/index.mjs:209-218 | the flattened feed has exactly as many orders as the pages have items and contains every item of every page |
| PurchaseOrderDiff.ProcessFetchedAt | lambda/purchaseOrderStatusChange/index.mjs:209-218 | the `i`-th item of page `p` becomes the order at position (items of the pages before `p`) + `i`, so page order and item order are both kept |
| PurchaseOrderDiff.ItemLists | lambda/purchaseOrderStatusChange/index.mjs:210 | the flattening succeeds exactly when every page body has an `Items` list, and then yields those lists in page order |
| PurchaseOrderDiff.ProcessFetchedConcat | lambda/purchaseOrderStatusChange/index.mjs:210 | `flatMap` distributes over concatenated page lists, so page order is kept |
| PurchaseOrderDiff.Find | lambda/purchaseOrderStatusChange/index.mjs:107 | `existingOrders.find` returns the first stored order with that number, and nothing exactly when no stored order has it |
| PurchaseOrderDiff.FindOrdersToDelete | lambda/purchaseOrderStatusChange/index.mjs:80-83 | the orders to delete are, in stored order, exactly the stored orders whose number is not in the feed |
| PurchaseOrderDiff.IncomingAction | lambda/purchaseOrderStatusChange/index.mjs:105-185 | per incoming order: `Complete` and stored means delete with old status; status changed means overwrite with the incoming order; new and not `Complete` means insert with `null` old status; otherwise no call and no entry; the entry carries the incoming status and modifier |
| PurchaseOrderDiff.ApplyDeletions | lambda/purchaseOrderStatusChange/index.mjs:86-102 | deleting the listed orders one by one removes exactly their numbers from the table |
| PurchaseOrderDiff.DeletionPrefix | lambda/purchaseOrderStatusChange/index.mjs:55-60 | the plan starts with the absence deletions, in stored order, before any incoming call |
| PurchaseOrderDiff.IncomingActionsConcat | lambda/purchaseOrderStatusChange/index.mjs:106-114 | the incoming loop's calls for a split feed are the calls for each part in turn |
| PurchaseOrderDiff.IncomingPhase | lambda/purchaseOrderStatusChange/index.mjs:105-115 | with distinct numbers, the incoming loop leaves keys outside the feed alone and leaves each feed key as that order's own call leaves it |
| PurchaseOrderDiff.FindInScan | lambda/purchaseOrderStatusChange/index.mjs:70-78 | on a scan of the table, finding a number in the scan is looking it up in the table |
| PurchaseOrderDiff.DeletionPhase | lambda/purchaseOrderStatusChange/index.mjs:86-102 | after the absence deletions the table keeps exactly the keys that the feed lists |
| PurchaseOrderDiff.IncomingOutcome | lambda/purchaseOrderStatusChange/index.mjs:118-185 | each feed order's key ends up absent when `Complete` and otherwise holds the stored record if the status is unchanged, or else the incoming order |
| PurchaseOrderDiff.RunStoreLookup | lambda/purchaseOrderStatusChange/index.mjs:47-67 | after a whole run, keys outside the feed are gone and every feed key holds its outcome |
| PurchaseOrderDiff.ConvergedStore | lambda/purchaseOrderStatusChange/index.mjs:80-185 | after a run with distinct numbers, the table's keys are exactly the feed's non-`Complete` numbers, each holding a record with the feed's status, and no record is `Complete` |
| PurchaseOrderDiff.QuietIncoming | lambda/purchaseOrderStatusChange/index.mjs:118-124 | when no incoming order needs a call the incoming loop makes none |
| PurchaseOrderDiff.NothingToDeleteOnRescan | lambda/purchaseOrderStatusChange/index.mjs:80-83 | on a table holding only feed numbers there is nothing to delete |
| PurchaseOrderDiff.QuietOnRescan | lambda/purchaseOrderStatusChange/index.mjs:118-124 | an order whose key already holds its outcome needs no call |
| PurchaseOrderDiff.RerunIsNoop | lambda/purchaseOrderStatusChange/index.mjs:47-67 | running again with the same feed on the resulting table plans no call and returns `null` |
| PurchaseOrderDiff.LinesCount | lambda/purchaseOrderStatusChange/index.mjs:259-269 | the message body has exactly one line break per entry when the fields have none |
| PurchaseOrderDiff.LineTextIsOneLine | lambda/purchaseOrderStatusChange/index.mjs:262-268 | each entry's line is a single line, whichever of the three forms applies |
| PurchaseOrderDiff.MessageLineCount | lambda/purchaseOrderStatusChange/index.mjs:252-271 | no entries gives the fixed no-update text; otherwise the header, then one line per entry, ending with a line break |
| PurchaseOrderStore.OrderStore.constructor | lambda/purchaseOrderStatusChange/index.mjs:8-9 | a table with the given items and request budget |
| PurchaseOrderStore.OrderStore.Put | lambda/purchaseOrderStatusChange/index.mjs:148-152 | a put request stores the item under its number when the service answers, and changes nothing when it throws |
| PurchaseOrderStore.OrderStore.Delete | lambda/purchaseOrderStatusChange/index.mjs:126-129 | a delete request removes the key when the service answers, and changes nothing when it throws |
| PurchaseOrderStore.OrderStore.Scan | lambda/purchaseOrderStatusChange/index.mjs:70-78 | a scan returns every stored record once and changes nothing |
| PurchaseOrderStore.ScanRows | lambda/purchaseOrderStatusChange/index.mjs:76-77 | the scan's rows list every stored record exactly once |
| PurchaseOrderStore.DeleteOrders | lambda/purchaseOrderStatusChange/index.mjs:86-102 | the deletion loop applies the absence deletions in order and pushes a `Deleted` entry with the stored fields after each; it succeeds exactly when the budget covers all of them, and otherwise stops at the first failing request |
| PurchaseOrderStore.ProcessIncomingOrder | lambda/purchaseOrderStatusChange/index.mjs:106-113 | one order of the incoming loop makes its planned call, if any, and pushes its entry only when the call went through |
| PurchaseOrderStore.ProcessIncomingOrders | lambda/purchaseOrderStatusChange/index.mjs:105-115 | the incoming loop applies a prefix of its planned calls, the whole plan exactly when the budget covers it, with the entries of that prefix |
| PurchaseOrderStore.RunCalls | lambda/purchaseOrderStatusChange/index.mjs:55-60 | deletions, then incoming calls: the table is the old table with a prefix of that plan applied, complete exactly when the budget allows |
| PurchaseOrderStore.ProcessPurchaseOrders | lambda/purchaseOrderStatusChange/index.mjs:47-67 | scans the table, then runs the plan; returns the entries or `null` when there are none, and `null` as soon as any request throws |
| PurchaseOrderStore.CreateMessage | lambda/purchaseOrderStatusChange/index.mjs:252-271 | the `forEach` accumulation builds exactly the message that `MessageLineCount` describes |
| PurchaseOrderStore.Handler | lambda/purchaseOrderStatusChange/index.mjs:13-43 | an empty feed answers `No purchase orders to process.` and leaves the table untouched; a run returning `null` answers `No updates to process.`; otherwise the message of the changes is handed to SNS and the answer is always `Purchase orders processed and message sent successfully.`; a page body without `Items` answers 500 `Failed to process purchase orders.` with the table untouched; a run with enough budget leaves the table converged |
| UnleashedToInfraspeak.FindAcrossHit | lambda/UnleashedToInfraspeak/index.mjs:157-162 | the page scan stops at the first matching element of a page |
| UnleashedToInfraspeak.FindAcrossMiss | lambda/UnleashedToInfraspeak/index.mjs:164-167 | a page without a match moves to the next page only when it has a `next` link |
| UnleashedToInfraspeak.FindAcrossIsFirstMatch | lambda/UnleashedToInfraspeak/index.mjs:148-170 | a successful scan returns the first match among the elements of the pages it read |
| UnleashedToInfraspeak.FindOnPage | lambda/UnleashedToInfraspeak/index.mjs:157-163 | the loop over one page finds nothing exactly when no material matches, and otherwise the first match |
| UnleashedToInfraspeak.GetMaterialIdFromInfraspeak | lambda/UnleashedToInfraspeak/index.mjs:148-170 | the id of the first material, in page order, whose trimmed upper-cased code is the product code and whose `parent_id` is not `null`; `undefined` when none; a non-array page reads as empty |
| UnleashedToInfraspeak.StockQuantity | lambda/UnleashedToInfraspeak/index.mjs:133 | `parseInt(stock_quantity) \|\| 0`: a non-zero result is the parsed value, zero means zero or unparseable |
| UnleashedToInfraspeak.GetMaterialQuantitiesFromInfraspeak | lambda/UnleashedToInfraspeak/index.mjs:123-144 | the quantity of the first row, in page order, matching both material and warehouse id, 0 when none; a non-array page throws |
| UnleashedToInfraspeak.MovementFor | lambda/UnleashedToInfraspeak/index.mjs:99-108 | no movement exactly when the quantities agree; otherwise one positive movement, `ADD` exactly when Unleashed has more and `ABATE` exactly when it has less, that brings Infraspeak's quantity to Unleashed's |
| UnleashedToInfraspeak.PostOne | lambda/UnleashedToInfraspeak/index.mjs:86-117 | a row yields at most one movement, positive, in the row's parsed warehouse, and only one the platform accepted |
| UnleashedToInfraspeak.AgreeingRowPostsNothing | lambda/UnleashedToInfraspeak/index.mjs:105-107 | a row whose quantities agree posts nothing |
| UnleashedToInfraspeak.PostOneNullPaths | lambda/UnleashedToInfraspeak/index.mjs:86-117 | a row yields `null` when the material lookup throws, when the material id is falsy, when the quantity lookup throws, and when the platform refuses the POST |
| UnleashedToInfraspeak.PostOneIsDecision | lambda/UnleashedToInfraspeak/index.mjs:93-108 | when the material is found with a truthy id and its quantity read, the row's result is exactly the quantity decision |
| UnleashedToInfraspeak.PostStockToInfraspeak | lambda/UnleashedToInfraspeak/index.mjs:85-119 | at most one result per row, each a positive accepted movement |
| UnleashedToInfraspeak.PostStockConcat | lambda/UnleashedToInfraspeak/index.mjs:118 | rows are independent: results for concatenated row lists are concatenated, in input order |
| UnleashedToInfraspeak.PostStockSingle | lambda/UnleashedToInfraspeak/index.mjs:118 | a row contributes its movement, or nothing when its result is `null` |
| UnleashedToInfraspeak.LastWarehouseCode | lambda/UnleashedToInfraspeak/index.mjs:276-280 | the code of the last warehouse whose Guid matches, none exactly when none matches |
| UnleashedToInfraspeak.FetchWarehouseCodes | lambda/UnleashedToInfraspeak/index.mjs:271-282 | the loop without a break returns the last matching warehouse's code |
| UnleashedToInfraspeak.ProductRows | lambda/UnleashedToInfraspeak/index.mjs:245-256 | one row per warehouse entry of the product |
| UnleashedToInfraspeak.ProcessStockOnHand | lambda/UnleashedToInfraspeak/index.mjs:232-259 | the nested loops compute the flattened rows, or fail as a missing `Items` list makes them throw |
| UnleashedToInfraspeak.StockRowsFailurePersists | lambda/UnleashedToInfraspeak/index.mjs:241-257 | a product whose warehouses cannot be listed aborts the whole flattening |
| UnleashedToInfraspeak.StockRowsSucceeds | lambda/UnleashedToInfraspeak/index.mjs:232-259 | the flattening succeeds exactly when every product's warehouses were fetched and the warehouse list was fetched wherever needed |
| UnleashedToInfraspeak.ProductRowsAt | lambda/UnleashedToInfraspeak/index.mjs:245-256 | one product's rows succeed exactly when its entries are listed, and carry the product's code and cost with each entry's quantity and warehouse code |
| UnleashedToInfraspeak.RowCountPrefix | lambda/UnleashedToInfraspeak/index.mjs:241-257 | the rows of earlier products plus one product's rows fit in the total |
| UnleashedToInfraspeak.StockRowsLayout | lambda/UnleashedToInfraspeak/index.mjs:241-257 | the rows are in nested-loop order: the j-th entry of the i-th product sits after all earlier products' rows |
| CatalogSync.FindByUpperCode | lambda/UnleashedProductsPoll/index.mjs:174-189 | the details of a product whose upper-cased code equals the code, none exactly when no product has it |
| CatalogSync.FindByUpperCodeIsFirst | lambda/UnleashedProductsPoll/index.mjs:174 | `find` returns the first such product, mapped to the six detail fields |
| CatalogSync.UpperHasNoLowerCase | lambda/UnleashedProductsPoll/index.mjs:174 | an upper-cased code has no lower-case letter |
| CatalogSync.LowerCaseCodeNeverFound | lambda/UnleashedProductsPoll/index.mjs:174 | a looked-up code with a lower-case letter never matches an upper-cased product code |
| CatalogSync.WarehouseCodes | lambda/UnleashedProductsPoll/index.mjs:16-18 | no details or a non-array inventory list gives exactly the fallback warehouse |
| CatalogSync.WarehouseCodesMembers | lambda/UnleashedProductsPoll/index.mjs:17 | otherwise the codes are exactly the non-zero codes some inventory entry parses to |
| CatalogSync.UniqueWarehouseCodes | lambda/UnleashedProductsPoll/index.mjs:20 | dedup keeps each code once and loses none |
| CatalogSync.CheckWarehouseExists | lambda/UnleashedProductsPoll/index.mjs:211-220 | the platform's warehouse ids that were requested, in platform-list order, each occurrence kept as often as the platform lists it |
| CatalogSync.CheckWarehouseIgnoresRepeats | lambda/UnleashedProductsPoll/index.mjs:20-22 | dedup before the check does not change its answer |
| CatalogSync.TargetWarehouses | lambda/UnleashedProductsPoll/index.mjs:30-48 | the matched warehouses, or the fallback alone when none matched; never empty |
| CatalogSync.WarehousesToUseSound | lambda/UnleashedProductsPoll/index.mjs:16-48 | the handler's warehouses are the fallback, or existing warehouses listed for the product, each once when the platform lists each once |
| CatalogSync.GroupName | lambda/UnleashedProductsPoll/index.mjs:13 | the product group's non-empty name, else `DEFAULTFOLDER` |
| CatalogSync.FolderEntries | lambda/UnleashedProductsPoll/index.mjs:226-229 | folder codes are non-empty and upper-cased |
| CatalogSync.CheckFolderExists | lambda/UnleashedProductsPoll/index.mjs:198-208 | no folder with exactly that code gives `null` |
| CatalogSync.CheckFolderExistsIsFirst | lambda/UnleashedProductsPoll/index.mjs:201-205 | otherwise the `material_id` of the first such folder |
| CatalogSync.LowerCaseGroupNeverFound | lambda/UnleashedProductsPoll/index.mjs:202 | a group name with a lower-case letter never matches an upper-cased folder code |
| CatalogSync.WarehouseEntries | lambda/UnleashedProductsPoll/index.mjs:268-273 | one `material_warehouse` entry per warehouse id, with `min_stock` 1 and `mean_price` 0 |
| CatalogSync.WarehouseEntriesRoundTrip | lambda/UnleashedProductsPoll/index.mjs:268-273 | the entries carry the warehouse ids in order |
| CatalogSync.FolderPayload | lambda/UnleashedProductsPoll/index.mjs:261-276 | a `FOLDER` with the folder code, no parent and one entry per warehouse |
| CatalogSync.MaterialPayloadFor | lambda/UnleashedProductsPoll/index.mjs:278-294 | a `MATERIAL` in units `un` copying name, code and mean price from the details, with `parent_id` the folder id and one entry per warehouse |
| CatalogSync.CreateMaterialPayload | lambda/UnleashedProductsPoll/index.mjs:278-294 | building the payload throws exactly when the details are `null` |
| CatalogSync.CreateOrGetFolder | lambda/UnleashedProductsPoll/index.mjs:238-246 | posts a new folder exactly when the lookup is falsy, and uses the posted folder's id then, the found one otherwise |
| CatalogSync.LowerCaseGroupAlwaysPosted | lambda/UnleashedProductsPoll/index.mjs:238-246 | a group name with a lower-case letter makes every run post the folder again |
| CatalogSync.CreateStockMovementPayload | lambda/match-products/index.mjs:297-308 | always `ADD`, with one stock entry of the given material and quantity |
| UnleashedProductsPoll.NormalizeIdempotent | lambda/UnleashedProductsPoll/index.mjs:158 | `normalizeCode` is idempotent |
| UnleashedProductsPoll.MatchProductsBetweenPlatforms | lambda/UnleashedProductsPoll/index.mjs:157-165 | the unmatched codes are a subsequence of the Unleashed codes in their own spelling, and every occurrence of a code is kept exactly when its normal form is no Infraspeak code's, so repeats survive |
| UnleashedProductsPoll.MatchAgainstItself | lambda/UnleashedProductsPoll/index.mjs:159-162 | matching a list against itself leaves nothing |
| UnleashedProductsPoll.MatchIgnoresInfraspeakSpelling | lambda/UnleashedProductsPoll/index.mjs:159 | normalising the Infraspeak codes beforehand changes nothing |
| UnleashedProductsPoll.GetProductDetails | lambda/UnleashedProductsPoll/index.mjs:169-190 | throws exactly on an empty list; a found product's upper-cased code equals the first unmatched code as it is |
| UnleashedProductsPoll.LowerCaseDetailsNeverFound | lambda/UnleashedProductsPoll/index.mjs:173-174 | a first unmatched code with a lower-case letter finds nothing |
| UnleashedProductsPoll.LowerCaseProductLost | lambda/UnleashedProductsPoll/index.mjs:173-174 | the feed product `abc` against an empty Infraspeak is unmatched, yet its details are not found |
| UnleashedProductsPoll.GetProductDetailsFixed | lambda/UnleashedProductsPoll/index.mjs:169-190 | with both sides upper-cased, a found product's code equals the first unmatched code up to letter case |
| UnleashedProductsPoll.FirstUnmatchedIsFound | lambda/UnleashedProductsPoll/index.mjs:11-12 | with the corrected lookup, whenever a product is unmatched its details are found |
| MatchProducts.InfraspeakCodes | lambda/match-products/index.mjs:116 | the Infraspeak codes are exactly the non-empty trimmed upper-cased `full_code`s |
| MatchProducts.InfraspeakCodesNormalised | lambda/match-products/index.mjs:116 | every Infraspeak code is non-empty and already in normal form |
| MatchProducts.UnleashedCodes | lambda/match-products/index.mjs:146 | the Unleashed codes are the product codes upper-cased, untrimmed, one per product |
| MatchProducts.MatchProductsBetweenPlatforms | lambda/match-products/index.mjs:161-165 | the unmatched codes are a subsequence of the Unleashed codes, every occurrence kept exactly when not an Infraspeak code as it is, so repeats survive |
| MatchProducts.MatchAgainstItself | lambda/match-products/index.mjs:162-163 | matching a list against itself leaves nothing |
| MatchProducts.InfraspeakCodesMembers | lambda/match-products/index.mjs:116 | a non-empty code is an Infraspeak code exactly when it is some raw code's normal form |
| MatchProducts.SameVerdict | lambda/match-products/index.mjs:161-165 | given the same Infraspeak code list, both jobs' matchers agree on a trimmed non-empty code |
| MatchProducts.AgreesWithPoll | lambda/match-products/index.mjs:113-165 | given the same Infraspeak code list and trimmed non-empty product codes, the two matchers report the same unmatched products, in the same order, upper-cased here |
| MatchProducts.PollMatchesLeadingSpace | lambda/UnleashedProductsPoll/index.mjs:158-162 | UnleashedProductsPoll matches ` X` with `X` |
| MatchProducts.LeadingSpaceUnmatched | lambda/match-products/index.mjs:146 | match-products leaves ` X` unmatched against `X`, because it does not trim the Unleashed side |
| MatchProducts.GetProductDetails | lambda/match-products/index.mjs:169-191 | throws exactly on an empty list; otherwise finds a product exactly when one's upper-cased code is `15.HBF-08-08` |
| MatchProducts.DetailsIgnoreUnmatchedCodes | lambda/match-products/index.mjs:173-175 | any two non-empty unmatched lists give the same details |
| InfraspeakToUnleashedStockLevels.GetMaterialData | lambda/InfraspeakToUnleashedStockLevels/index.mjs:161-178 | a refused failure fetch fails with its error and a body without `included` fails as `for...of` throws; otherwise the loop computes the material records, failing as the first failing code lookup throws |
| InfraspeakToUnleashedStockLevels.MaterialDataFailurePersists | lambda/InfraspeakToUnleashedStockLevels/index.mjs:166-176 | a failing code lookup for a kept entry aborts the whole list with its error |
| InfraspeakToUnleashedStockLevels.MaterialDataSucceeds | lambda/InfraspeakToUnleashedStockLevels/index.mjs:166-176 | the list is built exactly when every entry with a truthy quantity has its code looked up |
| InfraspeakToUnleashedStockLevels.MaterialDataIsKeptEntries | lambda/InfraspeakToUnleashedStockLevels/index.mjs:166-176 | the records are the entries with a truthy quantity, in order, each carrying its warehouse, quantity and looked-up code |
| InfraspeakToUnleashedStockLevels.SalesOrderLines | lambda/InfraspeakToUnleashedStockLevels/index.mjs:86-96 | one line per item, in order, numbered `index + 1`, with the item's quantity, the literal product code and zero discount, tax, totals and price |
| InfraspeakToUnleashedStockLevels.CreateSalesOrderPayload | lambda/InfraspeakToUnleashedStockLevels/index.mjs:79-107 | the guid and warehouse given, status `Completed`, customer `Bank West`, zero totals, the lines of the items |
| InfraspeakToUnleashedStockLevels.SameQuantities | lambda/InfraspeakToUnleashedStockLevels/index.mjs:91 | lines carrying the items' quantities order in total the quantity the items moved |
| InfraspeakToUnleashedStockLevels.SalesOrderMatchesMovements | lambda/InfraspeakToUnleashedStockLevels/index.mjs:86-96 | line numbers run strictly upward from 1 to the item count, and the order's total quantity is the total moved |
| InfraspeakToUnleashedStockLevels.Handler | lambda/InfraspeakToUnleashedStockLevels/index.mjs:6-58 | a refused failure fetch or a body without `included` answers 500 and posts nothing; answers 200 and posts exactly when the records exist, are not empty and the first has a warehouse; the post goes to `SalesOrders/<guid>` with the order built under that guid in the first record's warehouse |
| InfraspeakToUnleashedStockLevels.PostedOrderConsistent | lambda/InfraspeakToUnleashedStockLevels/index.mjs:36-39 | the path's guid is the payload's guid, and the payload's warehouse code reads back as the first record's warehouse |
| JsText.TrimIdempotent | lambda/UnleashedProductsPoll/index.mjs:158 | trimming twice is trimming once |
| JsText.TrimCommutesWithUpper | lambda/UnleashedToInfraspeak/index.mjs:87 | `toUpperCase().trim()` equals `trim().toUpperCase()` |
| JsText.UpperIdempotent | lambda/UnleashedProductsPoll/index.mjs:158 | upper-casing twice is upper-casing once |
| JsText.ParseIntOfDecimalString | lambda/InfraspeakToUnleashedStockLevels/index.mjs:36 | `parseInt` reads back an integer's `toString` |

## Left out

- HTTP wrappers, HMAC signing, Secrets Manager, SNS and DynamoDB clients, and
  console logging are left out: network and foreign calls. Their answers are inputs.
  `sendSNSMessage` catches its own errors, so the handler's answer does not
  depend on the publish; the model returns the message handed to it. A refused POST is the `accepts`
  predicate. A created folder's id is the `createdId` parameter. A DynamoDB
  failure is the table's request budget.
- The pagination drivers (`getPurchaseOrders`, `fetchStockOnHandFromUnleashed`,
  `fetchProductsInfraspeak`, `fetchProductsUnleashed`, `fetchFoldersInfraspeak`)
  are left out as control flow. Their results are inputs: the list of fetched
  pages, or one page. The `const pageNumber` that `getPurchaseOrders` increments
  is not modelled. Nor is `fetchFoldersInfraspeak` recursing into the product
  fetch, or the product fetch answering `[]` on error.
- `formatDateTime` is left out: it is locale- and time-zone dependent, so
  `lastModifiedOn` is an opaque string.
- `Promise.all` concurrency is modelled as a sequential map. The rows of
  `postStockToInfraspeak` are independent, so order does not change the result.
- The UnleashedToInfraspeak `handler` is not modelled beyond its three steps,
  which are each modelled.
- `fetchWarehouseCodes` fetches the warehouse list once per row. The model gives
  every call the same list.
- `generateGuid` (`crypto.randomUUID`) becomes the `newGuid` parameter. The
  handler constants are parameters: the failure id 686272, the default
  warehouse 18, and match-products' stock quantity 1 in warehouse 16.
- match-products' handler calls that post a stock movement from the material
  response are left out. `CreateStockMovementPayload` models the payload they build.
- Text handling is ASCII. `toUpperCase` maps only `a`-`z`, and `trim` drops
  the code points ECMAScript lists as white space and line terminators. Quantities are
  integers: fractional quantities, `NaN` arithmetic and numbers beyond 2^53 are
  not modelled.
- InfraspeakToUnleashedStockLevels.GetMaterialData: the looked-up material
  code is carried in each record but never reaches the sales order, as in the source.
- CatalogSync.CheckFolderExists: a missing `material_id` (`undefined`) and
  `null` are both `None`. `createOrGetFolder` treats them alike.
- UnleashedToInfraspeak.PostStockToInfraspeak: the results are the posted
  movement bodies, not the platform's response JSON. The handler only logs
  those responses (lambda/UnleashedToInfraspeak/index.mjs:11), and the response
  body of a foreign call is not modelled.
- MatchProducts.AgreesWithPoll: both matchers are given one Infraspeak code
  list. UnleashedProductsPoll reads each material's `attributes.code`
  (lambda/UnleashedProductsPoll/index.mjs:107), and match-products reads
  `attributes.full_code` (lambda/match-products/index.mjs:116). The jobs'
  lists therefore agree only when every material's two codes normalise to
  the same text. The model does not relate the two attributes.
- UnleashedToInfraspeak.ProcessStockOnHand: a product whose `ProductCode` is
  missing is not modelled; codes are strings.

## Findings

| source | as written | input that shows it | evidently intended | confidence | as-written member | corrected member |
|---|---|---|---|---|---|---|
| lambda/UnleashedProductsPoll/index.mjs:173-174 | `getProductDetails` compares each product's upper-cased `ProductCode` with the first unmatched code as it is, which the matcher returns in its original spelling | Unleashed lists one product `abc`, Infraspeak lists none: `abc` is unmatched but no details are found, so no material is created | upper-case both sides, so the first unmatched product is always found | not executed | UnleashedProductsPoll.LowerCaseProductLost | UnleashedProductsPoll.FirstUnmatchedIsFound |
