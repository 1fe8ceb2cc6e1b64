# Storefront and back office: a Dafny model

This project models the logic of a React storefront with an admin back office.

- **The admin data store** (`useAdminStore`) holds the product list, the order list and a loading flag. It persists local products and orders in the browser's `localStorage` on a best-effort basis.
- **The derived views** on the pages filter, sort and paginate those lists. They also count orders by status and bucket the last seven days of sales.
- **The small rules on the storefront pages** cover the cart badge, the admin flag, the search guard, related products, the quantity picker, the order-summary arithmetic, the checkout field patterns and the submit action.

The code is modelled in the form it has:

- The store is a class, `AdminStore.Store`. Its methods reassign `products`, `orders` and a `storage` map, and each method states its whole new state.
- The pure views are functions with lemmas about them.
- The page handlers that update component state are small classes: `AdminProductsView`, `AdminOrdersView`, `HeaderView`, `QuantityPicker` and `CheckoutPageState`.
- The chart bucketing and "Add to Cart" are methods with loops.

Money is an exact `real`. Timestamps are `int` milliseconds, and a calendar day is `ms / 86400000`. `localeCompare` is lexicographic comparison of code points (`Text.StrCmp`), and the model proves it a total order. `Array.prototype.sort` is a stable insertion sort (`Sorting.Sort`) that uses only the sign of the comparator.

Inputs from outside the program are parameters:

- The remote catalog is `api`: `Some(list)` when the fetch succeeds, `None` when it fails.
- `Date.now()` is `now`.
- `Math.random()` is a function `rng` from draw number to a value in `[0, 1)`.
- A `setItem` that throws is the flag `storageRefuses`.
- A form field's `Number(...)` or `parseInt(...)` result is an `Option`, with `None` standing for `NaN`.

## Behaviour worth knowing

- After `fetchProducts` the merged list is the remote catalog followed by the local products. An add puts the new record at the front of the in-memory list.
- Ids are never de-duplicated. `local-${Date.now()}` makes two adds in the same millisecond collide (`AdminStore.LocalProductIdInjective`).
- A remote product can be deleted from the in-memory list like any other.
- The paginated views do not clamp the page number. Page 99 of 23 items is empty (`Paging.PageItemsNonEmptyIff`), and only the Prev/Next buttons keep the page in range.
- A stored `[]` under `admin_orders` is truthy, so it is loaded and never reseeded.
- Seeding happens only once when the batch could be saved. If `setItem` refuses, every call seeds a new batch.

## Model

| member | source | states |
|---|---|---|
| AdminStore.LoadAfterSave | src/store/adminStore.js:9-22 | a value saved under a key is the value loaded back from it |
| AdminStore.RefusedSaveKeepsStorage | src/store/adminStore.js:18-22 | a write the browser refuses is dropped silently and changes nothing |
| AdminStore.SaveLeavesOtherKeys | src/store/adminStore.js:18-22 | saving under one key leaves what every other key loads |
| AdminStore.LoadFallback | src/store/adminStore.js:9-16 | an absent key, an empty text or an undecodable text loads the fallback |
| AdminStore.LocalProductIdInjective | src/store/adminStore.js:52 | two local ids are equal exactly when the clock readings are equal |
| AdminStore.NewLocalProduct | src/store/adminStore.js:51-58 | the new record has the id `local-<now>`, the payload's title, the numeric price or 0, the category or `uncategorized`, the description or "", the image or the image URL or "", and no rating |
| AdminStore.MergeMatching | src/store/adminStore.js:80-82 | every entry with the id takes the patch, keeping its id and rating; every other entry is unchanged |
| AdminStore.FindIndex | src/store/adminStore.js:71 | the first index holding the id, or none when no entry has it |
| AdminStore.WithoutId | src/store/adminStore.js:88-89 | the list never grows, and shrinks exactly when some entry had the id |
| AdminStore.WithoutIdIsFilter | src/store/adminStore.js:88 | removing the id is exactly the filter `p.id !== id` over the list |
| AdminStore.WithoutIdKeeps | src/store/adminStore.js:88 | every copy of each entry without the id remains, in order, and no entry with it |
| AdminStore.WithStatus | src/store/adminStore.js:148 | only the status of orders with the id changes, to any value |
| AdminStore.WithStatusIdempotent | src/store/adminStore.js:146-152 | mapping the status a second time gives the list the first map gave |
| AdminStore.RandInRange | src/store/adminStore.js:114 | `rand(min, max)` with a reading in [0, 1) lies in [min, max] |
| AdminStore.OrderIdInjective | src/store/adminStore.js:130 | `ord-<now>-<i>` ids of one batch are equal exactly when the indexes are |
| AdminStore.SeedPool | src/store/adminStore.js:106 | the seeder picks from the loaded products when there are any, else from the remote catalog; a failed or empty fetch gives nothing to pick from |
| AdminStore.SeedOrders | src/store/adminStore.js:107-138 | exactly 8 orders; order i has id `ord-<now>-i`, 1 to 4 items copied from pool products with quantity 1 to 3, total = sum rounded to cents, one of the three statuses, one of the sample customers, a date 0 to 14 whole days back, and an address `NNN Market St, Cityville` with NNN from 100 to 999 |
| AdminStore.SeededIdsDistinct | src/store/adminStore.js:117-130 | the orders of a seeded batch have pairwise different ids |
| AdminStore.Store.constructor | src/store/adminStore.js:24-27 | the store starts with no products, no orders and not loading |
| AdminStore.Store.FetchProducts | src/store/adminStore.js:30-47 | on success, products = remote list followed by the stored local list; on failure, the local list alone; loading is false afterwards; orders and storage unchanged |
| AdminStore.Store.AddProduct | src/store/adminStore.js:50-66 | the returned record is prepended to the in-memory list and to the persisted local list (when the write succeeds); nothing else changes |
| AdminStore.Store.UpdateProduct | src/store/adminStore.js:68-83 | the persisted list is rewritten only when it holds the id, with only its first match merged; every in-memory match is merged |
| AdminStore.Store.DeleteProduct | src/store/adminStore.js:85-95 | every in-memory entry with the id is removed; the local list is re-saved exactly when it held the id (it got shorter), otherwise storage is untouched |
| AdminStore.Store.FetchOrders | src/store/adminStore.js:98-144 | stored orders are loaded as they are; with none stored and a pool, 8 seeded orders are set and saved once; a failed fetch or an empty pool changes nothing; after a load or a saved seed, storage holds exactly the in-memory orders |
| AdminStore.Store.UpdateOrderStatus | src/store/adminStore.js:146-152 | only the status of matching orders changes; the persisted list equals the in-memory list afterwards |
| AdminStore.FetchOrdersTwice | src/store/adminStore.js:98-144 | with working storage, the first fetch loads the stored orders, or seeds 8 from the pool, or changes nothing without a pool; a second fetch ends with exactly the first fetch's orders, which storage then holds |
| AdminStore.StatusChangeSurvivesReload | src/store/adminStore.js:146-152 | after a status change, reloading from storage gives back exactly the status-mapped orders |
| Text.ToLower | src/pages/Products.jsx:56-57 | same length, no upper-case letter left, other characters unchanged |
| Text.ToLowerIdempotent | src/pages/Products.jsx:56-57 | lower-casing twice is lower-casing once |
| Text.Includes | src/pages/Products.jsx:56-57 | true exactly when the query occurs as a contiguous substring |
| Text.IncludesEmpty | src/pages/Products.jsx:54 | the empty query occurs in every string |
| Text.TrimEmptyIff | src/components/layout/Header.jsx:35 | a string trims to "" exactly when it is all white space |
| Text.StrCmpAntisymmetric | src/pages/admin/AdminProducts.jsx:34 | swapping the operands negates the comparison |
| Text.StrCmpZeroIff | src/pages/admin/AdminProducts.jsx:34 | the comparison is 0 exactly for equal strings |
| Text.StrCmpTransitive | src/pages/admin/AdminProducts.jsx:34 | "at most" under the comparison is transitive |
| Text.NatToStringInjective | src/store/adminStore.js:52 | different numbers render as different decimal strings |
| Sorting.Sort | src/pages/admin/AdminProducts.jsx:32 | the sorted copy is a permutation of the input |
| Sorting.SortSorted | src/pages/admin/AdminProducts.jsx:32-43 | with a consistent comparator, no element precedes one the comparator puts strictly before it |
| Sorting.SortStable | src/pages/admin/AdminProducts.jsx:32-43 | elements the comparator ties keep their relative order |
| Sorting.SortAllTied | src/pages/admin/AdminProducts.jsx:42 | a comparator that returns 0 everywhere leaves the order unchanged |
| Lists.Filter | src/pages/admin/AdminOrders.jsx:34 | a subsequence of the input holding every copy of each element that passes the predicate and no copy of one that fails |
| Lists.FilterDropsIff | src/store/adminStore.js:88-89 | a filter shortens the list exactly when some element fails the predicate |
| Paging.Flip | src/pages/admin/AdminProducts.jsx:132 | `asc` becomes `desc` and anything else becomes `asc` |
| Paging.FlipTwice | src/pages/admin/AdminProducts.jsx:130-137 | two clicks on the current column restore its direction |
| Paging.TotalPages | src/pages/admin/AdminProducts.jsx:53 | the fewest pages of 10 that hold n items; 0 exactly for no items |
| Paging.PageItemsBound | src/pages/admin/AdminProducts.jsx:47-51 | any page, whatever its number, holds at most 10 items |
| Paging.PageItemsWindow | src/pages/admin/AdminProducts.jsx:47-51 | page p holds the items from (p-1)*10 up to p*10, cut off at the end |
| Paging.PageItemsNonEmptyIff | src/pages/admin/AdminProducts.jsx:47-53 | a page is non-empty exactly when its number is at most totalPages; past the end it is empty, not clamped |
| Paging.PagesCoverList | src/pages/admin/AdminProducts.jsx:47-53 | item k appears on page k/10 + 1 at position k mod 10 |
| Paging.PrevPage | src/pages/admin/AdminProducts.jsx:247 | `max(1, page - 1)` |
| Paging.NextPage | src/pages/admin/AdminProducts.jsx:249 | `min(totalPages, page + 1)` |
| Paging.PrevNextStayInRange | src/pages/admin/AdminProducts.jsx:247-249 | a page in [1, totalPages] stays in range after Prev or Next |
| Catalog.RateOf | src/pages/Products.jsx:82 | a missing rating counts as 0 |
| Catalog.CoercePrice | src/store/adminStore.js:54 | a number stays as it is and NaN becomes 0 |
| Catalog.DayOfShift | src/pages/admin/AdminDashboard.jsx:116-119 | stepping a timestamp back by whole days steps its day back by as many |
| Catalog.Round2Close | src/store/adminStore.js:133 | rounding to cents moves an amount by at most half a cent |
| Catalog.Round2Exact | src/store/adminStore.js:133 | an amount already in whole cents is left as it is |
| Catalog.ItemsTotalAppend | src/store/adminStore.js:124 | the item total adds up over a split of the items |
| ProductsPage.ActiveCategory | src/pages/Products.jsx:62-63 | the selected category when non-empty, else the URL parameter, else "" |
| ProductsPage.SearchStep | src/pages/Products.jsx:53-59 | with a non-empty query, keeps every copy of each product whose lower-cased title or description contains the lower-cased query and no other, in order; otherwise keeps all |
| ProductsPage.CategoryStep | src/pages/Products.jsx:62-66 | with a non-empty category, keeps every copy of each product of that category and no other, in order; otherwise keeps all |
| ProductsPage.PriceStep | src/pages/Products.jsx:69-71 | keeps every copy of each product with min <= price <= max and no other, in order |
| ProductsPage.FilteredIsSubsequence | src/pages/Products.jsx:50-71 | the filters only remove products and never reorder them |
| ProductsPage.FilteredMembers | src/pages/Products.jsx:50-71 | a product is in the filtered list exactly when it was fetched and passes search, category and price |
| ProductsPage.DefaultRangeBounds | src/pages/Products.jsx:15 | the default range keeps prices from 0 to 1000 inclusive |
| ProductsPage.PriceLowConsistent | src/pages/Products.jsx:76 | the low-to-high comparator is one the sort can use |
| ProductsPage.PriceHighConsistent | src/pages/Products.jsx:79 | the high-to-low comparator is one the sort can use |
| ProductsPage.RatingConsistent | src/pages/Products.jsx:82 | the rating comparator is one the sort can use |
| ProductsPage.SortByKey | src/pages/Products.jsx:73-88 | a permutation of the filtered list; prices non-decreasing for `priceLow`, non-increasing for `priceHigh`, ratings non-increasing for `rating`; unchanged for any other key |
| ProductsPage.FilterAndSortProducts | src/pages/Products.jsx:49-90 | the shown list is a permutation of the filtered subsequence; it holds exactly the kept products; prices non-decreasing for `priceLow` and non-increasing for `priceHigh`; ratings non-increasing for `rating`; the filtered order for any other key |
| AdminProductsPage.ProductComparatorConsistent | src/pages/admin/AdminProducts.jsx:32-43 | every column and direction gives a consistent comparator |
| AdminProductsPage.SortedProducts | src/pages/admin/AdminProducts.jsx:31-45 | a permutation of the store's list |
| AdminProductsPage.SortedProductsOrder | src/pages/admin/AdminProducts.jsx:33-41 | title and category ascend under the string order for `asc` and descend otherwise; price ascends or descends numerically |
| AdminProductsPage.SortedProductsUnknownColumn | src/pages/admin/AdminProducts.jsx:42 | an unknown column keeps the store's order |
| AdminProductsPage.AddPayload | src/pages/admin/AdminProducts.jsx:58 | the add payload carries the coerced price and no image URL |
| AdminProductsPage.EditPatch | src/pages/admin/AdminProducts.jsx:76 | the edit patch carries the coerced price and the form's other fields |
| AdminProductsPage.AddedPriceIsCoerced | src/pages/admin/AdminProducts.jsx:58 | the stored price is the form's number, or 0 when it is not a number |
| AdminProductsPage.AdminProductsView.constructor | src/pages/admin/AdminProducts.jsx:16-23 | starts sorted by title ascending on page 1, with empty forms and nothing being edited |
| AdminProductsPage.AdminProductsView.Shown | src/pages/admin/AdminProducts.jsx:47-51 | the page shown holds at most 10 products |
| AdminProductsPage.AdminProductsView.ClickHeader | src/pages/admin/AdminProducts.jsx:130-153 | the current column flips its direction; another column becomes current with `asc`; the column and direction stay among the allowed values |
| AdminProductsPage.AdminProductsView.ClickPrev | src/pages/admin/AdminProducts.jsx:247 | page becomes `max(1, page - 1)` and stays in range |
| AdminProductsPage.AdminProductsView.ClickNext | src/pages/admin/AdminProducts.jsx:249 | page becomes `min(totalPages, page + 1)` and stays in range |
| AdminProductsPage.AdminProductsView.HandleAdd | src/pages/admin/AdminProducts.jsx:55-61 | without a title nothing changes; otherwise the coerced record is prepended to the store's list and to the saved local list (storage untouched when the write is refused), orders, loading and the refusal flag stay, and the form is cleared |
| AdminProductsPage.AdminProductsView.StartEdit | src/pages/admin/AdminProducts.jsx:70-73 | the row's id and fields go into the edit state |
| AdminProductsPage.AdminProductsView.SaveEdit | src/pages/admin/AdminProducts.jsx:75-79 | the coerced patch is merged into every matching product; the saved local list is rewritten with its first match merged when it holds the id, else storage is untouched; editing ends |
| AdminProductsPage.AdminProductsView.ClickDelete | src/pages/admin/AdminProducts.jsx:230 | nothing changes without confirmation; once confirmed, entries with the id leave the store's list and the saved local list is re-saved exactly when it held the id |
| AdminOrdersPage.OfStatus | src/pages/admin/AdminOrders.jsx:34 | exactly the orders with that status, in order |
| AdminOrdersPage.OfStatusLength | src/pages/admin/AdminOrders.jsx:34 | the status filter lists one row per order of that status |
| AdminOrdersPage.FilteredOrders | src/pages/admin/AdminOrders.jsx:33-35 | `all` gives every order; any other filter gives exactly its status, in order, as many as there are |
| AdminOrdersPage.StatusCounts | src/pages/admin/AdminOrders.jsx:61-66 | the three statuses are always keys, even with no orders |
| AdminOrdersPage.StatusCountsCorrect | src/pages/admin/AdminOrders.jsx:61-66 | keys are the three statuses plus every status that occurs; each value is the number of orders with that status |
| AdminOrdersPage.StatusCountsSum | src/pages/admin/AdminOrders.jsx:61-66 | when all statuses are among the three, the three counts add up to the number of orders |
| AdminOrdersPage.FilterButtonCount | src/pages/admin/AdminOrders.jsx:78-81 | the count on a filter button equals the number of rows that filter lists |
| AdminOrdersPage.OrderComparatorConsistent | src/pages/admin/AdminOrders.jsx:38-49 | every column and direction gives a consistent comparator |
| AdminOrdersPage.SortedOrders | src/pages/admin/AdminOrders.jsx:37-51 | a permutation of the filtered list |
| AdminOrdersPage.SortedOrdersOrder | src/pages/admin/AdminOrders.jsx:39-47 | customer name by the string order, total numerically and date by time, in the chosen direction |
| AdminOrdersPage.SortedOrdersUnknownColumn | src/pages/admin/AdminOrders.jsx:48 | an unknown column keeps the filtered order |
| AdminOrdersPage.InitialOrder | src/pages/admin/AdminOrders.jsx:90-115 | a newly chosen column starts `asc`, except date, which starts `desc` |
| AdminOrdersPage.AdminOrdersView.constructor | src/pages/admin/AdminOrders.jsx:11-16 | starts on filter `all`, sorted by date `desc`, page 1 |
| AdminOrdersPage.AdminOrdersView.Shown | src/pages/admin/AdminOrders.jsx:53-57 | a page holds at most 10 orders |
| AdminOrdersPage.AdminOrdersView.TotalPagesFor | src/pages/admin/AdminOrders.jsx:59 | ceil(n/10) over the filtered list: all orders, or those of the chosen status |
| AdminOrdersPage.AdminOrdersView.ClickFilter | src/pages/admin/AdminOrders.jsx:77-79 | sets the filter and leaves sorting and page as they are |
| AdminOrdersPage.AdminOrdersView.ClickHeader | src/pages/admin/AdminOrders.jsx:90-115 | the current column flips; a new column starts in its initial direction |
| AdminOrdersPage.AdminOrdersView.ClickPrev | src/pages/admin/AdminOrders.jsx:204 | page becomes `max(1, page - 1)` and stays in range |
| AdminOrdersPage.AdminOrdersView.ClickNext | src/pages/admin/AdminOrders.jsx:206 | page becomes `min(totalPages, page + 1)` and stays in range |
| AdminOrdersPage.AdminOrdersView.SelectStatus | src/pages/admin/AdminOrders.jsx:170-186 | the chosen one of the three statuses goes to the matching orders, so statuses stay among the three; the new list is saved, and storage holds exactly it when the write succeeds |
| AdminDashboard.RevenueAppend | src/pages/admin/AdminDashboard.jsx:105 | revenue adds up over a split of the orders |
| AdminDashboard.RevenueNonNegative | src/pages/admin/AdminDashboard.jsx:105 | with no negative totals, revenue is not negative |
| AdminDashboard.ComputeStats | src/pages/admin/AdminDashboard.jsx:104-112 | order count = number of orders, revenue = sum of totals, status counts start at the three statuses and count each status; the three sum to the order count when all statuses are among them |
| AdminDashboard.WindowSalesIsRangeSales | src/pages/admin/AdminDashboard.jsx:123-127 | the day buckets of consecutive days add up to the sales of orders dated inside the window, and orders outside contribute nothing |
| AdminDashboard.RangeSalesAll | src/pages/admin/AdminDashboard.jsx:123-127 | when every order lies inside the window, the window's sales are the revenue |
| AdminDashboard.WindowDays | src/pages/admin/AdminDashboard.jsx:116-122 | the seven bucket keys are the days from six days ago to today, oldest first |
| AdminDashboard.BucketStep | src/pages/admin/AdminDashboard.jsx:124-127 | adding one order to its day's bucket, when there is one, keeps every bucket equal to its day's sales so far |
| AdminDashboard.FillBuckets | src/pages/admin/AdminDashboard.jsx:123-127 | the buckets are exactly the given days, each holding the total of the orders created that day; orders on other days are skipped |
| AdminDashboard.ChartData | src/pages/admin/AdminDashboard.jsx:114-129 | exactly 7 points, one per day from six days ago to today, oldest first; each point's sales are that day's order totals rounded to cents |
| AdminDashboard.LoadOnMount | src/pages/admin/AdminDashboard.jsx:90-102 | with orders loaded nothing changes; otherwise stored orders are loaded, or 8 seeded orders are set and saved, or nothing changes without a pool |
| HeaderBar.CartItemsCountAppend | src/components/layout/Header.jsx:16 | the badge count adds up over a split of the cart |
| HeaderBar.BadgeIff | src/components/layout/Header.jsx:110 | with no negative quantities, the badge shows exactly when some line has a positive quantity |
| HeaderBar.ParseAdminFlag | src/components/layout/Header.jsx:23-30 | `on`/`1`/`true` enable, `off`/`0`/`false` disable, anything else or nothing keeps |
| HeaderBar.HeaderView.constructor | src/components/layout/Header.jsx:10-11 | admin is enabled exactly when the stored value is `'true'` |
| HeaderBar.HeaderView.ApplyAdminFlag | src/components/layout/Header.jsx:21-31 | enable stores `'true'` and shows the link; disable removes the entry and hides it; keep changes neither; "link shown iff stored `'true'`" is preserved |
| HeaderBar.HeaderView.HandleSearch | src/components/layout/Header.jsx:33-39 | navigates with the query exactly when it is not blank, and then clears it |
| ProductDetailPage.Related | src/pages/ProductDetail.jsx:33 | the first at most 4 same-category products other than the current one, in order |
| ProductDetailPage.HandleAddToCart | src/pages/ProductDetail.jsx:42-46 | `addItem(product)` is called exactly `quantity` times |
| ProductDetailPage.ParsedQuantity | src/pages/ProductDetail.jsx:184 | a parsed value of at least 1 is kept; NaN, 0 and negatives become 1 |
| ProductDetailPage.QuantityPicker.constructor | src/pages/ProductDetail.jsx:15 | quantity starts at 1 |
| ProductDetailPage.QuantityPicker.Decrement | src/pages/ProductDetail.jsx:176 | one less, never below 1 |
| ProductDetailPage.QuantityPicker.Input | src/pages/ProductDetail.jsx:184 | the typed quantity, clamped to at least 1 |
| ProductDetailPage.QuantityPicker.Increment | src/pages/ProductDetail.jsx:188 | exactly one more |
| ProductDetailPage.QuantityPicker.AddToCart | src/pages/ProductDetail.jsx:42-46 | as many `addItem` calls as the picker shows, at least one |
| CartPage.Shipping | src/pages/Cart.jsx:132 | free exactly when the subtotal is over 50, otherwise 10 |
| CartPage.Total | src/pages/Cart.jsx:144 | subtotal plus 8% tax plus shipping |
| CartPage.FreeShippingGap | src/pages/Cart.jsx:159-161 | no hint once shipping is free; otherwise the non-negative amount that brings the subtotal to 50 |
| CartPage.ThresholdStep | src/pages/Cart.jsx:132-144 | up to 50 the total is 1.08 × subtotal + 10, above 50 it is 1.08 × subtotal, so a step over the threshold worth less than the fee lowers the total |
| CartPage.GapIsExact | src/pages/Cart.jsx:159-161 | adding exactly the hinted amount still pays shipping; any amount beyond it ships free |
| CartPage.Render | src/pages/Cart.jsx:9-26 | an empty cart renders only the empty state; otherwise the lines and a summary of the subtotal with its shipping, tax, total and free-shipping hint |
| CartPage.MinusRequest | src/pages/Cart.jsx:77 | requests the line's quantity minus one |
| CartPage.PlusRequest | src/pages/Cart.jsx:84 | requests the line's quantity plus one |
| CheckoutPage.OrderTotals | src/pages/Checkout.jsx:21-24 | shipping 0 exactly over 50, else 10; tax 0.08 × subtotal; total = subtotal + shipping + tax |
| CheckoutPage.SameTotalsAsCart | src/pages/Checkout.jsx:21-24 | checkout's shipping, tax and total equal the cart page's |
| CheckoutPage.CardNumberOfNumber | src/pages/Checkout.jsx:220 | the card pattern accepts a number's digits exactly for 16-digit numbers |
| CheckoutPage.ExpiryMonthRange | src/pages/Checkout.jsx:243 | the expiry pattern accepts exactly MM/YY with MM from 01 to 12 |
| CheckoutPage.CvvOfNumber | src/pages/Checkout.jsx:263 | the CVV pattern accepts a number's digits exactly for 100 to 9999 |
| CheckoutPage.EmailValidIff | src/pages/Checkout.jsx:119-124 | the direct email check accepts exactly what the case-insensitive pattern local@domain.TLD (TLD of 2 or more letters) matches |
| CheckoutPage.PatternsImplyRequired | src/pages/Checkout.jsx:217-266 | a field matching its pattern is not empty |
| CheckoutPage.Render | src/pages/Checkout.jsx:26-37 | an empty cart shows no form; otherwise the form with the page's totals |
| CheckoutPage.CheckoutPageState.constructor | src/pages/Checkout.jsx:11 | not processing initially |
| CheckoutPage.CheckoutPageState.Submit | src/pages/Checkout.jsx:39-46 | with a non-empty cart and a valid form, processing starts and the cart is cleared; otherwise nothing changes |

The cart-page and checkout arithmetic takes the cart store's `getTotalPrice()` as the parameter `subtotal`. `AdminOrders.jsx:19-31` fetches orders on mount under the same guard that `AdminDashboard.LoadOnMount` models.

## Left out

- The cart store (`addItem`, `updateQuantity`, `getTotalPrice`, `clearCart`) is not part of this model. The pages' calls into it appear as returned requests or as the `cart` field of the checkout state.
- Network calls are not modelled. Each fetch result is a parameter that succeeds or fails. The product-detail fetch and its redirect on failure are also left out.
- Async/await, `Promise.all`, the `mounted` guards and the 2-second `setTimeout` before clearing the cart are left out. Each handler runs atomically.
- `Math.random()` and the clock are oracle parameters. The clock does not advance within one seeded batch; the source reads it once per order.
- `AdminStore.SeedOrders`, `AdminDashboard.WindowDays` and `AdminDashboard.ChartData`: a date is `now` minus whole days. This ignores the daylight-saving shifts of `setDate` and the local-time versus UTC difference in `toISOString`.
- `Catalog.Round2`: `Number(x.toFixed(2))` is modelled as exact round-half-up to cents. Binary floating point is not modelled. `Intl` labels, `toLocaleDateString` and currency formatting are left out.
- `Text.StrCmp`: the locale rules of `localeCompare` are not modelled. Characters compare by code point, which differs from UTF-16 code-unit order for characters outside the Basic Multilingual Plane.
- `Text.ToLower`: only ASCII letters are lower-cased. The regex `i` flag is also modelled as ASCII-only, which is what JavaScript does without the `u` flag.
- `AdminDashboard.ComputeStats`: order totals are numbers here, so the `|| 0` fallback for a non-numeric total is not modelled.
- Storage values of an unexpected shape are not modelled. One example is a products list under the orders key, which the typed readers treat as absent.
- `CheckoutPage.Submit`: `encodeURIComponent` and router navigation are left out; `HeaderBar.HeaderView.HandleSearch` returns the raw query. Custom error messages and the unused checkout `step` indicator are left out too.
- `HeaderBar.HeaderView.ApplyAdminFlag`: the `localStorage` writes here are not guarded by a `try`, so a browser that refuses them throws an uncaught error. The model assumes they always succeed.
- The FileReader image upload, the `SalesChart` loader and the purely presentational pages are not part of this model.
