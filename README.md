# Dairy dashboard: session gate, order line items and order tables

This project is a Dafny model of the parts of the dairy-distribution dashboard that make decisions. The rest of the repository renders pages or forwards requests to the backend. Three pieces are modelled:

- **The session gate** (`middleware.ts`). The function `Middleware.Gate` takes the request path, the decoded session token (if any) and the current time in milliseconds. It returns one of three decisions:
  - let the request through;
  - redirect to `/login`;
  - redirect a signed-in visitor away from the public pages (`/login`, `/register`, `/about`) to the landing page of their role.
- **The shop's new-order builder** (`app/dashboard/shop/orders/page.tsx`). The class `ShopOrdersPage` holds the page's state: `orderItems`, `selectedProduct`, `quantity`, `notes`, `orders`, the filter inputs and `sortConfig`. Its methods are the page's handlers:
  - adding a product merges it into an existing line or appends a new line;
  - removing drops a product's line;
  - creating an order refuses an empty list, then sends the payload whose total is the sum of the subtotals.

  The line-item invariant holds across all of them: product ids stay distinct, and each subtotal equals quantity × price at the listed product's price.
- **The order tables** of the shop page and the admin page (`app/dashboard/admin/orders/page.tsx`). First a status filter, then a search, then an optional sort on one column using a three-way comparator. `requestSort` toggles the direction between two states. The two pages are modelled separately because they differ:
  - the shop page upper-cases for the status test, searches only the order code, and its comparator returns 0 when a key is undefined;
  - the admin page lower-cases, searches code, status and payment, and compares a missing value as `""`.

Money is integer cents: the products endpoint's 3.99, 4.49 and 5.99 become 399, 449 and 599 (`ShopOrders.Catalogue`). Case folding is ASCII only, on `seq<char>`.

The files:

- `wrappers.dfy`: `Option` and `Result`.
- `text.dfy`: case folding, `includes` and string `<`.
- `seqs.dfy`: `filter`, `findIndex`, subsequences, and the sort.
- `middleware.dfy`: the gate.
- `order_list.dfy`: order records, sort configuration and key values shared by both pages.
- `shop_orders.dfy`: the shop page.
- `admin_orders.dfy`: the admin page.

Four details of the code that the model keeps as written:

- The gate also redirects a signed-in visitor away from `/about` (middleware.ts:8, 27), although the comment on line 26 names only login and register.
- The shop page's search tests only the order code (app/dashboard/shop/orders/page.tsx:248-252). The admin page's search also tests status and payment (app/dashboard/admin/orders/page.tsx:87-94).
- The shop payload's placeholders are the upper-case `"PENDING"` and `"UNPAID"` (app/dashboard/shop/orders/page.tsx:213-214), matching the upper-case values of the shop's status select (lines 475-480). The admin page's select offers lower-case values (app/dashboard/admin/orders/page.tsx:156-161).
- `token?.exp ? … : true` (middleware.ts:16-18) treats an `exp` of 0 as missing, so such a token counts as expired.

Inputs that the source reads from the environment are parameters here:
- the clock (`now` for the gate, `today` for the order date);
- the decoded token;
- the fetched orders and products (constructor arguments);
- the outcome of the order post (`Reply`).

## Model

| member | source | states |
|---|---|---|
| Middleware.IsTokenExpired | middleware.ts:16-18 | a token is live exactly when it is present and has a non-zero `exp` with now < exp × 1000; a missing token or a missing `exp` counts as expired |
| Middleware.RoleOf | middleware.ts:30-36 | the role is ADMIN, DRIVER or SHOP exactly when the claim is that string; every other claim, and a missing one, is the default role |
| Middleware.IsPublicPath | middleware.ts:8-9 | a path is public exactly when it is `/login`, `/register` or `/about`, compared as whole strings |
| Middleware.LandingPath | middleware.ts:27-36 | every landing page lies under `/dashboard`; only the default role lands on `/dashboard` itself; no landing page is public |
| Middleware.LandingPathsDistinctAndProtected | middleware.ts:28-36 | different roles land on different pages, and no landing page is a public path |
| Middleware.Gate | middleware.ts:8-41 | a protected path without a live session redirects to /login whatever the role; a public path (including /about) with a live session redirects to the role's landing page; the request passes through exactly when "public" and "live session" differ; a /login redirect only comes from a protected path |
| Middleware.NoRedirectLoop | middleware.ts:22-41 | following any redirect with the same token at the same time reaches a page that passes through |
| Middleware.ExpiryIsPermanent | middleware.ts:16-18 | a token expired at some time stays expired at every later time |
| Middleware.ExpiredIgnoresRole | middleware.ts:22-24 | on a protected path an expired token redirects to /login, and changing its role claim does not change that |
| Middleware.AdminLandingExample | middleware.ts:26-39 | a live ADMIN token on /login and on /about goes to /dashboard/admin, and /dashboard/admin itself passes through; at now == exp × 1000 the token has expired and that page sends it to /login |
| OrderList.NextSortConfig | app/dashboard/shop/orders/page.tsx:145-155 | the new configuration sorts by the clicked key, descending exactly when the current configuration is that key ascending |
| OrderList.SortToggles | app/dashboard/admin/orders/page.tsx:66-76 | clicking the same column again always flips the direction |
| OrderList.ClickSequence | app/dashboard/admin/orders/page.tsx:66-76 | from no configuration, one click sorts ascending, two sort descending, three sort ascending again |
| OrderList.KeyValue | app/dashboard/shop/orders/page.tsx:255-256 | every column the table sorts by holds a value on a typed order (never undefined): a number for the total, a string for the others |
| OrderList.ValueLess | app/dashboard/shop/orders/page.tsx:258-259 | `<` is false whenever `undefined` takes part and between a string and a number; on two numbers it is numeric `<` |
| OrderList.ValueLessAsymmetric | app/dashboard/shop/orders/page.tsx:258-259 | `<` between key values never holds both ways round |
| OrderList.DirectedCompare | app/dashboard/admin/orders/page.tsx:101-103 | the result is -1, 0 or 1; it is 0 exactly when neither value is `<` the other, and for two strings or two numbers exactly when they are equal; it is negative exactly when the first value is smaller (ascending) or larger (descending) |
| OrderList.DirectedCompareSign | app/dashboard/admin/orders/page.tsx:101-103 | the -1/1/0 comparison is non-positive at least one way round, and non-positive exactly when the pair is in order (non-decreasing ascending, non-increasing descending) |
| OrderList.InOrderTransitive | app/dashboard/admin/orders/page.tsx:101-103 | on the values of one column (all strings or all numbers), being in order is transitive |
| OrderList.SortedPairwise | app/dashboard/shop/orders/page.tsx:253-261 | a list whose neighbouring keys are in order has every earlier key in order with every later one |
| Text.ToLower | app/dashboard/admin/orders/page.tsx:81-94 | `toLowerCase()` keeps the length, lowers each ASCII capital, and leaves no capital |
| Text.ToUpper | app/dashboard/shop/orders/page.tsx:245 | `toUpperCase()` keeps the length, raises each ASCII small letter, and leaves no small letter |
| Text.StrLess | app/dashboard/shop/orders/page.tsx:258-259 | string `<` holds exactly when at some position both strings agree on everything before it and there the first string has ended while the second goes on, or has the smaller character code |
| Text.Contains | app/dashboard/admin/orders/page.tsx:90-92 | `s.includes(t)` holds exactly when t occurs as a contiguous block at some position of s |
| Text.ContainsEmpty | app/dashboard/shop/orders/page.tsx:248-252 | every string contains the empty string, so skipping the search for an empty term keeps the same orders |
| Text.SameFold | app/dashboard/shop/orders/page.tsx:245 | under ASCII folding, two strings have equal upper-case forms exactly when they have equal lower-case forms |
| Text.StrLessAsymmetric | app/dashboard/shop/orders/page.tsx:258-259 | string `<` never holds both ways round |
| Text.StrLessTotal | app/dashboard/shop/orders/page.tsx:258-259 | of two different strings, one is `<` the other |
| Text.StrLessTransitive | app/dashboard/admin/orders/page.tsx:101-102 | string `<` is transitive |
| Seqs.FirstIndex | app/dashboard/shop/orders/page.tsx:168-170 | `findIndex` gives -1 exactly when no element matches, otherwise the first matching position |
| Seqs.Filter | app/dashboard/shop/orders/page.tsx:244-246 | `filter` keeps exactly the elements that pass, with their multiplicities, as a subsequence of the input |
| Seqs.FilterDropsOne | app/dashboard/shop/orders/page.tsx:198 | a filter that exactly one position fails removes that position and keeps the rest in order |
| Seqs.SubsequenceTransitive | app/dashboard/admin/orders/page.tsx:79-94 | a filter of a filter is a subsequence of the original list |
| Seqs.SortBy | app/dashboard/shop/orders/page.tsx:254-261 | `sort` returns a permutation of its input in which each element is at most its successor under the comparator |
| ShopOrders.FindProduct | app/dashboard/shop/orders/page.tsx:165-166 | `find` returns nothing exactly when no product has the id, otherwise the first listed product with that id |
| ShopOrders.FindItemIndex | app/dashboard/shop/orders/page.tsx:168-170 | the existing index is -1 exactly when no line has the product id, otherwise the first line for that product |
| ShopOrders.AddToItems | app/dashboard/shop/orders/page.tsx:168-191 | for a listed product, the length is kept and only its line changes, to quantity old + qty and subtotal newQty × current price; otherwise exactly one line (id, name, price, qty, qty × price) is appended at the end |
| ShopOrders.AddKeepsValid | app/dashboard/shop/orders/page.tsx:162-195 | an accepted add (listed product, positive quantity) keeps product ids distinct and every line's subtotal equal to quantity × price at the product's price |
| ShopOrders.AddTotal | app/dashboard/shop/orders/page.tsx:172-191 | an accepted add raises the sum of the subtotals by qty × price, whether it merges or appends |
| ShopOrders.RemoveFromItems | app/dashboard/shop/orders/page.tsx:197-199 | the result holds exactly the lines for other products, as a subsequence of the old lines |
| ShopOrders.RemoveExact | app/dashboard/shop/orders/page.tsx:197-199 | with distinct ids, removing a listed product drops exactly its line and keeps the others in order; an unlisted id changes nothing |
| ShopOrders.RemoveKeepsValid | app/dashboard/shop/orders/page.tsx:197-199 | removing keeps ids distinct and every line consistent |
| ShopOrders.RemoveTotal | app/dashboard/shop/orders/page.tsx:197-199 | removing a listed product takes exactly its subtotal out of the sum |
| ShopOrders.SumSubtotals | app/dashboard/shop/orders/page.tsx:207 | `reduce((sum, i) => sum + i.subtotal, 0)` gives 0 for no lines and the subtotal itself for one line |
| ShopOrders.SumSubtotalsConcat | app/dashboard/shop/orders/page.tsx:207 | the sum over two lists joined is the sum of the two sums |
| ShopOrders.SumSubtotalsRemoveAt | app/dashboard/shop/orders/page.tsx:207 | dropping one line from the list takes exactly its subtotal out of the sum |
| ShopOrders.SubtotalsBound | app/dashboard/shop/orders/page.tsx:207 | with no negative subtotal, the sum is non-negative and at least every line's own subtotal |
| ShopOrders.ValidSumIsLineTotal | app/dashboard/shop/orders/page.tsx:207 | while the lines are consistent, the reduce over subtotals equals the sum of quantity × price |
| ShopOrders.NewOrderRequest | app/dashboard/shop/orders/page.tsx:201-216 | an empty list is refused with the "add at least one item" message; otherwise the payload carries the lines, notes, date, the sum of the subtotals, "PENDING", "UNPAID" and shop 1 |
| ShopOrders.RequestTotalIsLineTotal | app/dashboard/shop/orders/page.tsx:207-212 | the payload total of a consistent, non-empty list is the sum of quantity × unit price; it is non-negative and at least every line's subtotal |
| ShopOrders.CreateFailureMessage | app/dashboard/shop/orders/page.tsx:225-238 | a non-success response shows its text, or "Failed to create order" when the text is empty; a thrown error shows its message, or "Error creating order" when the message is empty; so the toast is never empty |
| ShopOrders.ShopStatusFilter | app/dashboard/shop/orders/page.tsx:243-247 | "all" keeps every order; any other filter keeps exactly the orders whose upper-cased status equals the upper-cased filter, each as often as in the input, as a subsequence |
| ShopOrders.ShopSearchFilter | app/dashboard/shop/orders/page.tsx:248-252 | an empty term keeps every order; otherwise exactly the orders whose lower-cased code contains the lower-cased term, each as often as in the input, as a subsequence |
| ShopOrders.ShopCompare | app/dashboard/shop/orders/page.tsx:257 | the comparator returns 0 when either key is undefined |
| ShopOrders.ShopCompareSign | app/dashboard/shop/orders/page.tsx:254-261 | the comparator is antisymmetric (c(a,b) == -c(b,a)), and on defined keys is non-positive exactly when the pair is in order |
| ShopOrders.ShopComparator | app/dashboard/shop/orders/page.tsx:254-260 | the comparator passed to `sort` orders every pair at least one way round, and accepts a pair exactly when the two orders' keys are in order for the direction |
| ShopOrders.ShopSort | app/dashboard/shop/orders/page.tsx:253-261 | the sorted table is a permutation of the filtered list in which every earlier key is in order with every later one: non-decreasing ascending, non-increasing descending |
| ShopOrders.ShopOrdersPage.constructor | app/dashboard/shop/orders/page.tsx:84-105 | the loaded page starts with no lines, no selection, quantity 1, empty notes and search, filter "all", no sort, and satisfies the line-item invariant |
| ShopOrders.ShopOrdersPage.SelectProduct | app/dashboard/shop/orders/page.tsx:346-350 | the product select sets the selected id |
| ShopOrders.ShopOrdersPage.EnterQuantity | app/dashboard/shop/orders/page.tsx:367-369 | an entry that does not parse, or parses to 0, sets the quantity to 1; any other parsed integer is taken as is |
| ShopOrders.ShopOrdersPage.EditNotes | app/dashboard/shop/orders/page.tsx:436 | the notes box sets the notes |
| ShopOrders.ShopOrdersPage.EditSearch | app/dashboard/shop/orders/page.tsx:464 | the search box sets the search term |
| ShopOrders.ShopOrdersPage.SelectStatus | app/dashboard/shop/orders/page.tsx:467 | the status select sets the status filter |
| ShopOrders.ShopOrdersPage.RequestSort | app/dashboard/shop/orders/page.tsx:145-155 | the sort configuration becomes the toggled configuration for the clicked key |
| ShopOrders.ShopOrdersPage.HandleAddItem | app/dashboard/shop/orders/page.tsx:162-195 | no selection, a quantity ≤ 0 or an unlisted id changes nothing; otherwise the lines become the merged or appended list, the selection resets to "" and the quantity to 1; the invariant is kept |
| ShopOrders.ShopOrdersPage.HandleRemoveItem | app/dashboard/shop/orders/page.tsx:197-199 | the lines become the filtered list and the invariant is kept |
| ShopOrders.ShopOrdersPage.HandleCreateOrder | app/dashboard/shop/orders/page.tsx:201-239 | an empty list sends nothing, shows the error and changes nothing; otherwise the payload is sent with total = sum of quantity × price; a created order is appended, the dialog closes and lines and notes are cleared; a failure leaves the state and shows the failure message |
| ShopOrders.ShopOrdersPage.VisibleOrders | app/dashboard/shop/orders/page.tsx:241-262 | the table is a permutation of the status-filtered, searched list: each passing order appears exactly as often as in `orders`, the others not at all; unsorted it is that list itself, in original order; sorted, every earlier key is in order with every later one; `orders` is not modified |
| AdminOrders.AdminStatusFilter | app/dashboard/admin/orders/page.tsx:81-85 | "all" keeps every order; any other filter keeps exactly the orders whose lower-cased status equals the lower-cased filter, each as often as in the input, as a subsequence |
| AdminOrders.AdminSearchFilter | app/dashboard/admin/orders/page.tsx:87-94 | an empty term keeps every order; otherwise exactly the orders whose lower-cased code, status or payment contains the lower-cased term, each as often as in the input, as a subsequence |
| AdminOrders.OrEmpty | app/dashboard/admin/orders/page.tsx:99-100 | `?? ""` replaces a missing value by "" and leaves a present one unchanged |
| AdminOrders.AdminCompare | app/dashboard/admin/orders/page.tsx:98-104 | the result is -1, 0 or 1; on strings or missing values it is 0 exactly when the values after `?? ""` are equal, so two missing values, or a missing value and "", tie |
| AdminOrders.AdminCompareSign | app/dashboard/admin/orders/page.tsx:97-105 | a missing value compares exactly like ""; the comparator is non-positive at least one way round, and non-positive exactly when the defaulted pair is in order |
| AdminOrders.MissingSortsFirst | app/dashboard/admin/orders/page.tsx:99-101 | ascending, a missing value sorts before any non-empty string (unlike the shop comparator, which calls it equal) |
| AdminOrders.AdminComparator | app/dashboard/admin/orders/page.tsx:97-104 | the comparator passed to `sort` orders every pair at least one way round, and accepts a pair exactly when the two orders' keys are in order for the direction |
| AdminOrders.AdminSort | app/dashboard/admin/orders/page.tsx:97-105 | the sorted table is a permutation of the filtered list in which every earlier key is in order with every later one: non-decreasing ascending, non-increasing descending |
| AdminOrders.StatusFiltersAgree | app/dashboard/admin/orders/page.tsx:81-85 | under ASCII folding, the admin page's lower-casing status test keeps the same orders as the shop page's upper-casing one |
| AdminOrders.AdminOrdersPage.constructor | app/dashboard/admin/orders/page.tsx:40-47 | the loaded page starts with empty search, filter "all" and no sort |
| AdminOrders.AdminOrdersPage.EditSearch | app/dashboard/admin/orders/page.tsx:142 | the search box sets the search term |
| AdminOrders.AdminOrdersPage.SelectStatus | app/dashboard/admin/orders/page.tsx:148 | the status select sets the status filter |
| AdminOrders.AdminOrdersPage.RequestSort | app/dashboard/admin/orders/page.tsx:66-76 | the sort configuration becomes the toggled configuration for the clicked key |
| AdminOrders.AdminOrdersPage.VisibleOrders | app/dashboard/admin/orders/page.tsx:78-105 | the table is a permutation of the status-filtered, searched list: each passing order appears exactly as often as in `orders`, the others not at all; unsorted it is that list itself, in original order; sorted, every earlier key is in order with every later one; `orders` is not modified |

Two client methods exercise the classes as a caller would:
- `ShopOrders.AddSameProductTwice` adds Whole Milk with quantity 2 and then 1. The result is one line with quantity 3 and subtotal 1197. A rejected post then shows "Failed to create order" and keeps the line.
- `AdminOrders.PendingA1Example` filters by "pending" and searches "A1". Of A100 (pending) and B200 (approved), only A100 is shown.

## Left out

- The orders API route (`app/api/orders/route.ts`) is not part of this model. It is a session lookup plus request forwarding to the backend.
- The products API route (`app/api/products/route.ts`) is used only as the fixed product list `ShopOrders.Catalogue`.
- Fetching orders and products, and the loading and error flags, are not modelled: they are network I/O and framework lifecycle. The fetched lists are given to the page constructors instead, and the product list is a constant field because a refetch is not modelled.
- The order-detail dialog (`viewOrder`), the open state of the create dialog, all JSX, the badges, the icons and the `toFixed` formatting are left out as presentation. The one exception is that the create dialog closes on success.
- Toasts are returned as a `Notice` value instead of being shown.
- Floating-point prices and totals are replaced by integer cents.
- Clock reads are parameters: `Date.now()` becomes `now` and `new Date().toISOString().split("T")[0]` becomes `today`.
- Decoding the token (`getToken` with the signing secret) is left out: it is a foreign library. A token that fails to decode is `None`. The `exp` claim is an integer; `Number(...)` of a non-numeric claim is not modelled.
- The route `matcher` configuration is framework routing and is left out.
- `Number.parseInt` is modelled only through its result: `None` for NaN, or the parsed integer.
- The `undefined` branch of the shop comparator and the `?? ""` default of the admin comparator are modelled on values. A typed order always has every sortable column, so neither branch can fire from an `Order` value. `null` values are not modelled.
- Columns that no header sorts by (`id`, `shopId`, `items`) are not sort keys in the model.
- ShopOrders.ShopOrdersPage.RequestSort: the shop page's headers call `requestSort` for four columns only (app/dashboard/shop/orders/page.tsx:490-520), and its Payment header (line 521) has no click handler. The model's shop `RequestSort` still accepts the payment key, as the source's `requestSort` would if called with "payment".
- ShopOrders.ShopOrdersPage.HandleCreateOrder: runs the post and its outcome as one step. The source awaits the post (app/dashboard/shop/orders/page.tsx:219-235) while the page stays interactive. The model therefore does not capture a second click during the await, which posts the same payload again and appends both created orders. Nor does it capture that the success branch (lines 234-235) also clears lines and notes entered during the await.
- Comparing a string with a number is not modelled, because each column holds one type. The model treats such a pair as neither less nor greater.
- Case folding is ASCII only. String `<` compares characters by code point, which agrees with JavaScript's UTF-16 comparison inside the Basic Multilingual Plane.
- The sorts are local copies that the source sorts in place. The model computes the sorted sequence as a value, which has the same effect on the page's state.
- Seqs.SortBy: does not claim which of the permutations the engine returns; insertion sort stands for it. Nothing is said about the order of ties: neither stability nor exact reversal when the direction flips.
- ShopOrders.ShopSort: makes no stability or reversal claim, for the same reason.
- AdminOrders.AdminSort: makes no stability or reversal claim, for the same reason.
