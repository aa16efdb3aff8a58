# Marketplace API model

A Dafny model of the server side of a Next.js marketplace. Creators sell
digital products. Buyers fill a cart, pay through Stripe Checkout, and get
their orders when the Stripe webhook arrives. Buyer and seller then talk in
a per-order chat.

The model covers these parts:

- **Routes:** the cart, checkout, webhook, order, chat, dashboard, review,
  upload, portfolio and store-settings routes, plus the admin routes for
  roles, affiliates and sales analytics.
- **Sign-in:** the NextAuth credentials provider and its `jwt`/`session`
  callbacks.
- **Middleware:** the route guard.
- **String helpers:** the helpers of `src/lib/utils.ts`.

How the pieces are modelled:

- **Database.** The Prisma database is one object, `Store.Db`. It has one
  `seq` field per table and a `Valid()` invariant. The invariant covers the
  unique columns and the foreign keys the routes rely on. Examples: one cart
  row per user and product, one chat per order, one portfolio per user.
- **Writing handlers** are methods on the database. Each keeps `Valid()` and
  states the whole new state as a function of the old one. Most error answers
  leave the state unchanged. There are two exceptions:
  - The chat routes create a missing session user before they look at the
    request. An error answered after that point, such as chat POST's 400 for
    a missing order id, 404 for an unknown order or 401 for a stranger to
    the order, can therefore follow that creation.
  - A webhook delivery that fails on a taken id keeps the orders created
    before the failure.
- **Read-only handlers** are functions of the tables. The exception is
  `Sales.Get`, a method without `modifies` that runs the group-by loops.
- **Outside inputs become parameters.** These cover the session, the clock,
  the ids the database assigns, `Math.random`, `crypto.randomBytes`, bcrypt,
  the Stripe client and the outcome of `writeFile`.
- **Colliding ids.** An id the database would reject as a duplicate gives the
  answer the route's `catch` returns: 500, or 400 in the webhook.

Properties proved:

- **Cart.** Adding a product raises exactly that line's quantity by one.
- **Checkout.**
  - The discounted total lies between 0 and the subtotal.
  - The amount charged through Stripe is within half a cent per unit of the
    subtotal. The discounted total is computed but never sent to Stripe.
  - The cart ids in the payment metadata split back into exactly the buyer's
    cart rows.
- **Webhook.**
  - It creates one completed order per listed cart row, costing that row's
    line.
  - A replayed event changes nothing.
- **Orders and chat.**
  - Order listings are the user's orders, newest first.
  - Chat listings are exactly the chats the user may see.
  - A chat is opened only by the buyer or a seller of the order, and at most
    once per order.
- **Admin routes.**
  - The category and creator dictionaries of the sales report each add up to
    the sum of the item prices. The daily dictionary adds up to
    `totalSales`.
  - The role listing is strictly ascending by name.
- **Store settings.** The settings upsert is idempotent.
- **Upload.** Upload names cannot leave the upload directory, and the hex
  prefix decodes back to the random bytes.
- **Utilities.**
  - Usernames are normalised idempotently.
  - The email check decides exactly the regular expression.
  - The file-extension expression returns the text after the last dot.
  - Every eight-character code over A-Z0-9 can be produced by the affiliate
    code generator.
- **Middleware.** It never serves an admin page to a non-admin.

The model follows the code where it behaves in ways a reader might not expect.

- **Checkout total.** The discounted total is not what Stripe charges; the
  model keeps the total as a separate result.
- **Order status.** A plain `POST /api/orders` gets the database's default
  status.
- **Upload types.** `type in allowedTypes` accepts the keys inherited from
  `Object.prototype`, which then throw.

## Model

| member | source | states |
|---|---|---|
| Cart.RowsOf | src/app/api/cart/route.ts:15-19 | a row is listed exactly when it is in the table and belongs to the user |
| Cart.WithProducts | src/app/api/cart/route.ts:15-30 | `include: { product }` pairs each row, in order, with the product of that row's `productId` |
| Cart.LinesOf | src/app/api/cart/route.ts:15-30 | every line is one of the user's rows with its product, and every row of the user appears |
| Cart.Get | src/app/api/cart/route.ts:8-37 | no session gives 401; otherwise 200 with the user's lines |
| Cart.QuantityAppend | src/app/api/cart/route.ts:93-112 | appending a row adds its quantity to its own (user, product) line and to no other |
| Cart.QuantityUpdate | src/app/api/cart/route.ts:140-156 | changing one row's quantity changes its line's total by the difference and no other line |
| Cart.AddOneAddsOne | src/app/api/cart/route.ts:62-112 | a successful add raises the quantity of exactly the (user, product) line by one |
| Cart.RemoveIds | src/app/api/cart/route.ts:184-186 | a row survives exactly when it was present and its id is not removed |
| Cart.RemoveIdsWellFormed | src/app/api/cart/route.ts:184-186 | deleting rows keeps the cart constraints (unique ids, one row per user and product, quantities at least 1, products exist) |
| Cart.UpdateWellFormed | src/app/api/cart/route.ts:140-156 | setting a row's quantity to at least 1 keeps the cart constraints |
| Cart.AppendWellFormed | src/app/api/cart/route.ts:93-112 | appending a fresh row for a new (user, product) pair keeps the cart constraints |
| Cart.Post | src/app/api/cart/route.ts:40-117 | 401 without session, 400 without product id, 404 for an unknown product; on success the table becomes the add-one table (increment the existing line or append a quantity-1 row) and the reply is the user's row for that product; on failure nothing changes |
| Cart.Patch | src/app/api/cart/route.ts:120-161 | 401, 400 for a missing id or quantity below 1, 404 when the row is not the caller's; a valid request on the caller's own row always answers 200, sets only that row's quantity to the requested one and replies with the updated row |
| Cart.Delete | src/app/api/cart/route.ts:164-193 | 401, 400 for a missing id, 404 when the row is not the caller's; a request naming the caller's own row always answers 204 and removes exactly that row |
| Checkout.Round | src/app/api/checkout/route.ts:92 | `Math.round` lands within half of its argument |
| Checkout.Redeemable | src/app/api/checkout/route.ts:48-57 | a code is redeemed only when given, present, under its use limit and unexpired; none is when any of these fails |
| Checkout.Redeem | src/app/api/checkout/route.ts:59-62 | exactly the applying code's `usedCount` goes up by one, every other field and row stays, a limited code does not pass its limit, codes stay unique |
| Checkout.MaxFrom | src/app/api/checkout/route.ts:73-75 | the role discount is at least the start value, at least every role's discount, and one of them |
| Checkout.TotalWithinSubtotal | src/app/api/checkout/route.ts:41-79 | with rates in [0, 1] the discounted total lies between 0 and the subtotal |
| Checkout.RoleDiscountBounds | src/app/api/checkout/route.ts:68-79 | a known user always gets a role discount, within [0, 1] when the roles' discounts are |
| Checkout.LineItems | src/app/api/checkout/route.ts:84-95 | one Stripe line item per cart line, in order, each the line's product title, description and image, a unit amount of `Math.round(price * 100)` cents and the line's quantity |
| Checkout.RowIds | src/app/api/checkout/route.ts:101 | the metadata ids are the cart lines' row ids, in line order |
| Checkout.MetadataRoundTrip | src/app/api/checkout/route.ts:99-102 | splitting the joined `cartItemIds` at "," gives back the row ids in order, when no id contains "," |
| Checkout.ChargedCentsNearSubtotal | src/app/api/checkout/route.ts:84-95 | the cents Stripe charges (rounded unit price times quantity) differ from 100 times the subtotal by at most half a cent per unit |
| Checkout.UseCode | src/app/api/checkout/route.ts:48-65 | the discount-code update changes only the discount-code table, as `Redeem` |
| Checkout.Post | src/app/api/checkout/route.ts:17-110 | 401 and 400 (empty cart) change nothing; otherwise the code is redeemed, the total is the subtotal after the code and role discounts, the Stripe request carries the lines and metadata, and the reply is the session URL or 500 |
| Webhook.ListedRows | src/app/api/webhook/route.ts:43-50 | a row is fetched exactly when it is in the cart and its id is listed |
| Webhook.PriceOf | src/app/api/webhook/route.ts:58 | the price is that of a product with the row's product id |
| Webhook.OrdersFor | src/app/api/webhook/route.ts:53-70 | one order per fetched row |
| Webhook.Fanout | src/app/api/webhook/route.ts:53-70 | the creates keep every existing order, add only pending ones, keep order ids unique, and never clear a failure |
| Webhook.FanoutFresh | src/app/api/webhook/route.ts:53-70 | with all new ids fresh and distinct every order is appended, in order, and no failure is raised |
| Webhook.FanoutTaken | src/app/api/webhook/route.ts:53-70 | a pending order whose id is taken makes the delivery fail |
| Webhook.Handle | src/app/api/webhook/route.ts:22-88 | 200 or 400 only; no signature or no event gives 400 with nothing changed; another event type gives 200 with nothing changed; a completed event without `userId` or `cartItemIds` gives 400 with nothing changed; a successful completed delivery appends exactly `OrdersFor` the listed rows and removes exactly the listed rows from the cart; only orders and cart rows change, orders only grow, a failure keeps the cart, and the database constraints are kept |
| Webhook.FanoutNoFailure | src/app/api/webhook/route.ts:53-70 | when no create failed, every pending order was appended, in order |
| Webhook.DeliveryOutcome | src/app/api/webhook/route.ts:34-80 | a completed delivery with metadata and fresh, distinct order ids answers 200, appends one order per listed row and deletes exactly the listed rows |
| Webhook.Post | src/app/api/webhook/route.ts:22-88 | the handler's status and new state are those of `Handle` |
| Webhook.OneOrderPerListedRow | src/app/api/webhook/route.ts:43-70 | one order per listed row, each completed, for the event's user, holding one item of the row's product, quantity and price, costing price times quantity |
| Webhook.ReplayChangesNothing | src/app/api/webhook/route.ts:43-77 | delivering a successful event again succeeds and changes nothing |
| Webhook.FailedDeliveryKeepsRows | src/app/api/webhook/route.ts:53-87 | when the creates fail, the listed cart rows are still there |
| Webhook.ListedRowsAreOwned | src/app/api/checkout/route.ts:99-102 | the rows the webhook fetches from checkout's metadata are exactly the buyer's cart rows |
| Webhook.OrderCostsLine | src/app/api/webhook/route.ts:58 | an order's total equals its cart line's cost at checkout |
| Webhook.OrdersCostSubtotal | src/app/api/webhook/route.ts:53-70 | the totals of the orders for the buyer's rows add up to checkout's subtotal |
| Webhook.OrdersMatchCheckout | src/app/api/webhook/route.ts:37-70 | the orders created from checkout's metadata are for the buyer's rows and cost checkout's subtotal |
| Webhook.SameIdSameProduct | src/app/api/webhook/route.ts:47-49 | with unique product ids a product id names one product |
| Webhook.SameIdSameRow | src/app/api/webhook/route.ts:43-46 | in a well-formed cart a row id names one row |
| Orders.OrdersOfCorrect | src/app/api/orders/route.ts:14-53 | the listing is a permutation of the user's orders, holds exactly them, newest first |
| Orders.Get | src/app/api/orders/route.ts:7-60 | 401 exactly without session, otherwise the user's orders |
| Orders.NewOrder | src/app/api/orders/route.ts:82-93 | the order is the user's, has the default status, one item at the product's price, and a total equal to its items' cost |
| Orders.Post | src/app/api/orders/route.ts:62-117 | 401, 400 for a missing product id or a quantity below 1, 404 for an unknown product; success appends exactly the new order and returns it; failures change nothing |
| Chats.WithSessionUser | src/app/api/chat/route.ts:60-94 | an existing user leaves the tables alone; a missing one is created with a basic role unless that would collide; the constraints are kept |
| Chats.CreatedUserRoles | src/app/api/chat/route.ts:73-93 | the created user has exactly the basic role, which grants exactly "basic_access" |
| Chats.EnsureUser | src/app/api/chat/route.ts:60-94 | the database becomes `WithSessionUser`'s tables, or stays unchanged when creation fails |
| Chats.Transform | src/app/api/chat/route.ts:162-176 | the view keeps the chat, names its order, lists, for each order item in order, the item with its product's title and creator when that product exists, and names the user or "Unknown User" |
| Chats.VisibleChatsCorrect | src/app/api/chat/route.ts:97-158 | the listing is a permutation of the visible chats, holds exactly the chats the user started or whose order the user bought or sold in, most recently updated first |
| Chats.Get | src/app/api/chat/route.ts:52-186 | 401 without session, 500 when the user cannot be created; otherwise the user is ensured and the reply is the visible chats, transformed |
| Chats.FindChatOfOrder | src/app/api/chat/route.ts:238-244 | a found chat belongs to the order; none means no chat does |
| Chats.Open | src/app/api/chat/route.ts:232-301 | 400 without order id; an existing chat is returned unchanged; 404 for an unknown order; 401 for someone neither buyer nor seller; otherwise exactly one chat is appended; one chat per order is kept |
| Chats.Post | src/app/api/chat/route.ts:188-309 | 401, 500 when the user cannot be created; otherwise the reply and chat table are those of `Open` on the ensured tables |
| Auth.AllPermissionsGrants | src/lib/auth.ts:71-76 | a permission is in the flattened list exactly when an array-valued role includes it |
| Auth.PermissionsCorrect | src/lib/auth.ts:71-76 | the permission set has no duplicates and holds exactly the granted permissions |
| Auth.NonArrayRolesGrantNothing | src/lib/auth.ts:72-75 | a role whose permissions are not an array adds nothing |
| Auth.AllPermissionsAppend | src/lib/auth.ts:72-75 | flattening distributes over role lists |
| Auth.AdminFlagsIndependent | src/lib/auth.ts:63-70 | "super_admin" does not imply "admin" nor the reverse |
| Auth.FindByLogin | src/lib/auth.ts:39-49 | the first user whose email or username matches, or none when no user matches |
| Auth.Authorize | src/lib/auth.ts:33-93 | a user is returned exactly when both credentials are given, a user matches, has a password, and the comparison holds; it carries the user's fields, roles, the flags and the deduplicated permissions, each flag true exactly when the permission is present |
| Auth.Token.constructor | src/lib/auth.ts:105 | a fresh token carries no claims |
| Auth.Token.Jwt | src/lib/auth.ts:105-118 | with a signed-in user the token carries all its fields; otherwise it is unchanged |
| Auth.SessionUserObject.constructor | src/lib/auth.ts:119 | the session user starts with only id, email and name |
| Auth.SessionUserObject.Session | src/lib/auth.ts:119-132 | with a token the session user mirrors every claim and the token is untouched |
| Auth.SignIn | src/lib/auth.ts:105-132 | after sign-in the session's `isAdmin` and permissions are the authorised user's |
| Middleware.Authorized | src/middleware.ts:25-42 | sign-in pages are public, admin pages need an admin token, every other page a token |
| Middleware.Decide | src/middleware.ts:5-22 | a signed-in visitor on a sign-in page and a non-admin on an admin page go to /dashboard; everything else passes |
| Middleware.AdminPagesNeedAdmin | src/middleware.ts:5-53 | an admin page is served only to an admin token |
| Middleware.DashboardNeedsToken | src/middleware.ts:25-53 | a guarded non-sign-in page is served only with a token |
| Middleware.AuthPagesOnlySignedOut | src/middleware.ts:7-53 | /login and /register are served exactly to visitors without a token |
| Middleware.UnmatchedPassThrough | src/middleware.ts:47-53 | paths outside the matcher pass untouched |
| Roles.ByNameIsTotalPreorder | src/app/api/admin/roles/route.ts:30 | ordering by name is a total preorder |
| Roles.Get | src/app/api/admin/roles/route.ts:9-36 | 401, 403 without "manage_roles"; otherwise a permutation of all roles in ascending name order |
| Roles.ListingStrictlyAscending | src/app/api/admin/roles/route.ts:30 | with unique names the listing is strictly ascending |
| Roles.AppendKeepsUnique | src/app/api/admin/roles/route.ts:68-78 | a role with a fresh id and name keeps ids and names unique |
| Roles.Post | src/app/api/admin/roles/route.ts:41-83 | 401, 403, 400 for missing fields or a taken name; success appends exactly the new role, `isTeam` defaulting to false, and returns it; failures change nothing |
| Roles.CreatedRoleListed | src/app/api/admin/roles/route.ts:30-78 | a created role appears in the next listing |
| Affiliates.Get | src/app/api/admin/affiliates/route.ts:10-44 | 401, 403 without "manage_affiliates"; otherwise a permutation of all affiliates, newest first |
| Affiliates.FindUserByEmail | src/app/api/admin/affiliates/route.ts:74-80 | a found user has that email; none means no user has it |
| Affiliates.AppendKeepsUnique | src/app/api/admin/affiliates/route.ts:81-95 | enrolling a non-affiliate with a fresh id keeps ids and users unique |
| Affiliates.Post | src/app/api/admin/affiliates/route.ts:49-102 | 401, 403, 500 without email, 404 for an unknown email, 400 for an existing affiliate; success appends exactly the affiliate with the generated 8-character A-Z0-9 code; failures change nothing |
| Affiliates.NewestListedFirst | src/app/api/admin/affiliates/route.ts:32-37 | an affiliate newer than all others heads the listing |
| Portfolios.PortfolioOf | src/app/api/portfolio/route.ts:18-27 | a found portfolio is the user's; none means the user has none |
| Portfolios.ItemsOf | src/app/api/portfolio/items/route.ts:42-49 | the items are exactly the portfolio's |
| Portfolios.NewestFirst | src/app/api/portfolio/route.ts:20-25 | a permutation of the portfolio's items, newest first |
| Portfolios.Get | src/app/api/portfolio/route.ts:7-42 | 401, 404 exactly when the user has no portfolio, otherwise the portfolio with its items newest first |
| Portfolios.AppendKeepsUnique | src/app/api/portfolio/route.ts:59-76 | a fresh portfolio for a user without one keeps ids unique, one per user, and items attached |
| Portfolios.FreshPortfolioIsEmpty | src/app/api/portfolio/route.ts:67-76 | a portfolio with a fresh id has no items |
| Portfolios.Post | src/app/api/portfolio/route.ts:44-86 | 401, 400 for missing fields or an existing portfolio; success appends exactly the new portfolio and returns it with no items; failures change nothing |
| Portfolios.PostThenGet | src/app/api/portfolio/route.ts:7-76 | after creation GET returns the new portfolio, empty |
| PortfolioItems.AppendKeepsValid | src/app/api/portfolio/items/route.ts:31-39 | an item with a fresh id in an existing portfolio keeps the item constraints |
| PortfolioItems.ItemsAfterAppend | src/app/api/portfolio/items/route.ts:31-49 | the portfolio's items after the insert are the old ones, then the new one |
| PortfolioItems.Post | src/app/api/portfolio/items/route.ts:7-54 | 401, 400 for missing fields, 404 without a portfolio; success appends exactly the item and returns the portfolio with its items; failures change nothing |
| PortfolioItems.PostThenGet | src/app/api/portfolio/items/route.ts:31-49 | the portfolio GET then lists the item, first when it is the newest |
| Settings.RowOf | src/app/api/creator/store/settings/route.ts:15-19 | a found row is the user's; none means no row is |
| Settings.Get | src/app/api/creator/store/settings/route.ts:7-42 | 401 exactly without session; the defaults (session email, switches on) when nothing is stored; otherwise the stored settings |
| Settings.UpsertCorrect | src/app/api/creator/store/settings/route.ts:60-83 | one row per user is kept, other users' rows are untouched, and the caller's row holds the required fields and every optional field the body gives |
| Settings.UpsertIdempotent | src/app/api/creator/store/settings/route.ts:60-83 | writing the same body twice equals writing it once |
| Settings.Put | src/app/api/creator/store/settings/route.ts:45-90 | 401, 400 for missing fields; success performs the upsert and answers what GET would then answer; failures change nothing |
| Reviews.FirstRoleName | src/app/api/reviews/route.ts:30 | the first role's name when there is a first role with a non-empty name, "Member" otherwise; never empty |
| Reviews.Format | src/app/api/reviews/route.ts:27-35 | the review carries the rating's fields, the author's name or "Anonymous", the first role name, the comment or "", and the image or the default avatar |
| Reviews.Get | src/app/api/reviews/route.ts:4-45 | 200 exactly when every selected rating has an author, with the formatted reviews; 500 otherwise |
| Reviews.NewestCorrect | src/app/api/reviews/route.ts:6-11 | exactly min(3, number of ratings) ratings, all of them when there are few, newest first, none left out newer than one taken |
| Reviews.GetCorrect | src/app/api/reviews/route.ts:4-45 | min(3, number of ratings) reviews, each the newest rating at its position formatted with its author, newest first, none newer left out |
| Sales.SalesByCategory | src/app/api/admin/sales/route.ts:67-72 | the dictionary is the per-category sum of item prices over all items in order |
| Sales.SalesByCreator | src/app/api/admin/sales/route.ts:74-80 | the dictionary is the per-username sum of item prices |
| Sales.DailySales | src/app/api/admin/sales/route.ts:82-86 | the dictionary is the per-day sum of order totals |
| Sales.CategoryEntriesSum | src/app/api/admin/sales/route.ts:67-72 | the category entries add up to all item prices |
| Sales.CreatorEntriesSum | src/app/api/admin/sales/route.ts:74-80 | the creator entries add up to all item prices |
| Sales.CategoryAndCreatorAgree | src/app/api/admin/sales/route.ts:67-80 | both dictionaries' values sum to the same total of item prices |
| Sales.DailySumsToTotal | src/app/api/admin/sales/route.ts:64-86 | the daily values sum to `totalSales` |
| Sales.DailyValue | src/app/api/admin/sales/route.ts:82-86 | a day is a key exactly when an order falls on it, and its value is the sum of that day's totals |
| Sales.Get | src/app/api/admin/sales/route.ts:11-101 | 401, 403 without "manage_roles"; 200 exactly when every counted item's product and creator resolve, with the range defaulting to a month ago and now, the total and count of the completed orders in range, and the three dictionaries |
| Dashboard.Get | src/app/api/dashboard/route.ts:9-188 | 401, 404 exactly for an unknown user; otherwise the user summary, the four statistics and the recent orders and reviews |
| Dashboard.TotalOrdersCountsOverlapTwice | src/app/api/dashboard/route.ts:31-46 | the order count is the orders the user takes part in plus those where the user is both buyer and seller |
| Dashboard.AverageWithinBounds | src/app/api/dashboard/route.ts:49-54 | the average lies within any bounds all ratings lie within |
| Dashboard.TotalCustomersCorrect | src/app/api/dashboard/route.ts:57-71 | the customer count is the number of distinct buyers of the user's sales |
| Dashboard.RecentOrdersCorrect | src/app/api/dashboard/route.ts:91-133 | min(5, number of candidates) orders, where the candidates are the orders the user buys or sells in; newest first, none newer left out |
| Dashboard.RecentReviewsCorrect | src/app/api/dashboard/route.ts:136-162 | min(5, number of ratings the user received) of those ratings, newest first, none newer left out |
| Dashboard.RevenueOfNoSales | src/app/api/dashboard/route.ts:74-88 | without completed sales the revenue is 0 |
| Upload.SanitizeCorrect | src/app/api/upload/route.ts:42 | safe characters are kept, the result has only safe characters and "_", no path separator, and sanitising again changes nothing |
| Upload.Hex | src/app/api/upload/route.ts:40-41 | two lowercase hex digits per byte |
| Upload.UnhexHex | src/app/api/upload/route.ts:40-41 | the hex text decodes back to the bytes, so different bytes give different names |
| Upload.StoredNameShape | src/app/api/upload/route.ts:40-46 | the name is 32 hex digits, "-", then the sanitised name, with no "/" or "\\" |
| Upload.Post | src/app/api/upload/route.ts:15-60 | 401, 400 without file or with an unknown type, 500 for inherited keys, 400 for a disallowed MIME type, 500 when writing fails; 200 exactly otherwise, with the upload URL |
| Upload.AcceptedUpload | src/app/api/upload/route.ts:10-13 | an accepted thumbnail is an image type and an accepted product file never is; the URL lies in the kind's upload directory and its file name has no "/" |
| Utils.InitialsCorrect | src/lib/utils.ts:15-21 | the i-th initial is the upper-cased first character of the i-th non-empty space-separated part, one per such part, never a space |
| Utils.WhitespacePassRedundant | src/lib/utils.ts:23-28 | the whitespace removal changes nothing the second filter would keep |
| Utils.UsernameCorrect | src/lib/utils.ts:23-28 | the username holds only [a-z0-9], is a subsequence of the lowercased name, and normalising it again changes nothing |
| Utils.IsValidEmail | src/lib/utils.ts:30-33 | true exactly when the text matches the email pattern |
| Utils.ValidEmailShape | src/lib/utils.ts:30-33 | a valid email has no whitespace and exactly one "@" |
| Utils.ToUint32 | src/lib/utils.ts:36 | `>>> 0` lands in [0, 2^32) |
| Utils.ExtensionStartBounds | src/lib/utils.ts:36 | the slice starts just past a dot at index at least 1, and past the end for indexes 0 and -1 |
| Utils.FileExtensionCorrect | src/lib/utils.ts:35-37 | the text after the last dot, without dots; "" when there is no dot or it is at index 0 |
| Utils.Truncate | src/lib/utils.ts:46-48 | short strings are unchanged; longer ones keep their first `length` characters and end in "..." |
| Utils.TruncateIdempotent | src/lib/utils.ts:46-48 | truncating twice equals truncating once |
| Utils.Pick | src/lib/utils.ts:58-59 | every draw picks a character of the alphabet |
| Utils.CodeOf | src/lib/utils.ts:52-63 | the code has 8 characters, all from A-Z0-9 |
| Utils.GenerateAffiliateCode | src/lib/utils.ts:52-63 | the loop builds exactly the character picked by each of the first eight draws |
| Utils.DrawFor | src/lib/utils.ts:58 | every alphabet character is picked by some draw |
| Utils.EveryCodeReachable | src/lib/utils.ts:52-63 | every 8-character code over the alphabet is produced by some draws |

## Left out

- **Failures and errors:**
  - Database failures other than an id collision are not modelled.
  - A `catch` answer is modelled only where the model can name its cause.
  - Console logging is left out.
- **Error bodies:** error replies carry only their status. The texts, and the
  chat routes' `error.message` bodies, are dropped.
- **Numbers:**
  - Prices, totals and discounts are exact reals, not IEEE doubles.
  - `Math.round` is `Floor(x + 0.5)`.
  - Quantities are integers; fractional JavaScript numbers in request bodies
    are not modelled.
- **Concurrency:** `Promise.all` in the webhook is modelled as creates run in
  list order. An id collision fails the delivery after the creates that came
  before it. Concurrent requests and Prisma transactions are not modelled.
- **Sorting:**
  - `orderBy` is a stable sort. The order of equal keys, and the order of
    query results without `orderBy`, is table order.
  - `Roles.Get` orders names by code point. The database orders
    `orderBy: { name: "asc" }` by its collation, which can differ, for
    example in how upper and lower case compare.
- **Outside services** are parameters, not code:
  - Stripe: the session URL, event construction and signature checking. The
    event is given already parsed, or `None` when `constructEvent` throws.
  - bcrypt `hash` and `compare`.
  - `Math.random`, `crypto.randomBytes`, the clock, `setMonth`.
  - Whether `writeFile` succeeds.
- **Dates:**
  - Timestamps are integers in milliseconds.
  - A day key is the day number rather than its ISO text; the two are in
    one-to-one correspondence.
  - Parsing of the sales date parameters is not modelled.
- **Text:**
  - Case mapping is ASCII only.
  - JavaScript whitespace is the set the model lists.
  - There is no Unicode handling.
- **Prisma includes and selects:** selected columns and nested includes are
  not modelled. This covers chat messages and last messages, the creator
  selects, the affiliate user select, the dashboard `balance`, and review
  `createdAt` as a date.
- **Schema defaults:**
  - `Orders.NewOrder`: the default order status is assumed to be "pending",
    because the Prisma schema is not part of this model.
  - `Roles.Post`: `isTeam` defaults to false.
  - `Affiliates.Post`: the commission is taken as given.
  - Store-settings ids and timestamps are not modelled.
  - `Settings.UpsertCorrect`: a created settings row stores an absent
    optional field (`automaticDelivery`, `notifyOnSale`, `discordServer`,
    `socialLinks`) as `None`. The database would fill in its column
    default, which the model does not know.
- **JSON values:** `null` and absent body fields are both `None`. The
  re-read portfolio after an item insert is assumed to exist, since its row
  was just read.
- `Sales.SalesByCategory`, `Sales.SalesByCreator` and `Sales.Get`: the
  dictionaries add numbers under every key. In the route, `acc[key]` on a
  plain `{}` reads a key inherited from `Object.prototype`. A category or
  creator username such as "constructor" or "toString" therefore gets a
  string value: the function's source text followed by the prices. The key
  "__proto__" is dropped from the dictionary. These keys are not modelled.
- `Utils.FileExtensionCorrect`: stated only for names shorter than 2^32
  characters. Beyond that, the 32-bit shift wraps differently.
- `Auth.Authorize`: the `catch` that turns a thrown database error into
  `null` is not modelled.
- `Utils.GetInitials` and `Utils.GenerateUsername` have no contract of their
  own. Their properties are the lemmas `Utils.InitialsCorrect` and
  `Utils.UsernameCorrect`.
- **Outside the core:** `formatPrice`, `formatDate`, `cn` and `sleep` format
  or delay only. They are not part of this model.
- **Rendering:** page components, the sign-in pages and the NextAuth wiring
  beyond the callbacks are not part of this model.
