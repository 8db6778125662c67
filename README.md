# himenu ordering core in Dafny

himenu is a food-ordering storefront. Customers browse a two-level menu, fill
a cart held in the browser, check out as dine-in or delivery with an optional
coupon, and earn loyalty points on a member account keyed by phone number.
Staff read revenue and profit reports. This project models the logic behind
those steps and proves what it promises:

- `common.dfy` (`Common`): `Option`/`Result`, JavaScript truthiness of an
  optional string, `Math.round(n / d)` on integers, and an order-preserving
  `Filter` with its properties.
- `catalog.dfy` (`Catalog`): category and item rows.
- `orders.dfy` (`Orders`): `POST /api/orders`. It covers request validation,
  re-pricing every cart line from the active catalog, the coupon discount,
  the totals and the snapshot lines. The `Store` class holds the `orders`,
  `order_items` and `members` tables that the handler appends to and upserts.
- `loyalty.dfy` (`Loyalty`): points per order, the four tiers and the
  member upsert.
- `public_menu.dfy` (`PublicMenu`): the menu tree served by
  `GET /api/public/menu`.
- `checkout.dfy` (`Checkout`): the checkout page's cart edits, its displayed
  subtotal, its pre-submit checks and the request body it builds.
- `menu_page.dfy` (`MenuPage`): "add to cart" on the menu page. The `Cart`
  class holds the stored cart list, which is updated in place.
- `reports.dfy` (`Reports`): `GET /api/admin/reports`. It covers the admin
  guard, the range table, the lookback window and the response shaping.

Modelling conventions:

- Money is whole currency units (`int`).
- A JSON field the client leaves out is `None`.
- The handler's database and clock become state and parameters:
  - the active-item lookup is the `catalog` map;
  - the coupon lookup is the `coupons` map;
  - `NOW()` is a `now` parameter;
  - the fresh order id is an `orderId` parameter;
  - the admin session check is a boolean;
  - the two report queries are functions of the format and window the
    handler passes to them.

## Model

| member | source | states |
|---|---|---|
| Orders.Validate | app/api/orders/route.ts:21-31 | The three checks, in order, each an if-and-only-if. Missing fields means the order type is absent or empty, or there are no items. Table required means dine-in without a table number. Customer info required means delivery missing a name, a phone or an address. Any other request passes. Every validation failure answers 400. |
| Orders.Status | app/api/orders/route.ts:21-47 | Definition: 400 for the three validation refusals, 500 for an unknown item (thrown at line 47 and answered by the catch at line 169). `Validate` states that every validation failure answers 400. |
| Orders.Message | app/api/orders/route.ts:21-47 | Definition: the error text of each refusal, and `Item not found: ` followed by the id for an unknown item. |
| Orders.Resolve | app/api/orders/route.ts:45-61 | Definition of the lookup-and-snapshot walk over the cart lines. Its properties are `ResolveOk`, `ResolveErr` and `ResolveErrPersists`. |
| Orders.SubtotalOf | app/api/orders/route.ts:49-52 | Definition of the running subtotal. Its properties are `SubtotalAppend`, `SubtotalNonNegative` and `ProfitIsSubtotalMinusCost`. |
| Orders.RawProfitOf | app/api/orders/route.ts:50-53 | Definition of the running profit before the discount. `ProfitIsSubtotalMinusCost` relates it to the subtotal. |
| Orders.Price | app/api/orders/route.ts:41-62 | Definition of what the pricing loop produces. `PriceItems` is proved equal to it. |
| Orders.SubtotalNonNegative | app/api/orders/route.ts:49-52 | Lines with non-negative prices and quantities have a non-negative subtotal. |
| Orders.ResolveOk | app/api/orders/route.ts:45-61 | The cart lines resolve exactly when every id is an active catalog item. The resulting lines then snapshot each cart line in cart order: id, catalog name, client quantity, catalog sale and cost price. |
| Orders.ResolveErr | app/api/orders/route.ts:45-47 | A failed resolution names the first cart line whose id is not an active item. All earlier lines are available. |
| Orders.ResolveErrPersists | app/api/orders/route.ts:45-47 | Once a prefix of the cart fails, every longer prefix fails with the same error. |
| Orders.ProfitIsSubtotalMinusCost | app/api/orders/route.ts:49-53 | The accumulated profit equals revenue minus cost. With non-negative costs and quantities it never exceeds the subtotal. |
| Orders.PriceItems | app/api/orders/route.ts:41-62 | The pricing loop returns exactly the specification `Price`: the first missing item as an error, or the subtotal, the raw profit and the snapshot lines. |
| Orders.ApplicableCoupon | app/api/orders/route.ts:65-72 | A coupon applies if and only if the code is non-empty, matches a stored code exactly and has no expiry or an expiry after `now`. The coupon that applies is that stored row. |
| Orders.Discount | app/api/orders/route.ts:73 | Without a coupon the discount is 0. With one it is `subtotal * percent / 100` rounded half up: at most half a unit away. |
| Orders.DiscountBounds | app/api/orders/route.ts:73-77 | For a percent in 0..100 and a non-negative subtotal: 0 <= discount <= subtotal, so the total is non-negative. |
| Orders.CouponDiscount | app/api/orders/route.ts:64-75 | The coupon step computes `Discount` of the applicable coupon. A missing, unknown or expired code gives 0. |
| Orders.QuoteFigures | app/api/orders/route.ts:41-78 | An accepted order has one snapshot line per cart line, in order. Its subtotal is the sum over those lines. The discount is that of the applicable coupon. `total = subtotal - discount` and `profit = raw profit - discount`. |
| Orders.QuoteErrors | app/api/orders/route.ts:21-62 | A validation failure wins over pricing. Otherwise an order fails if and only if some cart line is not an active item, and the error names the first such line. |
| Orders.UnusableCouponIsNoCoupon | app/api/orders/route.ts:64-75 | An absent, unknown or expired code gives the same result as no code, and any accepted order has discount 0. |
| Orders.QuoteOrder | app/api/orders/route.ts:21-78 | Definition of everything the handler computes before writing: validation, then pricing, then discount and totals. Its properties are `QuoteFigures`, `QuoteErrors`, `UnusableCouponIsNoCoupon` and `QuoteTotalNonNegative`, and `Store.PlaceOrder` is proved against it. |
| Orders.QuoteTotalNonNegative | app/api/orders/route.ts:41-78 | With non-negative catalog prices, non-negative quantities and coupon percents in 0..100, an accepted order has 0 <= discount <= subtotal and 0 <= total <= subtotal. This is the premise `Loyalty.CreditMonotone` needs, and the handler checks none of these inputs itself. |
| Orders.ItemRows | app/api/orders/route.ts:88-94 | One `order_items` row per snapshot line, in order, each carrying the order id. |
| Orders.MembersAfter | app/api/orders/route.ts:96-122 | Definition: the member table is credited with the points of the total only when the order carries a non-empty phone, and is unchanged otherwise. `Store.PlaceOrder` states its member table through it. |
| Orders.Store.PlaceOrder | app/api/orders/route.ts:16-171 | A refused request returns its error and changes no table. An accepted one returns `{orderId, subtotal, discount, total, profit}`. It appends one `pending` order row and the line rows in cart order. It credits the member only when a phone is given. Every line row belongs to a stored order, and every member's tier matches its points. |
| Orders.Store.InsertOrder | app/api/orders/route.ts:82-86 | Appends exactly the order row and keeps every line row attached to an order. |
| Orders.Store.InsertOrderItems | app/api/orders/route.ts:88-94 | The insert loop appends exactly `ItemRows` of the lines, in order. |
| Orders.Store.UpsertMember | app/api/orders/route.ts:99-122 | The member table becomes `Credit` of the old one, so tiers stay consistent. |
| Loyalty.TierOf | app/api/orders/route.ts:103-106 | Platinum if and only if points >= 10000. Gold if and only if 5000..9999. Silver if and only if 1000..4999. Regular below 1000. The tier's rank counts the thresholds reached. |
| Loyalty.ChooseTier | app/api/orders/route.ts:103-116 | The handler's `let tier` if-chain computes `TierOf`. |
| Loyalty.TierMonotone | app/api/orders/route.ts:103-106 | More points never give a lower tier. |
| Loyalty.PointsEarned | app/api/orders/route.ts:97 | `Math.round(total / 1000)`: within half a point of `total / 1000`, and non-negative for a non-negative total. |
| Loyalty.Credit | app/api/orders/route.ts:99-122 | Only the phone's entry changes. An existing member gains exactly the earned points and keeps its name if it has one. A new member starts with the earned points and the given name. The stored tier is the tier of the new balance. |
| Loyalty.CreditKeepsTiers | app/api/orders/route.ts:101-121 | After a credit, every member's tier is still the tier of its points. |
| Loyalty.CreditMonotone | app/api/orders/route.ts:96-122 | With a non-negative order total, no member's points or tier go down. |
| PublicMenu.MenuTree | app/api/public/menu/route.ts:24-32 | Definition of the response tree. Its properties are `TreeRoots`, `TreeChildren`, `TreeItems`, `ItemPlacement` and `ItemInOneNode`. |
| PublicMenu.TreeRoots | app/api/public/menu/route.ts:24-25 | The top level is exactly the categories without a (non-empty) parent, in input order. |
| PublicMenu.TreeChildren | app/api/public/menu/route.ts:27 | The children of a root are exactly the filter of the category rows by that parent: each such row appears as often as in the input, in input order, and no other row appears. |
| PublicMenu.TreeItems | app/api/public/menu/route.ts:18-31 | Each node lists exactly the filter of the active item rows by its own category: each such row appears as often as in the input, in input order, and no inactive or foreign row appears. |
| PublicMenu.ItemPlacement | app/api/public/menu/route.ts:24-32 | An item appears in the tree if and only if it is active and its category is a root or a direct child of a root. |
| PublicMenu.ItemInOneNode | app/api/public/menu/route.ts:24-32 | With unique non-empty category ids, no item appears under two nodes. |
| Checkout.UpdateQuantity | app/checkout/page.tsx:33-36 | Same length and order. Other lines are unchanged. Matching lines change only their quantity, to `max(1, quantity + delta)`. |
| Checkout.UpdateQuantityKeeps | app/checkout/page.tsx:33-36 | Ids, unique ids and positive quantities are kept. An absent id changes nothing. |
| Checkout.UpdateQuantitySubtotal | app/checkout/page.tsx:33-47 | With unique ids, the subtotal moves by price times the matching line's change in quantity. |
| Checkout.RemoveItem | app/checkout/page.tsx:41-42 | Keeps exactly the lines with another id: every copy of such a line stays (same multiplicity), no line with the id stays, and the kept lines are an order-preserving subsequence of the cart. |
| Checkout.RemoveItemSubtotal | app/checkout/page.tsx:41-47 | The subtotal and the total quantity drop by exactly those of the removed lines. |
| Checkout.MatchingUnique | app/checkout/page.tsx:42 | With unique ids, a removal drops exactly the one line with that id. |
| Checkout.SubtotalAppend | app/checkout/page.tsx:47 | The cart subtotal and total quantity are additive over concatenation. |
| Checkout.Subtotal | app/checkout/page.tsx:47 | Definition of the displayed subtotal. Its properties are `SubtotalAppend`, `UpdateQuantitySubtotal`, `RemoveItemSubtotal` and `ServerSubtotalMatchesCart`. |
| Checkout.CouponInput | app/checkout/page.tsx:229 | Same length, no lower-case ASCII letter left, and every other character unchanged. |
| Checkout.CouponInputIdempotent | app/checkout/page.tsx:229 | Upper-casing again changes nothing. |
| Checkout.ItemsPayload | app/checkout/page.tsx:71 | One `{id, quantity}` per cart line, in order, with no price. |
| Checkout.Submit | app/checkout/page.tsx:52-77 | Three refusals, each an if-and-only-if: empty cart, dine-in without a table, delivery missing a name, phone or address. Otherwise the body has the order type and the cart's ids and quantities. A dine-in body carries the typed table number and no customer details. A delivery body carries the typed name, phone and address and no table number. The typed coupon code is sent exactly when it is non-empty. |
| Checkout.SubmittedPassesServerValidation | app/checkout/page.tsx:52-77 | Every body the page sends passes the server's `Validate`. |
| Checkout.ServerSubtotalMatchesCart | app/checkout/page.tsx:47 | If every cart line is an active item at the cart's price, the server resolves the cart and its subtotal equals the subtotal the page showed. |
| MenuPage.Added | app/menu/page.tsx:39-51 | Reference definition of adding an item to a cart. `AddedAtFirstMatch`, `AddedWithoutMatch`, `AddedCounts` and `AddedKeepsCartInvariant` state what it does, and `Cart.AddToCart` is proved equal to it. |
| MenuPage.FindIndex | app/menu/page.tsx:41 | Returns the first index holding the id, or -1 when none does. |
| MenuPage.AddedAtFirstMatch | app/menu/page.tsx:41-44 | When the id is present, adding bumps the quantity of its first line by one and changes nothing else. |
| MenuPage.AddedWithoutMatch | app/menu/page.tsx:45-46 | When the id is absent, adding appends one line with quantity 1. |
| MenuPage.AddedCounts | app/menu/page.tsx:39-51 | Adding raises the total quantity by exactly 1. The line count grows by one only for a new id. |
| MenuPage.AddedKeepsCartInvariant | app/menu/page.tsx:39-51 | Adding keeps ids unique and quantities at least 1. |
| MenuPage.Cart.AddToCart | app/menu/page.tsx:39-51 | The in-place update leaves the cart equal to `Added` of the old cart. It keeps ids unique and raises the total quantity by 1. |
| Reports.EffectiveRange | app/api/admin/reports/route.ts:16 | Definition: the requested range, or `day` when the parameter is absent or empty. |
| Reports.Settings | app/api/admin/reports/route.ts:18-34 | Definition of the range table, with the day settings for any unknown name. `SelectRange` is proved equal to it, and `DayWindow`, `WeekWindow`, `MonthWindow` and `YearWindow` give its windows. |
| Reports.SelectRange | app/api/admin/reports/route.ts:16-34 | The if-chain computes the settings of the range parameter, with `day` when it is absent or empty. Any unknown range gets the day settings. |
| Reports.DayWindow | app/api/admin/reports/route.ts:16-20 | The day range looks back 24 hours and labels buckets `HH24:00`. |
| Reports.WeekWindow | app/api/admin/reports/route.ts:22-25 | The week range looks back 7 days and labels buckets `DD/MM`. |
| Reports.MonthWindow | app/api/admin/reports/route.ts:26-29 | The month range looks back 30 days and labels buckets `DD/MM`. |
| Reports.YearWindow | app/api/admin/reports/route.ts:30-33 | The year range looks back 12 months and labels buckets `MM/YYYY`. |
| Reports.UnitOf | app/api/admin/reports/route.ts:42 | For an interval written `<n> <unit>`, the window's unit is `interval.split(' ')[1]`, which is `<unit>`. |
| Reports.Split | app/api/admin/reports/route.ts:42 | `split` gives at least one piece, and no piece contains the separator. |
| Reports.SplitJoin | app/api/admin/reports/route.ts:42 | Joining the pieces of a split gives back the string. |
| Reports.Shape | app/api/admin/reports/route.ts:58-67 | Three series with one entry per bucket row, in row order. Labels are copied. A null revenue or profit becomes 0, and so do null totals and an unparsable count. |
| Reports.Get | app/api/admin/reports/route.ts:9-67 | A non-admin gets 401 `Unauthorized` whatever the queries would return. An admin gets the shaped results of the queries run with the format and lookback window of the effective range. |

## Left out

- Database access is not modelled as I/O:
  - the SQL queries are maps or parameters;
  - each statement is taken to succeed;
  - a failing insert that leaves a partial order (there is no transaction) is not modelled, and neither are concurrent orders.
- The Telegram notification (app/api/orders/route.ts:125-162) is left out. It is a network call whose failure is caught and logged, and it does not affect the response.
- JWT session verification is left out; the report handler receives its verdict as a boolean. `lib/auth` is not part of this model.
- `nanoid()` and `NOW()` are left out; they are parameters.
- The `created_at` bucketing and `TO_CHAR` formatting done by the database are left out. `Reports.Get` takes the query results as functions.
- Floating-point arithmetic is replaced by integer arithmetic: prices are whole currency units, and `Math.round` is exact rounding half up. Float error in `subtotal * percent / 100` is not modelled.
- The server does not check the type or sign of quantities, and the model keeps them as unconstrained integers. A non-numeric quantity is out of scope, and so is a `table_number` sent as a number.
- `Checkout.CouponInput`: upper-cases ASCII letters only. `toUpperCase` also maps other scripts, and `ß` becomes two characters, which the model does not capture.
- The browser's `localStorage` JSON round-trip, React state, toasts and navigation are left out:
  - the stored cart is the `MenuPage.Cart` object's `lines`;
  - the checkout page's functions take the cart as a value.
- A menu item added to the cart keeps all its fields in the source. The model's cart line keeps only the fields the checkout page's `CartItem` type declares.
- The menu page's `sale_price: number | string` is taken to be a number.
- Query orderings (`ORDER BY pos, name`, `ORDER BY name`, `ORDER BY MIN(created_at)`) are taken as the order of the input sequences rather than re-derived.
- The admin CRUD routes, the account and login routes, schema creation and demo seeding are not part of this model.
