/** Placing an order (POST /api/orders, app/api/orders/route.ts): request
    validation, re-pricing every cart line from the active catalog, the
    coupon discount, the totals, persisting the order with its line
    snapshots, and the loyalty credit. */
module Orders {
  import opened Common
  import opened Catalog
  import opened Loyalty

  const DineIn := "dine-in"
  const Delivery := "delivery"
  const Pending := "pending"

  /** One cart line as the client submits it: an id and a quantity, no price.
      The server does not check the quantity. */
  datatype RequestLine = RequestLine(id: Id, quantity: int)

  /** The JSON body of POST /api/orders; a field the client leaves out is
      `None`, and a missing `items` list is the empty list. */
  datatype OrderRequest = OrderRequest(
    orderType: Option<string>,
    items: seq<RequestLine>,
    tableNumber: Option<string>,
    customerName: Option<string>,
    customerPhone: Option<string>,
    customerAddress: Option<string>,
    couponCode: Option<string>)

  datatype OrderError =
    | MissingFields
    | TableRequired
    | CustomerInfoRequired
    | ItemNotFound(id: Id)

  /** HTTP status of each failure: the three validation failures answer 400;
      an unknown item is thrown and answers 500. */
  function Status(e: OrderError): int {
    if e.ItemNotFound? then 500 else 400
  }

  function Message(e: OrderError): string {
    match e
    case MissingFields => "Missing required fields"
    case TableRequired => "Table number required for dine-in"
    case CustomerInfoRequired => "Customer info required for delivery"
    case ItemNotFound(id) => "Item not found: " + id
  }

  // ---------------------------------------------------------------- validation

  /** The three request checks, in the order the handler makes them; `None`
      when the request may go on to pricing. */
  function Validate(req: OrderRequest): (r: Option<OrderError>)
    ensures r == Some(MissingFields) <==> !Truthy(req.orderType) || req.items == []
    ensures r == Some(TableRequired) <==>
      Truthy(req.orderType) && req.items != [] &&
      req.orderType.value == DineIn && !Truthy(req.tableNumber)
    ensures r == Some(CustomerInfoRequired) <==>
      Truthy(req.orderType) && req.items != [] && req.orderType.value == Delivery &&
      !(Truthy(req.customerName) && Truthy(req.customerPhone) && Truthy(req.customerAddress))
    ensures r.None? <==>
      Truthy(req.orderType) && req.items != [] &&
      (req.orderType.value == DineIn ==> Truthy(req.tableNumber)) &&
      (req.orderType.value == Delivery ==>
        Truthy(req.customerName) && Truthy(req.customerPhone) && Truthy(req.customerAddress))
    ensures r.Some? ==> Status(r.value) == 400
  {
    if !Truthy(req.orderType) || req.items == [] then Some(MissingFields)
    else if req.orderType.value == DineIn && !Truthy(req.tableNumber) then Some(TableRequired)
    else if req.orderType.value == Delivery &&
      (!Truthy(req.customerName) || !Truthy(req.customerPhone) || !Truthy(req.customerAddress))
    then Some(CustomerInfoRequired)
    else None
  }

  // ------------------------------------------------------------------- pricing

  /** An order line as persisted: the catalog's name and prices at order time,
      decoupled from later catalog edits. */
  datatype OrderLine = OrderLine(itemId: Id, itemName: string, quantity: int, salePrice: int, costPrice: int)

  /** The handler looks the cart ids up among the active items only, so a
      line resolves exactly when its id names an active catalog item. */
  predicate Available(catalog: map<Id, Item>, id: Id) {
    id in catalog && catalog[id].active
  }

  function Snapshot(catalog: map<Id, Item>, line: RequestLine): OrderLine
    requires Available(catalog, line.id)
  {
    var m := catalog[line.id];
    OrderLine(line.id, m.name, line.quantity, m.salePrice, m.costPrice)
  }

  /** The lines of the order, in cart order, or the first cart line whose id is
      not an active catalog item. */
  function Resolve(catalog: map<Id, Item>, lines: seq<RequestLine>): Result<seq<OrderLine>, OrderError>
  {
    if lines == [] then Ok([])
    else
      var last := lines[|lines| - 1];
      match Resolve(catalog, lines[..|lines| - 1])
      case Err(e) => Err(e)
      case Ok(done) =>
        if Available(catalog, last.id) then Ok(done + [Snapshot(catalog, last)])
        else Err(ItemNotFound(last.id))
  }

  /** Revenue of the lines: sale price times quantity, summed. */
  function SubtotalOf(lines: seq<OrderLine>): int {
    if lines == [] then 0
    else
      var last := lines[|lines| - 1];
      SubtotalOf(lines[..|lines| - 1]) + last.salePrice * last.quantity
  }

  /** Margin of the lines: sale price less cost price, times quantity, summed. */
  function RawProfitOf(lines: seq<OrderLine>): int {
    if lines == [] then 0
    else
      var last := lines[|lines| - 1];
      RawProfitOf(lines[..|lines| - 1]) + (last.salePrice - last.costPrice) * last.quantity
  }

  /** Cost of the lines: cost price times quantity, summed. */
  function CostOf(lines: seq<OrderLine>): int {
    if lines == [] then 0
    else
      var last := lines[|lines| - 1];
      CostOf(lines[..|lines| - 1]) + last.costPrice * last.quantity
  }

  datatype Pricing = Pricing(subtotal: int, rawProfit: int, lines: seq<OrderLine>)

  /** What the pricing loop produces from the catalog and the cart lines. */
  function Price(catalog: map<Id, Item>, items: seq<RequestLine>): Result<Pricing, OrderError> {
    match Resolve(catalog, items)
    case Err(e) => Err(e)
    case Ok(lines) => Ok(Pricing(SubtotalOf(lines), RawProfitOf(lines), lines))
  }

  /** Resolving succeeds exactly when every cart line names an active item; it
      then snapshots every line, in cart order. */
  lemma {:induction false} ResolveOk(catalog: map<Id, Item>, lines: seq<RequestLine>)
    ensures Resolve(catalog, lines).Ok? <==> forall k :: 0 <= k < |lines| ==> Available(catalog, lines[k].id)
    ensures Resolve(catalog, lines).Ok? ==>
      var snaps := Resolve(catalog, lines).value;
      |snaps| == |lines| &&
      forall k :: 0 <= k < |lines| ==> Available(catalog, lines[k].id) && snaps[k] == Snapshot(catalog, lines[k])
  {
    if lines != [] {
      var init := lines[..|lines| - 1];
      ResolveOk(catalog, init);
      assert forall k :: 0 <= k < |init| ==> lines[k] == init[k];
    }
  }

  /** On failure the error names the first cart line whose id is not an active
      item. */
  lemma {:induction false} ResolveErr(catalog: map<Id, Item>, lines: seq<RequestLine>)
    requires Resolve(catalog, lines).Err?
    ensures exists k ::
      && 0 <= k < |lines|
      && !Available(catalog, lines[k].id)
      && Resolve(catalog, lines).error == ItemNotFound(lines[k].id)
      && (forall j :: 0 <= j < k ==> Available(catalog, lines[j].id))
  {
    var init := lines[..|lines| - 1];
    assert forall k :: 0 <= k < |init| ==> lines[k] == init[k];
    if Resolve(catalog, init).Err? {
      ResolveErr(catalog, init);
      var k :| 0 <= k < |init| &&
        !Available(catalog, init[k].id) &&
        Resolve(catalog, init).error == ItemNotFound(init[k].id) &&
        forall j :: 0 <= j < k ==> Available(catalog, init[j].id);
      assert lines[k] == init[k];
    } else {
      ResolveOk(catalog, init);
      assert !Available(catalog, lines[|lines| - 1].id);
    }
  }

  /** Once a prefix of the cart fails to resolve, so does every longer prefix,
      with the same error: later lines cannot mask an earlier miss. */
  lemma {:induction false} ResolveErrPersists(catalog: map<Id, Item>, lines: seq<RequestLine>, i: nat, j: nat)
    requires i <= j <= |lines|
    requires Resolve(catalog, lines[..i]).Err?
    ensures Resolve(catalog, lines[..j]) == Resolve(catalog, lines[..i])
    decreases j
  {
    if j > i {
      ResolveErrPersists(catalog, lines, i, j - 1);
      assert lines[..j][..j - 1] == lines[..j - 1];
    }
  }

  /** Subtotals add up over any split of the lines. */
  lemma {:induction false} SubtotalAppend(a: seq<OrderLine>, b: seq<OrderLine>)
    ensures SubtotalOf(a + b) == SubtotalOf(a) + SubtotalOf(b)
    ensures RawProfitOf(a + b) == RawProfitOf(a) + RawProfitOf(b)
    ensures CostOf(a + b) == CostOf(a) + CostOf(b)
    decreases |b|
  {
    if b == [] {
      assert a + b == a;
    } else {
      var init := b[..|b| - 1];
      SubtotalAppend(a, init);
      assert (a + b)[..|a + b| - 1] == a + init;
      assert (a + b)[|a + b| - 1] == b[|b| - 1];
    }
  }

  /** The raw profit is the revenue minus what the sold items cost; with
      non-negative costs and quantities it never exceeds the subtotal. */
  lemma {:induction false} ProfitIsSubtotalMinusCost(lines: seq<OrderLine>)
    ensures RawProfitOf(lines) == SubtotalOf(lines) - CostOf(lines)
    ensures (forall k :: 0 <= k < |lines| ==> lines[k].costPrice >= 0 && lines[k].quantity >= 0) ==>
      RawProfitOf(lines) <= SubtotalOf(lines)
  {
    if lines != [] {
      var init := lines[..|lines| - 1];
      var last := lines[|lines| - 1];
      ProfitIsSubtotalMinusCost(init);
      assert (last.salePrice - last.costPrice) * last.quantity ==
        last.salePrice * last.quantity - last.costPrice * last.quantity;
      if forall k :: 0 <= k < |lines| ==> lines[k].costPrice >= 0 && lines[k].quantity >= 0 {
        assert forall k :: 0 <= k < |init| ==> init[k] == lines[k];
        NonNegativeProduct(last.costPrice, last.quantity);
      }
    }
  }

  lemma NonNegativeProduct(a: int, b: int)
    requires a >= 0 && b >= 0
    ensures a * b >= 0
  {
  }

  /** The pricing loop of the handler: for each cart line, look the id up among
      the active items (abort on a miss), add the line's revenue and profit to
      the running totals and push its snapshot. */
  method PriceItems(catalog: map<Id, Item>, items: seq<RequestLine>) returns (r: Result<Pricing, OrderError>)
    ensures r == Price(catalog, items)
  {
    var subtotal := 0;
    var totalProfit := 0;
    var orderItems: seq<OrderLine> := [];
    var i := 0;
    while i < |items|
      invariant 0 <= i <= |items|
      invariant Resolve(catalog, items[..i]) == Ok(orderItems)
      invariant subtotal == SubtotalOf(orderItems)
      invariant totalProfit == RawProfitOf(orderItems)
    {
      var it := items[i];
      assert items[..i + 1][..i] == items[..i] && items[..i + 1][i] == it;
      if !(it.id in catalog && catalog[it.id].active) {
        ResolveErrPersists(catalog, items, i + 1, |items|);
        assert items[..|items|] == items;
        return Err(ItemNotFound(it.id));
      }
      var m := catalog[it.id];
      var itemSubtotal := m.salePrice * it.quantity;
      var itemProfit := (m.salePrice - m.costPrice) * it.quantity;
      subtotal := subtotal + itemSubtotal;
      totalProfit := totalProfit + itemProfit;
      var line := OrderLine(it.id, m.name, it.quantity, m.salePrice, m.costPrice);
      assert (orderItems + [line])[..|orderItems|] == orderItems;
      orderItems := orderItems + [line];
      i := i + 1;
    }
    assert items[..|items|] == items;
    r := Ok(Pricing(subtotal, totalProfit, orderItems));
  }

  // ------------------------------------------------------------------- coupons

  /** A `coupons` row keyed by its (upper-case) code; `expiresAt` absent means
      the coupon never expires. */
  datatype Coupon = Coupon(percent: int, expiresAt: Option<int>)

  /** A coupon is usable when it has no expiry or expires strictly after `now`. */
  predicate Usable(c: Coupon, now: int) {
    c.expiresAt.None? || c.expiresAt.value > now
  }

  /** The coupon the order gets: only a non-empty code that exactly matches a
      stored, unexpired coupon. */
  function ApplicableCoupon(coupons: map<string, Coupon>, code: Option<string>, now: int): (c: Option<Coupon>)
    ensures c.Some? <==> Truthy(code) && code.value in coupons && Usable(coupons[code.value], now)
    ensures c.Some? ==> c.value == coupons[code.value]
  {
    if Truthy(code) && code.value in coupons && Usable(coupons[code.value], now)
    then Some(coupons[code.value])
    else None
  }

  /** The coupon's percentage of the subtotal, rounded to the nearest unit
      (halves up); no discount without a coupon. */
  function Discount(subtotal: int, coupon: Option<Coupon>): (d: int)
    ensures coupon.None? ==> d == 0
    ensures coupon.Some? ==>
      200 * d <= 2 * (subtotal * coupon.value.percent) + 100 < 200 * d + 200
  {
    if coupon.Some? then RoundDiv(subtotal * coupon.value.percent, 100) else 0
  }

  /** For a percent between 0 and 100 and a non-negative subtotal the discount
      is never negative and never more than the subtotal, so the total is
      never negative. */
  lemma DiscountBounds(subtotal: int, coupon: Option<Coupon>)
    requires subtotal >= 0
    requires coupon.Some? ==> 0 <= coupon.value.percent <= 100
    ensures 0 <= Discount(subtotal, coupon) <= subtotal
  {
    if coupon.Some? {
      var p := coupon.value.percent;
      assert 0 <= subtotal * p <= subtotal * 100 by {
        NonNegativeProduct(subtotal, p);
        NonNegativeProduct(subtotal, 100 - p);
      }
    }
  }

  // ------------------------------------------------------------ the whole order

  /** The figures of an accepted order. */
  datatype Quote = Quote(subtotal: int, discount: int, total: int, profit: int, lines: seq<OrderLine>)

  /** What the handler computes before writing anything: the validation
      outcome, then pricing, then the discount and the totals. */
  function QuoteOrder(req: OrderRequest, catalog: map<Id, Item>, coupons: map<string, Coupon>, now: int): Result<Quote, OrderError>
  {
    match Validate(req)
    case Some(e) => Err(e)
    case None =>
      match Resolve(catalog, req.items)
      case Err(e) => Err(e)
      case Ok(lines) =>
        var subtotal := SubtotalOf(lines);
        var discount := Discount(subtotal, ApplicableCoupon(coupons, req.couponCode, now));
        Ok(Quote(subtotal, discount, subtotal - discount, RawProfitOf(lines) - discount, lines))
  }

  /** An accepted order: its lines snapshot the cart in order at the catalog's
      prices, `subtotal` and the raw profit are the sums over those lines,
      `total = subtotal - discount` and `profit = rawProfit - discount`. */
  lemma QuoteFigures(req: OrderRequest, catalog: map<Id, Item>, coupons: map<string, Coupon>, now: int)
    requires QuoteOrder(req, catalog, coupons, now).Ok?
    ensures var q := QuoteOrder(req, catalog, coupons, now).value;
      && |q.lines| == |req.items|
      && (forall k :: 0 <= k < |req.items| ==>
            Available(catalog, req.items[k].id) && q.lines[k] == Snapshot(catalog, req.items[k]))
      && q.subtotal == SubtotalOf(q.lines)
      && q.discount == Discount(q.subtotal, ApplicableCoupon(coupons, req.couponCode, now))
      && q.total == q.subtotal - q.discount
      && q.profit == RawProfitOf(q.lines) - q.discount
  {
    ResolveOk(catalog, req.items);
  }

  /** Which requests are refused, and with what: a validation failure wins over
      pricing; otherwise the order fails exactly when some cart line is not an
      active item, naming the first such line. */
  lemma QuoteErrors(req: OrderRequest, catalog: map<Id, Item>, coupons: map<string, Coupon>, now: int)
    ensures Validate(req).Some? ==> QuoteOrder(req, catalog, coupons, now) == Err(Validate(req).value)
    ensures Validate(req).None? ==>
      (QuoteOrder(req, catalog, coupons, now).Err? <==>
        exists k :: 0 <= k < |req.items| && !Available(catalog, req.items[k].id))
    ensures Validate(req).None? && QuoteOrder(req, catalog, coupons, now).Err? ==>
      exists k ::
        && 0 <= k < |req.items|
        && !Available(catalog, req.items[k].id)
        && QuoteOrder(req, catalog, coupons, now).error == ItemNotFound(req.items[k].id)
        && (forall j :: 0 <= j < k ==> Available(catalog, req.items[j].id))
  {
    ResolveOk(catalog, req.items);
    if Validate(req).None? && Resolve(catalog, req.items).Err? {
      ResolveErr(catalog, req.items);
    }
  }

  /** With non-negative catalog prices, non-negative quantities and coupon
      percents between 0 and 100, an accepted order's total lies between 0 and
      its subtotal, so crediting it never lowers a member's points
      (`Loyalty.CreditMonotone`). The handler checks none of these itself. */
  lemma QuoteTotalNonNegative(req: OrderRequest, catalog: map<Id, Item>, coupons: map<string, Coupon>, now: int)
    requires QuoteOrder(req, catalog, coupons, now).Ok?
    requires forall id :: id in catalog ==> catalog[id].salePrice >= 0
    requires forall k :: 0 <= k < |req.items| ==> req.items[k].quantity >= 0
    requires forall code :: code in coupons ==> 0 <= coupons[code].percent <= 100
    ensures var q := QuoteOrder(req, catalog, coupons, now).value;
      0 <= q.discount <= q.subtotal && 0 <= q.total <= q.subtotal
  {
    var q := QuoteOrder(req, catalog, coupons, now).value;
    QuoteFigures(req, catalog, coupons, now);
    SubtotalNonNegative(q.lines);
    DiscountBounds(q.subtotal, ApplicableCoupon(coupons, req.couponCode, now));
  }

  /** Lines with non-negative prices and quantities have a non-negative
      subtotal. */
  lemma {:induction false} SubtotalNonNegative(lines: seq<OrderLine>)
    requires forall k :: 0 <= k < |lines| ==> lines[k].salePrice >= 0 && lines[k].quantity >= 0
    ensures SubtotalOf(lines) >= 0
  {
    if lines != [] {
      var last := lines[|lines| - 1];
      SubtotalNonNegative(lines[..|lines| - 1]);
      NonNegativeProduct(last.salePrice, last.quantity);
    }
  }

  /** A code that is absent, unknown or expired is not an error: the order is
      priced exactly as if no code had been given. */
  lemma UnusableCouponIsNoCoupon(req: OrderRequest, catalog: map<Id, Item>, coupons: map<string, Coupon>, now: int)
    requires !Truthy(req.couponCode) || req.couponCode.value !in coupons ||
      !Usable(coupons[req.couponCode.value], now)
    ensures QuoteOrder(req, catalog, coupons, now) == QuoteOrder(req.(couponCode := None), catalog, coupons, now)
    ensures QuoteOrder(req, catalog, coupons, now).Ok? ==> QuoteOrder(req, catalog, coupons, now).value.discount == 0
  {
  }

  /** The coupon step of the handler: only a non-empty code is looked up, and
      only an exact, unexpired match gives a discount. */
  method CouponDiscount(coupons: map<string, Coupon>, code: Option<string>, now: int, subtotal: int) returns (discount: int)
    ensures discount == Discount(subtotal, ApplicableCoupon(coupons, code, now))
  {
    discount := 0;
    if Truthy(code) {
      var c := code.value;
      if c in coupons && Usable(coupons[c], now) {
        discount := RoundDiv(subtotal * coupons[c].percent, 100);
      }
    }
  }

  // --------------------------------------------------------------- persistence

  /** An `orders` row. */
  datatype Order = Order(
    id: Id,
    orderType: string,
    customerName: Option<string>,
    customerPhone: Option<string>,
    customerAddress: Option<string>,
    tableNumber: Option<string>,
    subtotal: int,
    discount: int,
    total: int,
    profit: int,
    couponCode: Option<string>,
    status: string)

  /** An `order_items` row: the owning order and the line snapshot. */
  datatype OrderItemRow = OrderItemRow(orderId: Id, line: OrderLine)

  /** The response body `{orderId, subtotal, discount, total, profit}`. */
  datatype OrderSummary = OrderSummary(orderId: Id, subtotal: int, discount: int, total: int, profit: int)

  function OrderRow(orderId: Id, req: OrderRequest, q: Quote): Order
    requires Truthy(req.orderType)
  {
    Order(orderId, req.orderType.value, req.customerName, req.customerPhone, req.customerAddress,
      req.tableNumber, q.subtotal, q.discount, q.total, q.profit, req.couponCode, Pending)
  }

  function ItemRows(orderId: Id, lines: seq<OrderLine>): (rows: seq<OrderItemRow>)
    ensures |rows| == |lines|
    ensures forall k :: 0 <= k < |lines| ==> rows[k] == OrderItemRow(orderId, lines[k])
  {
    seq(|lines|, k requires 0 <= k < |lines| => OrderItemRow(orderId, lines[k]))
  }

  /** The loyalty table after an order: credited only when the order carries a
      phone number. */
  function MembersAfter(members: map<string, Member>, req: OrderRequest, total: int): map<string, Member> {
    if Truthy(req.customerPhone)
    then Credit(members, req.customerPhone.value, req.customerName, PointsEarned(total))
    else members
  }

  predicate HasOrder(orders: seq<Order>, id: Id) {
    exists j :: 0 <= j < |orders| && orders[j].id == id
  }

  /** Appending orders never loses one. */
  lemma HasOrderGrows(orders: seq<Order>, more: seq<Order>, id: Id)
    requires HasOrder(orders, id)
    ensures HasOrder(orders + more, id)
  {
    var j :| 0 <= j < |orders| && orders[j].id == id;
    assert (orders + more)[j] == orders[j];
  }

  /** The tables the order handler reads and writes. */
  class Store {
    var catalog: map<Id, Item>
    var coupons: map<string, Coupon>
    var orders: seq<Order>
    var orderItems: seq<OrderItemRow>
    var members: map<string, Member>

    /** Every order line belongs to a stored order, and every member's tier is
        the tier of its points. */
    ghost predicate Valid()
      reads this
    {
      && TiersConsistent(members)
      && forall k :: 0 <= k < |orderItems| ==> HasOrder(orders, orderItems[k].orderId)
    }

    constructor (catalog: map<Id, Item>, coupons: map<string, Coupon>)
      ensures Valid()
      ensures this.catalog == catalog && this.coupons == coupons
      ensures orders == [] && orderItems == [] && members == map[]
    {
      this.catalog := catalog;
      this.coupons := coupons;
      orders := [];
      orderItems := [];
      members := map[];
    }

    /** POST /api/orders. `orderId` is the fresh id the handler draws and `now`
        the time coupon expiry is compared with. A refused order writes no row
        at all; an accepted one appends one order, one line row per cart line
        in cart order, and credits the member when a phone is given. */
    method PlaceOrder(req: OrderRequest, orderId: Id, now: int) returns (resp: Result<OrderSummary, OrderError>)
      requires Valid()
      modifies this`orders, this`orderItems, this`members
      ensures Valid()
      ensures match QuoteOrder(req, catalog, coupons, now)
        case Err(e) =>
          && resp == Err(e)
          && orders == old(orders) && orderItems == old(orderItems) && members == old(members)
        case Ok(q) =>
          && resp == Ok(OrderSummary(orderId, q.subtotal, q.discount, q.total, q.profit))
          && orders == old(orders) + [OrderRow(orderId, req, q)]
          && orderItems == old(orderItems) + ItemRows(orderId, q.lines)
          && members == MembersAfter(old(members), req, q.total)
    {
      var invalid := Validate(req);
      if invalid.Some? {
        return Err(invalid.value);
      }
      var priced := PriceItems(catalog, req.items);
      if priced.Err? {
        return Err(priced.error);
      }
      var subtotal, totalProfit, lines := priced.value.subtotal, priced.value.rawProfit, priced.value.lines;
      var discount := CouponDiscount(coupons, req.couponCode, now, subtotal);
      var total := subtotal - discount;
      var profit := totalProfit - discount;
      var q := Quote(subtotal, discount, total, profit, lines);
      assert QuoteOrder(req, catalog, coupons, now) == Ok(q);

      InsertOrder(OrderRow(orderId, req, q));
      InsertOrderItems(orderId, lines);
      if Truthy(req.customerPhone) {
        var points := PointsEarned(total);
        UpsertMember(req.customerPhone.value, req.customerName, points);
      }
      resp := Ok(OrderSummary(orderId, subtotal, discount, total, profit));
    }

    /** Storing the order row. */
    method InsertOrder(o: Order)
      requires Valid()
      modifies this`orders
      ensures Valid()
      ensures orders == old(orders) + [o]
      ensures HasOrder(orders, o.id)
    {
      forall j | 0 <= j < |orderItems| ensures HasOrder(orders + [o], orderItems[j].orderId) {
        HasOrderGrows(orders, [o], orderItems[j].orderId);
      }
      orders := orders + [o];
      assert orders[|orders| - 1] == o;
    }

    /** Storing one line row per order line, in line order. */
    method InsertOrderItems(orderId: Id, lines: seq<OrderLine>)
      requires Valid() && HasOrder(orders, orderId)
      modifies this`orderItems
      ensures Valid()
      ensures orderItems == old(orderItems) + ItemRows(orderId, lines)
    {
      var k := 0;
      while k < |lines|
        invariant 0 <= k <= |lines|
        invariant orderItems == old(orderItems) + ItemRows(orderId, lines[..k])
        invariant Valid()
      {
        orderItems := orderItems + [OrderItemRow(orderId, lines[k])];
        assert ItemRows(orderId, lines[..k + 1]) == ItemRows(orderId, lines[..k]) + [OrderItemRow(orderId, lines[k])];
        k := k + 1;
      }
      assert lines[..|lines|] == lines;
    }

    /** The member upsert: an existing member gets the new balance, the tier of
        that balance and keeps a name it has; otherwise a member is inserted. */
    method UpsertMember(phone: string, name: Option<string>, points: int)
      requires Valid()
      modifies this`members
      ensures Valid()
      ensures members == Credit(old(members), phone, name, points)
    {
      if phone in members {
        var newPoints := members[phone].points + points;
        var tier := ChooseTier(newPoints);
        var kept := if members[phone].name.Some? then members[phone].name else name;
        members := members[phone := Member(kept, newPoints, tier)];
      } else {
        var tier := ChooseTier(points);
        members := members[phone := Member(name, points, tier)];
      }
    }
  }
}
