/** The client-side cart logic of the checkout page (app/checkout/page.tsx):
    changing a line's quantity, removing a line, the displayed subtotal, the
    checks made before submitting and the request body it sends. */
module Checkout {
  import opened Common
  import Catalog
  import Orders

  /** A cart line as kept in the browser (`CartItem`). */
  datatype CartItem = CartItem(id: Catalog.Id, name: string, imageUrl: string, salePrice: int, quantity: int)

  /** Cart ids are unique: the menu page merges repeated additions. */
  predicate UniqueCartIds(cart: seq<CartItem>) {
    UniqueBy(cart, (line: CartItem) => line.id)
  }

  predicate QuantitiesPositive(cart: seq<CartItem>) {
    forall k :: 0 <= k < |cart| ==> cart[k].quantity >= 1
  }

  /** Sum of the quantities of all lines. */
  function TotalQuantity(cart: seq<CartItem>): int {
    if cart == [] then 0 else cart[0].quantity + TotalQuantity(cart[1..])
  }

  function LineTotal(line: CartItem): int {
    line.salePrice * line.quantity
  }

  // --------------------------------------------------------------- cart edits

  function Max(a: int, b: int): int {
    if a >= b then a else b
  }

  /** `updateQuantity(id, delta)`: every line with that id gets quantity
      `max(1, quantity + delta)`; all other lines, the length and the order are
      kept. */
  function UpdateQuantity(cart: seq<CartItem>, id: Catalog.Id, delta: int): (r: seq<CartItem>)
    ensures |r| == |cart|
    ensures forall k :: 0 <= k < |cart| && cart[k].id != id ==> r[k] == cart[k]
    ensures forall k :: 0 <= k < |cart| && cart[k].id == id ==>
      r[k] == cart[k].(quantity := r[k].quantity) &&
      r[k].quantity >= 1 && r[k].quantity >= cart[k].quantity + delta &&
      (r[k].quantity == 1 || r[k].quantity == cart[k].quantity + delta)
  {
    seq(|cart|, k requires 0 <= k < |cart| =>
      if cart[k].id == id then cart[k].(quantity := Max(1, cart[k].quantity + delta)) else cart[k])
  }

  /** `removeItem(id)`: drops every line with that id and keeps the others in
      their order. */
  function RemoveItem(cart: seq<CartItem>, id: Catalog.Id): (r: seq<CartItem>)
    ensures forall x :: x in r <==> x in cart && x.id != id
    ensures forall x :: multiset(r)[x] == if x.id != id then multiset(cart)[x] else 0
    ensures IsSubsequence(r, cart)
  {
    FilterIsSubsequence(cart, (line: CartItem) => line.id != id);
    FilterCount(cart, (line: CartItem) => line.id != id);
    Filter(cart, (line: CartItem) => line.id != id)
  }

  /** The lines a removal drops. */
  function Matching(cart: seq<CartItem>, id: Catalog.Id): seq<CartItem> {
    Filter(cart, (line: CartItem) => line.id == id)
  }

  /** The subtotal the page displays: each line's price times its quantity,
      summed over the cart. */
  function Subtotal(cart: seq<CartItem>): int {
    if cart == [] then 0 else LineTotal(cart[0]) + Subtotal(cart[1..])
  }

  /** The subtotal sums over any split of the cart. */
  lemma {:induction false} SubtotalAppend(a: seq<CartItem>, b: seq<CartItem>)
    ensures Subtotal(a + b) == Subtotal(a) + Subtotal(b)
    ensures TotalQuantity(a + b) == TotalQuantity(a) + TotalQuantity(b)
  {
    if a == [] {
      assert a + b == b;
    } else {
      SubtotalAppend(a[1..], b);
      assert (a + b)[1..] == a[1..] + b;
    }
  }

  /** Changing quantities keeps every id, hence unique ids, and keeps every
      quantity at least 1; an id not in the cart changes nothing. */
  lemma UpdateQuantityKeeps(cart: seq<CartItem>, id: Catalog.Id, delta: int)
    ensures var r := UpdateQuantity(cart, id, delta);
      && (forall k :: 0 <= k < |cart| ==> r[k].id == cart[k].id)
      && (UniqueCartIds(cart) ==> UniqueCartIds(r))
      && (QuantitiesPositive(cart) ==> QuantitiesPositive(r))
      && ((forall k :: 0 <= k < |cart| ==> cart[k].id != id) ==> r == cart)
  {
  }

  /** With unique ids the subtotal moves by the price times the quantity change
      of the one matching line. */
  lemma {:induction false} UpdateQuantitySubtotal(cart: seq<CartItem>, id: Catalog.Id, delta: int, k: nat)
    requires UniqueCartIds(cart) && k < |cart| && cart[k].id == id
    ensures Subtotal(UpdateQuantity(cart, id, delta)) ==
      Subtotal(cart) + cart[k].salePrice * (UpdateQuantity(cart, id, delta)[k].quantity - cart[k].quantity)
  {
    var r := UpdateQuantity(cart, id, delta);
    var t := cart[1..];
    assert r[1..] == UpdateQuantity(t, id, delta);
    UniqueCartIdsTail(cart);
    if k == 0 {
      UpdateQuantityKeeps(t, id, delta);
    } else {
      UniqueCartIdsAt(cart, 0, k);
      UpdateQuantitySubtotal(t, id, delta, k - 1);
    }
  }

  /** Removing a product takes exactly its lines' amount off the subtotal and
      their quantity off the total quantity. */
  lemma {:induction false} RemoveItemSubtotal(cart: seq<CartItem>, id: Catalog.Id)
    ensures Subtotal(cart) == Subtotal(RemoveItem(cart, id)) + Subtotal(Matching(cart, id))
    ensures TotalQuantity(cart) == TotalQuantity(RemoveItem(cart, id)) + TotalQuantity(Matching(cart, id))
  {
    if cart != [] {
      RemoveItemSubtotal(cart[1..], id);
    }
  }

  /** With unique ids, the lines a removal drops are the one line with that id
      (or none). */
  lemma {:induction false} MatchingUnique(cart: seq<CartItem>, id: Catalog.Id, k: nat)
    requires UniqueCartIds(cart) && k < |cart| && cart[k].id == id
    ensures Matching(cart, id) == [cart[k]]
  {
    var t := cart[1..];
    UniqueCartIdsTail(cart);
    if k == 0 {
      NoneMatching(t, id);
    } else {
      UniqueCartIdsAt(cart, 0, k);
      MatchingUnique(t, id, k - 1);
    }
  }

  /** In a cart with unique ids, two different positions hold different ids. */
  lemma UniqueCartIdsAt(cart: seq<CartItem>, x: nat, y: nat)
    requires UniqueCartIds(cart) && x < |cart| && y < |cart| && x != y
    ensures cart[x].id != cart[y].id
  {
  }

  /** Dropping the first line of a cart with unique ids leaves unique ids, none
      of them the first line's. */
  lemma UniqueCartIdsTail(cart: seq<CartItem>)
    requires UniqueCartIds(cart) && cart != []
    ensures UniqueCartIds(cart[1..])
    ensures forall m :: 0 <= m < |cart| - 1 ==> cart[1..][m].id != cart[0].id
  {
    var t := cart[1..];
    forall x, y | 0 <= x < |t| && 0 <= y < |t| && x != y ensures t[x].id != t[y].id {
      UniqueCartIdsAt(cart, x + 1, y + 1);
    }
    forall m | 0 <= m < |t| ensures t[m].id != cart[0].id {
      UniqueCartIdsAt(cart, m + 1, 0);
    }
  }

  lemma {:induction false} NoneMatching(cart: seq<CartItem>, id: Catalog.Id)
    requires forall k :: 0 <= k < |cart| ==> cart[k].id != id
    ensures Matching(cart, id) == []
  {
    if cart != [] {
      NoneMatching(cart[1..], id);
    }
  }

  // ------------------------------------------------------------ submission

  datatype OrderKind = DineIn | Delivery

  function KindName(k: OrderKind): string {
    match k
    case DineIn => Orders.DineIn
    case Delivery => Orders.Delivery
  }

  /** The checkout form's fields; an untouched field is the empty string. */
  datatype Form = Form(orderType: OrderKind, tableNumber: string, name: string, phone: string, address: string, couponCode: string)

  datatype CheckoutError = EmptyCart | NeedTable | NeedDeliveryInfo

  /** The coupon field's `onChange`: the typed text, upper-cased. */
  function CouponInput(typed: string): (r: string)
    ensures |r| == |typed|
    ensures forall k :: 0 <= k < |r| ==> !('a' <= r[k] <= 'z')
    ensures forall k :: 0 <= k < |r| ==> r[k] == typed[k] || ('a' <= typed[k] <= 'z' && r[k] as int == typed[k] as int - 32)
  {
    seq(|typed|, k requires 0 <= k < |typed| => UpperChar(typed[k]))
  }

  function UpperChar(c: char): char {
    if 'a' <= c <= 'z' then (c as int - 32) as char else c
  }

  /** Typing an already upper-cased code again changes nothing. */
  lemma CouponInputIdempotent(typed: string)
    ensures CouponInput(CouponInput(typed)) == CouponInput(typed)
  {
  }

  /** The request's item list: each cart line reduced to its id and quantity,
      in cart order; no price is sent. */
  function ItemsPayload(cart: seq<CartItem>): (items: seq<Orders.RequestLine>)
    ensures |items| == |cart|
    ensures forall k :: 0 <= k < |cart| ==> items[k].id == cart[k].id && items[k].quantity == cart[k].quantity
  {
    seq(|cart|, k requires 0 <= k < |cart| => Orders.RequestLine(cart[k].id, cart[k].quantity))
  }

  function IfKind(kind: OrderKind, wanted: OrderKind, value: string): Option<string> {
    if kind == wanted then Some(value) else None
  }

  /** `handleSubmit` up to the request: the three checks in order, then the
      request body. A table number is sent only for dine-in, customer details
      only for delivery, and an empty coupon code not at all. */
  function Submit(cart: seq<CartItem>, form: Form): (r: Result<Orders.OrderRequest, CheckoutError>)
    ensures r == Err(EmptyCart) <==> cart == []
    ensures r == Err(NeedTable) <==> cart != [] && form.orderType == DineIn && form.tableNumber == ""
    ensures r == Err(NeedDeliveryInfo) <==>
      cart != [] && form.orderType == Delivery && (form.name == "" || form.phone == "" || form.address == "")
    ensures r.Ok? ==>
      && r.value.orderType == Some(KindName(form.orderType))
      && r.value.items == ItemsPayload(cart)
      && (r.value.tableNumber.Some? <==> form.orderType == DineIn)
      && (r.value.customerName.Some? <==> form.orderType == Delivery)
      && (r.value.customerPhone.Some? <==> form.orderType == Delivery)
      && (r.value.customerAddress.Some? <==> form.orderType == Delivery)
      && (r.value.couponCode.Some? <==> form.couponCode != "")
    ensures r.Ok? && form.orderType == DineIn ==> r.value.tableNumber == Some(form.tableNumber)
    ensures r.Ok? && form.orderType == Delivery ==>
      && r.value.customerName == Some(form.name)
      && r.value.customerPhone == Some(form.phone)
      && r.value.customerAddress == Some(form.address)
    ensures r.Ok? && form.couponCode != "" ==> r.value.couponCode == Some(form.couponCode)
  {
    if cart == [] then Err(EmptyCart)
    else if form.orderType == DineIn && form.tableNumber == "" then Err(NeedTable)
    else if form.orderType == Delivery && (form.name == "" || form.phone == "" || form.address == "") then Err(NeedDeliveryInfo)
    else Ok(Orders.OrderRequest(
      Some(KindName(form.orderType)),
      ItemsPayload(cart),
      IfKind(form.orderType, DineIn, form.tableNumber),
      IfKind(form.orderType, Delivery, form.name),
      IfKind(form.orderType, Delivery, form.phone),
      IfKind(form.orderType, Delivery, form.address),
      if form.couponCode == "" then None else Some(form.couponCode)))
  }

  /** Whatever the page lets through passes the server's own request checks. */
  lemma SubmittedPassesServerValidation(cart: seq<CartItem>, form: Form)
    requires Submit(cart, form).Ok?
    ensures Orders.Validate(Submit(cart, form).value).None?
  {
  }

  /** When every cart line still names an active item at the price the cart
      shows, the server accepts the lines and computes the subtotal the page
      displayed; the server never reads the cart's prices, only the catalog's. */
  lemma {:induction false} ServerSubtotalMatchesCart(cart: seq<CartItem>, catalog: map<Catalog.Id, Catalog.Item>)
    requires forall k :: 0 <= k < |cart| ==>
      Orders.Available(catalog, cart[k].id) && catalog[cart[k].id].salePrice == cart[k].salePrice
    ensures Orders.Resolve(catalog, ItemsPayload(cart)).Ok?
    ensures Orders.SubtotalOf(Orders.Resolve(catalog, ItemsPayload(cart)).value) == Subtotal(cart)
  {
    if cart != [] {
      var init := cart[..|cart| - 1];
      var last := cart[|cart| - 1];
      ServerSubtotalMatchesCart(init, catalog);
      assert ItemsPayload(cart)[..|cart| - 1] == ItemsPayload(init);
      SubtotalAppend(init, [last]);
      assert init + [last] == cart;
    }
  }
}
