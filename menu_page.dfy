/** "Add to cart" on the menu page (app/menu/page.tsx:39-51): the stored
    cart list is searched for the item's id; a hit has its quantity bumped in
    place, a miss appends a new line with quantity 1. */
module MenuPage {
  import opened Common
  import opened Catalog
  import opened Checkout

  /** The new cart line for an item: its fields with a quantity of one, seen
      through the cart line's fields. */
  function NewLine(item: Item): CartItem {
    CartItem(item.id, item.name, item.imageUrl, item.salePrice, 1)
  }

  /** Reference definition of adding an item: walk the cart from the front;
      the first line with the item's id gains one unit, and if no line has it a
      new line goes at the end. */
  function Added(cart: seq<CartItem>, item: Item): seq<CartItem> {
    if cart == [] then [NewLine(item)]
    else if cart[0].id == item.id then [cart[0].(quantity := cart[0].quantity + 1)] + cart[1..]
    else [cart[0]] + Added(cart[1..], item)
  }

  /** The search for the item in the stored cart: the first index holding the
      id, or -1 when none does. */
  method FindIndex(cart: seq<CartItem>, id: Id) returns (index: int)
    ensures -1 <= index < |cart|
    ensures index >= 0 ==> cart[index].id == id
    ensures forall k :: 0 <= k < |cart| && (index == -1 || k < index) ==> cart[k].id != id
  {
    var k := 0;
    while k < |cart|
      invariant 0 <= k <= |cart|
      invariant forall j :: 0 <= j < k ==> cart[j].id != id
    {
      if cart[k].id == id {
        return k;
      }
      k := k + 1;
    }
    return -1;
  }

  /** When the first line with the id is at `k`, adding bumps exactly that line. */
  lemma {:induction false} AddedAtFirstMatch(cart: seq<CartItem>, item: Item, k: nat)
    requires k < |cart| && cart[k].id == item.id
    requires forall j :: 0 <= j < k ==> cart[j].id != item.id
    ensures Added(cart, item) == cart[k := cart[k].(quantity := cart[k].quantity + 1)]
  {
    if k > 0 {
      AddedAtFirstMatch(cart[1..], item, k - 1);
      assert cart[1..][k - 1 := cart[k].(quantity := cart[k].quantity + 1)] ==
        cart[k := cart[k].(quantity := cart[k].quantity + 1)][1..];
    }
  }

  /** When no line has the id, adding appends one new line with quantity 1. */
  lemma {:induction false} AddedWithoutMatch(cart: seq<CartItem>, item: Item)
    requires forall j :: 0 <= j < |cart| ==> cart[j].id != item.id
    ensures Added(cart, item) == cart + [NewLine(item)]
  {
    if cart != [] {
      AddedWithoutMatch(cart[1..], item);
      assert cart == [cart[0]] + cart[1..];
    }
  }

  /** Adding raises the total quantity by exactly one and keeps the length
      when the id is present, or grows it by one line when it is not. */
  lemma {:induction false} AddedCounts(cart: seq<CartItem>, item: Item)
    ensures TotalQuantity(Added(cart, item)) == TotalQuantity(cart) + 1
    ensures |Added(cart, item)| == |cart| + (if exists j :: 0 <= j < |cart| && cart[j].id == item.id then 0 else 1)
  {
    if cart != [] {
      AddedCounts(cart[1..], item);
      if cart[0].id != item.id {
        assert (exists j :: 0 <= j < |cart| && cart[j].id == item.id) <==>
          (exists j :: 0 <= j < |cart[1..]| && cart[1..][j].id == item.id) by {
          if exists j :: 0 <= j < |cart| && cart[j].id == item.id {
            var j :| 0 <= j < |cart| && cart[j].id == item.id;
            assert cart[1..][j - 1] == cart[j];
          }
        }
      }
    }
  }

  /** Adding keeps cart ids unique and quantities at least 1. */
  lemma AddedKeepsCartInvariant(cart: seq<CartItem>, item: Item)
    ensures UniqueCartIds(cart) ==> UniqueCartIds(Added(cart, item))
    ensures QuantitiesPositive(cart) ==> QuantitiesPositive(Added(cart, item))
  {
    var r := Added(cart, item);
    if exists k :: 0 <= k < |cart| && cart[k].id == item.id {
      var k := FirstIndexOf(cart, item.id);
      AddedAtFirstMatch(cart, item, k);
    } else {
      AddedWithoutMatch(cart, item);
    }
  }

  /** The first position of an id that the cart holds. */
  lemma FirstIndexOf(cart: seq<CartItem>, id: Id) returns (k: nat)
    requires exists j :: 0 <= j < |cart| && cart[j].id == id
    ensures k < |cart| && cart[k].id == id
    ensures forall j :: 0 <= j < k ==> cart[j].id != id
  {
    k := 0;
    while cart[k].id != id
      invariant k < |cart|
      invariant forall j :: 0 <= j < k ==> cart[j].id != id
      decreases |cart| - k
    {
      k := k + 1;
    }
  }

  /** The cart list that `addToCart` reads from and writes back to storage. */
  class Cart {
    var lines: seq<CartItem>

    constructor (saved: seq<CartItem>)
      ensures lines == saved
    {
      lines := saved;
    }

    /** Adding an item from the menu: bump the quantity of its line in place,
        or append a new line. */
    method AddToCart(item: Item)
      modifies this
      ensures lines == Added(old(lines), item)
      ensures UniqueCartIds(old(lines)) ==> UniqueCartIds(lines)
      ensures TotalQuantity(lines) == TotalQuantity(old(lines)) + 1
    {
      var existingIndex := FindIndex(lines, item.id);
      if existingIndex >= 0 {
        AddedAtFirstMatch(lines, item, existingIndex);
        lines := lines[existingIndex := lines[existingIndex].(quantity := lines[existingIndex].quantity + 1)];
      } else {
        AddedWithoutMatch(lines, item);
        lines := lines + [NewLine(item)];
      }
      AddedKeepsCartInvariant(old(lines), item);
      AddedCounts(old(lines), item);
    }
  }
}
