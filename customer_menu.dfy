/** The customer's menu page: what it shows of the cart and the stock, the
    quantity checks its buttons make before calling the server, and the two
    sections the menu is split into. The server's answers are parameters. */
module CustomerMenu {
  import opened Wrappers
  import opened Text
  import opened Models
  import opened Seqs
  import OrderController

  /** A menu entry as the page receives it. */
  datatype MenuItem = MenuItem(id: FoodId, name: string, price: int, quantityAvailable: int, isMenuOfTheDay: bool)

  /** The cart as the page holds it: the pending order's lines and total. */
  datatype Cart = Cart(items: seq<Line>, totalAmount: int)

  const EmptyCart: Cart := Cart([], 0)

  /** `getCurrentCartQuantity(itemId)`: the quantity of the first cart line
      for the item, 0 when there is none. */
  function CurrentCartQuantity(lines: seq<Line>, id: FoodId): (q: int)
    ensures (forall i :: 0 <= i < |lines| ==> lines[i].foodItem != id) ==> q == 0
    ensures DistinctItems(lines) ==>
      forall i :: 0 <= i < |lines| && lines[i].foodItem == id ==> q == lines[i].quantity
  {
    var i := OrderController.FindLine(lines, id);
    if i >= 0 then lines[i].quantity else 0
  }

  /** `getAvailableQuantity(itemId, stock)`: the stock not yet in the cart. */
  function AvailableQuantity(lines: seq<Line>, id: FoodId, stock: int): (a: int)
    ensures a + CurrentCartQuantity(lines, id) == stock
  {
    stock - CurrentCartQuantity(lines, id)
  }

  /** The page offers exactly what the server will accept: asking for `q`
      more is within the shown availability iff the merged line fits the stock. */
  lemma AvailableMatchesServer(lines: seq<Line>, id: FoodId, stock: int, q: int)
    ensures q <= AvailableQuantity(lines, id, stock) <==> OrderController.MergedQuantity(lines, id, q) <= stock
  {
  }

  /** `!quantity || quantity <= 0`: a missing or non-positive quantity is refused. */
  predicate ValidQuantity(q: Option<int>) {
    q.Some? && q.value > 0
  }

  /** The quantity `handleSubtractFromCart` asks the server for: 0, which
      removes the line, when subtracting at least what is in the cart, and
      the difference otherwise. */
  function SubtractTarget(current: int, quantity: int): (r: int)
    ensures r >= 0
    ensures quantity >= current ==> r == 0
    ensures quantity < current ==> r == current - quantity && 0 < r
    ensures quantity > 0 && current > 0 ==> r < current
  {
    if quantity >= current then 0 else current - quantity
  }

  predicate InStock(m: MenuItem) {
    m.quantityAvailable > 0
  }

  predicate InMenuOfTheDay(m: MenuItem) {
    m.isMenuOfTheDay && m.quantityAvailable > 0
  }

  predicate InRegular(m: MenuItem) {
    !m.isMenuOfTheDay && m.quantityAvailable > 0
  }

  /** The "Menu of the Day" section and the regular section: neither shares an
      entry with the other, each keeps the catalogue's order, every entry in
      stock appears in one of them, and together they are exactly as long as
      the list of entries in stock. */
  lemma SectionsPartitionStock(items: seq<MenuItem>)
    ensures var special := Filter(items, InMenuOfTheDay);
            var regular := Filter(items, InRegular);
            && (forall x :: x in special ==> x !in regular)
            && IsSubsequence(special, items) && IsSubsequence(regular, items)
            && (forall i :: 0 <= i < |items| && InStock(items[i]) ==> items[i] in special || items[i] in regular)
            && |special| + |regular| == Count(items, InStock)
  {
    var special := Filter(items, InMenuOfTheDay);
    var regular := Filter(items, InRegular);
    forall x | x in special
      ensures x !in regular
    {
      var i :| 0 <= i < |special| && special[i] == x;
      assert InMenuOfTheDay(x);
    }
    FilterIsSubsequence(items, InMenuOfTheDay);
    FilterIsSubsequence(items, InRegular);
    FilterSplit(items, InStock, InMenuOfTheDay, InRegular);
  }

  /** The page's state. */
  class MenuPage {
    var items: seq<MenuItem>
    var cart: Cart
    var quantities: map<FoodId, int>
    var error: string
    var showCart: bool

    constructor ()
      ensures items == [] && cart == EmptyCart && quantities == map[] && error == "" && !showCart
    {
      items := [];
      cart := EmptyCart;
      quantities := map[];
      error := "";
      showCart := false;
    }

    /** `handleQuantityChange(itemId, quantity)`. */
    method HandleQuantityChange(itemId: FoodId, quantity: int)
      modifies this
      ensures quantities == old(quantities)[itemId := quantity]
      ensures items == old(items) && cart == old(cart) && error == old(error) && showCart == old(showCart)
    {
      quantities := quantities[itemId := quantity];
    }

    /** `handleAddToCart(itemId, quantity)`, with `reply` the server's answer:
        an invalid quantity only sets the error and sends nothing; otherwise
        the returned cart replaces the page's and the field is reset to 0. */
    method HandleAddToCart(itemId: FoodId, quantity: Option<int>, reply: Result<Cart, Option<string>>)
      returns (sent: bool)
      modifies this
      ensures sent <==> ValidQuantity(quantity)
      ensures !sent ==> error == "Please select a valid quantity"
                        && cart == old(cart) && quantities == old(quantities)
      ensures sent && reply.Ok? ==> cart == reply.value && quantities == old(quantities)[itemId := 0] && error == ""
      ensures sent && reply.Err? ==> cart == old(cart) && quantities == old(quantities)
                                      && error == MessageOr(reply.error, "Failed to add to cart")
      ensures items == old(items) && showCart == old(showCart)
    {
      if quantity.None? || quantity.value <= 0 {
        error := "Please select a valid quantity";
        return false;
      }
      sent := true;
      error := "";
      if reply.Ok? {
        cart := reply.value;
        quantities := quantities[itemId := 0];
      } else {
        error := MessageOr(reply.error, "Failed to add to cart");
      }
    }

    /** `handleUpdateCartItem(itemId, quantity)`: the returned cart replaces the page's. */
    method HandleUpdateCartItem(itemId: FoodId, quantity: int, reply: Result<Cart, Option<string>>)
      modifies this
      ensures reply.Ok? ==> cart == reply.value && error == ""
      ensures reply.Err? ==> cart == old(cart) && error == MessageOr(reply.error, "Failed to update cart")
      ensures items == old(items) && quantities == old(quantities) && showCart == old(showCart)
    {
      error := "";
      if reply.Ok? {
        cart := reply.value;
      } else {
        error := MessageOr(reply.error, "Failed to update cart");
      }
    }

    /** `handleSubtractFromCart(itemId, quantity)`: returns the quantity it asks
        the server to set, never negative, or `None` when the quantity was invalid. */
    method HandleSubtractFromCart(itemId: FoodId, quantity: Option<int>, reply: Result<Cart, Option<string>>)
      returns (requested: Option<int>)
      modifies this
      ensures requested.Some? <==> ValidQuantity(quantity)
      ensures requested.None? ==> error == "Please select a valid quantity to subtract"
                                  && cart == old(cart) && quantities == old(quantities)
      ensures requested.Some? ==>
        && requested.value == SubtractTarget(CurrentCartQuantity(old(cart).items, itemId), quantity.value)
        && requested.value >= 0
        && quantities == old(quantities)[itemId := 0]
        && (reply.Ok? ==> cart == reply.value && error == "")
        && (reply.Err? ==> cart == old(cart) && error == MessageOr(reply.error, "Failed to update cart"))
      ensures items == old(items) && showCart == old(showCart)
    {
      if quantity.None? || quantity.value <= 0 {
        error := "Please select a valid quantity to subtract";
        return None;
      }
      var currentCartQuantity := CurrentCartQuantity(cart.items, itemId);
      var target := SubtractTarget(currentCartQuantity, quantity.value);
      HandleUpdateCartItem(itemId, target, reply);
      quantities := quantities[itemId := 0];
      requested := Some(target);
    }

    /** `handleConfirmOrder()`: after a confirmation the cart shown is empty
        with total 0, and the cart panel is closed. */
    method HandleConfirmOrder(reply: Result<(), Option<string>>)
      modifies this
      ensures reply.Ok? ==> cart == EmptyCart && cart.items == [] && cart.totalAmount == 0 && !showCart && error == ""
      ensures reply.Err? ==> cart == old(cart) && showCart == old(showCart)
                             && error == MessageOr(reply.error, "Failed to confirm order")
      ensures items == old(items) && quantities == old(quantities)
    {
      error := "";
      if reply.Ok? {
        cart := EmptyCart;
        showCart := false;
      } else {
        error := MessageOr(reply.error, "Failed to confirm order");
      }
    }
  }
}
