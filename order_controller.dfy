/** The cart and order handlers of the backend (`orderController.js`): every
    customer's pending order is the cart, lines are merged or appended with the
    price and name of the moment, confirmation checks every line against stock
    before decrementing any, and the kitchen reads the active orders newest first.
    The `orders` collection is a sequence whose positions are the order ids. */
module OrderController {
  import opened Wrappers
  import opened Models
  import Database

  /** The error responses of the handlers. */
  datatype CartError =
    | ItemNotFound                                   // 404 "Item not found"
    | OnlyAvailable(available: int)                  // 400 "Only N items available"
    | WouldExceedStock(quantity: int, available: int) // 400 "Cannot add q more. ..."
    | CartNotFound                                   // 404 "Cart not found"
    | ItemNotInCart                                  // 404 "Item not in cart"
    | CartEmpty                                      // 400 "Cart is empty"
    | InsufficientStock(name: string, available: int) // 400 "Insufficient stock for ..."
    | OrderNotFound                                  // 404 "Order not found"
    | ServerError                                    // 500: a thrown exception or a failed save

  /** What `getCart` sends: the pending order's lines and total. */
  datatype CartView = CartView(items: seq<Line>, totalAmount: int)

  predicate IsPendingOf(o: Order, user: UserId) {
    o.user == user && o.status == Pending
  }

  /** `Order.findOne({ user, status: "pending" })`: the first pending order of
      the user, or -1. */
  function FindPending(orders: seq<Order>, user: UserId): (k: int)
    ensures -1 <= k < |orders|
    ensures k >= 0 ==> IsPendingOf(orders[k], user)
    ensures k >= 0 ==> forall i :: 0 <= i < k ==> !IsPendingOf(orders[i], user)
    ensures k < 0 ==> forall i :: 0 <= i < |orders| ==> !IsPendingOf(orders[i], user)
  {
    if orders == [] then -1
    else if IsPendingOf(orders[0], user) then 0
    else
      var k := FindPending(orders[1..], user);
      if k < 0 then -1 else k + 1
  }

  /** `items.findIndex(item => item.foodItem.toString() === itemId)`. */
  function FindLine(lines: seq<Line>, id: FoodId): (i: int)
    ensures -1 <= i < |lines|
    ensures i >= 0 ==> lines[i].foodItem == id
    ensures i >= 0 ==> forall j :: 0 <= j < i ==> lines[j].foodItem != id
    ensures i < 0 ==> forall j :: 0 <= j < |lines| ==> lines[j].foodItem != id
  {
    if lines == [] then -1
    else if lines[0].foodItem == id then 0
    else
      var i := FindLine(lines[1..], id);
      if i < 0 then -1 else i + 1
  }

  /** Each user has at most one pending order. */
  predicate OnePendingPerUser(orders: seq<Order>) {
    forall i, j :: 0 <= i < j < |orders| && orders[i].status == Pending && orders[j].status == Pending
      ==> orders[i].user != orders[j].user
  }

  /** A stored order: valid for its schema, one line per food item, and a total
      that is the sum of its lines. */
  predicate WellFormed(o: Order) {
    SchemaValidOrder(o) && DistinctItems(o.items) && o.totalAmount == CartTotal(o.items)
  }

  /** The invariant of the `orders` collection: ids are positions, every order
      is well formed, and no user has two pending orders. */
  ghost predicate ValidOrders(orders: seq<Order>) {
    && (forall i :: 0 <= i < |orders| ==> orders[i].id == i && WellFormed(orders[i]))
    && OnePendingPerUser(orders)
  }

  /** Overwriting an order with a well-formed one that is pending only if it
      was the same user's pending order keeps the invariant. */
  lemma ReplaceOrder(orders: seq<Order>, k: nat, o: Order)
    requires ValidOrders(orders) && k < |orders| && o.id == k && WellFormed(o)
    requires o.status == Pending ==> IsPendingOf(orders[k], o.user)
    ensures ValidOrders(orders[k := o])
    ensures o.createdAt == orders[k].createdAt && Chronological(orders) ==> Chronological(orders[k := o])
  {
  }

  /** Orders in non-decreasing order of creation time. */
  predicate Chronological(orders: seq<Order>) {
    forall i, j :: 0 <= i < j < |orders| ==> orders[i].createdAt <= orders[j].createdAt
  }

  /** The user's cart: the pending order if there is one, otherwise the new
      empty order that `addToCart` would create. */
  function CartOf(orders: seq<Order>, user: UserId, now: int): (o: Order)
    ensures IsPendingOf(o, user)
    ensures FindPending(orders, user) >= 0 ==> o == orders[FindPending(orders, user)]
    ensures OnePendingPerUser(orders) ==>
      forall i :: 0 <= i < |orders| && IsPendingOf(orders[i], user) ==> o == orders[i]
    ensures (forall i :: 0 <= i < |orders| ==> !IsPendingOf(orders[i], user)) ==>
      o.id == |orders| && o.items == [] && o.totalAmount == 0 && o.createdAt == now
  {
    var k := FindPending(orders, user);
    if k >= 0 then orders[k] else Order(|orders|, user, [], 0, DefaultStatus, now)
  }

  /** `order.save()`: an existing order is overwritten, a new one appended. */
  function Save(orders: seq<Order>, o: Order): seq<Order> {
    if o.id < |orders| then orders[o.id := o] else orders + [o]
  }

  /** The quantity the line for `id` would have after adding `quantity`. */
  function MergedQuantity(lines: seq<Line>, id: FoodId, quantity: int): int {
    var i := FindLine(lines, id);
    if i >= 0 then lines[i].quantity + quantity else quantity
  }

  /** The lines after adding: merged into the line of the same item, or appended
      with the current price and name. */
  function AddLine(lines: seq<Line>, id: FoodId, quantity: int, food: FoodItem): seq<Line> {
    var i := FindLine(lines, id);
    if i >= 0 then lines[i := lines[i].(quantity := lines[i].quantity + quantity)]
    else lines + [Line(id, quantity, food.price, food.name)]
  }

  /** The cart that a successful `addToCart` saves. */
  function AddedCart(orders: seq<Order>, user: UserId, now: int, id: FoodId, quantity: int,
                     food: FoodItem): Order
  {
    var cart := CartOf(orders, user, now);
    var lines := AddLine(cart.items, id, quantity, food);
    cart.(items := lines, totalAmount := CartTotal(lines))
  }

  function RemoveAt(lines: seq<Line>, i: nat): seq<Line>
    requires i < |lines|
  {
    lines[..i] + lines[i + 1..]
  }

  /** The cart after `updateCartItem` on line `i`: removed when the quantity is at
      most 0, otherwise given the new quantity; the total recomputed. */
  function UpdatedCart(cart: Order, i: nat, quantity: int): Order
    requires i < |cart.items|
  {
    var lines := if quantity <= 0 then RemoveAt(cart.items, i)
                 else cart.items[i := cart.items[i].(quantity := quantity)];
    cart.(items := lines, totalAmount := CartTotal(lines))
  }

  /** Why a single line cannot be confirmed: its food item is gone (the
      populated reference is null and reading its stock throws) or it asks for
      more than is in stock. */
  function LineProblem(l: Line, items: map<FoodId, FoodItem>): Option<CartError> {
    if l.foodItem !in items then Some(ServerError)
    else if l.quantity > items[l.foodItem].quantityAvailable then
      Some(InsufficientStock(items[l.foodItem].name, items[l.foodItem].quantityAvailable))
    else None
  }

  /** The first line that cannot be confirmed, as the check loop finds it. */
  function StockProblem(lines: seq<Line>, items: map<FoodId, FoodItem>): Option<CartError> {
    if lines == [] then None
    else if LineProblem(lines[0], items).Some? then LineProblem(lines[0], items)
    else StockProblem(lines[1..], items)
  }

  /** The `$inc: { quantityAvailable: -quantity }` updates, one per line in
      order; an update of a missing document does nothing. */
  function Decrement(items: map<FoodId, FoodItem>, lines: seq<Line>): map<FoodId, FoodItem> {
    if lines == [] then items
    else Debit(Decrement(items, lines[..|lines| - 1]), lines[|lines| - 1])
  }

  /** One `findByIdAndUpdate(..., { $inc: ... })`. */
  function Debit(items: map<FoodId, FoodItem>, l: Line): map<FoodId, FoodItem> {
    if l.foodItem in items
    then items[l.foodItem := items[l.foodItem].(quantityAvailable := items[l.foodItem].quantityAvailable - l.quantity)]
    else items
  }

  lemma DecrementPrefix(items: map<FoodId, FoodItem>, lines: seq<Line>, i: nat)
    requires i < |lines|
    ensures Decrement(items, lines[..i + 1]) == Debit(Decrement(items, lines[..i]), lines[i])
  {
    assert lines[..i + 1][..i] == lines[..i];
  }

  /** The total quantity the lines ask of one food item. */
  function QuantityOf(lines: seq<Line>, id: FoodId): int {
    if lines == [] then 0
    else QuantityOf(lines[..|lines| - 1], id)
         + (if lines[|lines| - 1].foodItem == id then lines[|lines| - 1].quantity else 0)
  }

  /** Newest first, only the orders whose status `keep` accepts: the
      `find(...).sort({ createdAt: -1 })` queries, with orders created in
      insertion order. */
  function NewestFirst(orders: seq<Order>, keep: Status -> bool): seq<Order> {
    if orders == [] then []
    else
      var last := orders[|orders| - 1];
      (if keep(last.status) then [last] else []) + NewestFirst(orders[..|orders| - 1], keep)
  }

  predicate IsActive(s: Status) {
    s != Pending && s != Delivered
  }

  predicate IsDelivered(s: Status) {
    s == Delivered
  }

  predicate SortedNewestFirst(orders: seq<Order>) {
    forall i, j :: 0 <= i < j < |orders| ==> orders[i].createdAt >= orders[j].createdAt
  }

  // ------------------------------------------------------------- lemmas

  /** Adding to a cart keeps one line per item, and the total grows by the
      added quantity at the line's snapshotted price: the old line's price when
      merging, the catalogue price when appending. The line for the item has the
      merged quantity; the old line keeps its price and name. */
  lemma {:induction false} AddLineEffect(lines: seq<Line>, id: FoodId, quantity: int, food: FoodItem)
    requires DistinctItems(lines)
    ensures var r := AddLine(lines, id, quantity, food);
      var i := FindLine(lines, id);
      && DistinctItems(r)
      && (i >= 0 ==> |r| == |lines| && r[i].quantity == lines[i].quantity + quantity
                     && r[i].price == lines[i].price && r[i].name == lines[i].name
                     && CartTotal(r) == CartTotal(lines) + lines[i].price * quantity
                     && forall j :: 0 <= j < |lines| && j != i ==> r[j] == lines[j])
      && (i < 0 ==> r == lines + [Line(id, quantity, food.price, food.name)]
                    && CartTotal(r) == CartTotal(lines) + food.price * quantity)
  {
    var i := FindLine(lines, id);
    if i >= 0 {
      var q := lines[i].quantity;
      SetQuantityEffect(lines, i, q + quantity);
      assert lines[i].price * (q + quantity) == lines[i].price * q + lines[i].price * quantity;
    } else {
      var l := Line(id, quantity, food.price, food.name);
      CartTotalAppend(lines, l);
      assert forall j :: 0 <= j < |lines| ==> lines[j].foodItem != id;
      assert forall j :: 0 <= j < |lines| ==> (lines + [l])[j] == lines[j];
    }
  }

  /** Setting the quantity of line `i` keeps the items distinct and changes
      the total by that line's price times the new quantity, less its old amount. */
  lemma SetQuantityEffect(lines: seq<Line>, i: nat, quantity: int)
    requires DistinctItems(lines) && i < |lines|
    ensures var r := lines[i := lines[i].(quantity := quantity)];
      && DistinctItems(r)
      && CartTotal(r) == CartTotal(lines) - LineAmount(lines[i]) + lines[i].price * quantity
  {
    var l := lines[i].(quantity := quantity);
    var r := lines[i := l];
    CartTotalUpdate(lines, i, l);
    assert forall a :: 0 <= a < |r| ==> r[a].foodItem == lines[a].foodItem;
  }

  /** Removing line `i` keeps the other items distinct, drops that item from
      the cart and takes its amount off the total. */
  lemma RemoveEffect(lines: seq<Line>, i: nat)
    requires DistinctItems(lines) && i < |lines|
    ensures var r := RemoveAt(lines, i);
      && |r| == |lines| - 1
      && DistinctItems(r)
      && (forall j :: 0 <= j < |r| ==> r[j].foodItem != lines[i].foodItem)
      && CartTotal(r) == CartTotal(lines) - LineAmount(lines[i])
  {
    var r := RemoveAt(lines, i);
    CartTotalRemove(lines, i);
    forall a, b | 0 <= a < b < |r|
      ensures r[a].foodItem != r[b].foodItem
    {
      var a' := if a < i then a else a + 1;
      var b' := if b < i then b else b + 1;
      assert r[a] == lines[a'] && r[b] == lines[b'] && a' < b';
    }
    forall k | 0 <= k < |r|
      ensures r[k].foodItem != lines[i].foodItem
    {
      var k' := if k < i then k else k + 1;
      assert r[k] == lines[k'] && k' != i;
    }
  }

  /** Updating line `i` keeps one line per item; a quantity of at most 0
      removes exactly that line and its amount from the total, a positive
      quantity changes only that line's quantity. */
  lemma {:induction false} UpdatedCartEffect(cart: Order, i: nat, quantity: int)
    requires i < |cart.items| && DistinctItems(cart.items)
    ensures var r := UpdatedCart(cart, i, quantity).items;
      && DistinctItems(r)
      && (quantity <= 0 ==> |r| == |cart.items| - 1
                            && (forall j :: 0 <= j < |r| ==> r[j].foodItem != cart.items[i].foodItem)
                            && CartTotal(r) == CartTotal(cart.items) - LineAmount(cart.items[i]))
      && (quantity > 0 ==> |r| == |cart.items| && r[i].quantity == quantity
                           && (forall j :: 0 <= j < |r| && j != i ==> r[j] == cart.items[j])
                           && CartTotal(r) == CartTotal(cart.items) - LineAmount(cart.items[i]) + cart.items[i].price * quantity)
  {
    if quantity <= 0 {
      RemoveEffect(cart.items, i);
    } else {
      SetQuantityEffect(cart.items, i, quantity);
    }
  }

  /** Saving a user's cart never creates a second pending order for anyone. */
  lemma SaveCartKeepsOnePending(orders: seq<Order>, user: UserId, now: int, cart: Order)
    requires ValidOrders(orders) && WellFormed(cart)
    requires cart.id == CartOf(orders, user, now).id && IsPendingOf(cart, user)
    ensures ValidOrders(Save(orders, cart))
  {
    if cart.id < |orders| {
      ReplaceOrder(orders, cart.id, cart);
    }
  }

  /** What saving the added cart does to the collection: the schema accepts it
      exactly when the line for the item ends with a quantity of at least 1,
      and then the invariant holds afterwards; a new cart stamped `now` keeps
      the collection in creation order. */
  lemma AddedCartSaved(orders: seq<Order>, user: UserId, now: int, id: FoodId, quantity: int, food: FoodItem)
    requires ValidOrders(orders) && ValidFoodItem(food)
    ensures var cart := AddedCart(orders, user, now, id, quantity, food);
      && (SchemaValidOrder(cart) <==> MergedQuantity(CartOf(orders, user, now).items, id, quantity) >= 1)
      && (SchemaValidOrder(cart) ==> ValidOrders(Save(orders, cart)))
      && (Chronological(orders) && (forall i :: 0 <= i < |orders| ==> orders[i].createdAt <= now)
          ==> Chronological(Save(orders, cart)))
  {
    var oldCart := CartOf(orders, user, now);
    var cart := AddedCart(orders, user, now, id, quantity, food);
    assert SchemaValidOrder(oldCart) && DistinctItems(oldCart.items);
    AddLineSchema(oldCart.items, id, quantity, food);
    if SchemaValidOrder(cart) {
      SaveCartKeepsOnePending(orders, user, now, cart);
    }
    if Chronological(orders) && (forall i :: 0 <= i < |orders| ==> orders[i].createdAt <= now) {
      var k := FindPending(orders, user);
      assert k >= 0 ==> cart.id == k && cart.createdAt == orders[k].createdAt;
      SaveCartChronological(orders, now, cart);
    }
  }

  /** The lines after adding pass the line schema exactly when the merged
      quantity is at least 1, given that they did before. */
  lemma AddLineSchema(lines: seq<Line>, id: FoodId, quantity: int, food: FoodItem)
    requires (forall k :: 0 <= k < |lines| ==> ValidLine(lines[k])) && DistinctItems(lines) && food.name != ""
    ensures var r := AddLine(lines, id, quantity, food);
      && DistinctItems(r)
      && ((forall k :: 0 <= k < |r| ==> ValidLine(r[k])) <==> MergedQuantity(lines, id, quantity) >= 1)
  {
    AddLineEffect(lines, id, quantity, food);
    var i := FindLine(lines, id);
    var r := AddLine(lines, id, quantity, food);
    var j := if i >= 0 then i else |lines|;
    assert r[j].quantity == MergedQuantity(lines, id, quantity) && r[j].name != "";
    assert forall m :: 0 <= m < |r| && m != j ==> r[m] == lines[m];
  }

  /** Saving a cart that keeps its creation time, or a new one stamped no
      earlier than every stored order, keeps the collection in creation order. */
  lemma SaveCartChronological(orders: seq<Order>, now: int, cart: Order)
    requires Chronological(orders) && (forall i :: 0 <= i < |orders| ==> orders[i].createdAt <= now)
    requires cart.id < |orders| ==> cart.createdAt == orders[cart.id].createdAt
    requires cart.id >= |orders| ==> cart.createdAt == now
    ensures Chronological(Save(orders, cart))
  {
    var r := Save(orders, cart);
    if cart.id < |orders| {
      assert forall k :: 0 <= k < |r| ==> r[k].createdAt == orders[k].createdAt;
    } else {
      assert forall k :: 0 <= k < |orders| ==> r[k] == orders[k];
    }
  }


  /** The check loop's verdict: no problem is found exactly when every line's
      item exists and has at least the line's quantity in stock. */
  lemma {:induction false} StockProblemNone(lines: seq<Line>, items: map<FoodId, FoodItem>)
    ensures StockProblem(lines, items).None? <==>
      forall j :: 0 <= j < |lines| ==>
        lines[j].foodItem in items && lines[j].quantity <= items[lines[j].foodItem].quantityAvailable
  {
    if lines != [] {
      StockProblemNone(lines[1..], items);
      assert forall j :: 1 <= j < |lines| ==> lines[j] == lines[1..][j - 1];
    }
  }

  /** The problem reported is that of the first failing line. */
  lemma {:induction false} StockProblemFirst(lines: seq<Line>, items: map<FoodId, FoodItem>, i: nat)
    requires i < |lines| && LineProblem(lines[i], items).Some?
    requires forall j :: 0 <= j < i ==> LineProblem(lines[j], items).None?
    ensures StockProblem(lines, items) == LineProblem(lines[i], items)
  {
    if i > 0 {
      assert forall j :: 0 <= j < i - 1 ==> lines[1..][j] == lines[j + 1];
      StockProblemFirst(lines[1..], items, i - 1);
    }
  }

  /** Each update only touches the stock of its own item: every item's stock
      drops by the total quantity its lines ask for, and nothing else changes. */
  lemma {:induction false} DecrementStock(items: map<FoodId, FoodItem>, lines: seq<Line>)
    ensures Decrement(items, lines).Keys == items.Keys
    ensures forall id :: id in items ==>
      Decrement(items, lines)[id] == items[id].(quantityAvailable := items[id].quantityAvailable - QuantityOf(lines, id))
  {
    if lines != [] {
      DecrementStock(items, lines[..|lines| - 1]);
    }
  }

  /** With one line per item, the quantity asked of a line's item is that
      line's quantity, and items without a line are asked for nothing. */
  lemma {:induction false} QuantityOfDistinct(lines: seq<Line>, id: FoodId)
    requires DistinctItems(lines)
    ensures FindLine(lines, id) >= 0 ==> QuantityOf(lines, id) == lines[FindLine(lines, id)].quantity
    ensures FindLine(lines, id) < 0 ==> QuantityOf(lines, id) == 0
  {
    if lines != [] {
      var n := |lines| - 1;
      var front := lines[..n];
      assert forall j :: 0 <= j < n ==> front[j] == lines[j];
      QuantityOfDistinct(front, id);
      if lines[n].foodItem == id {
        assert FindLine(front, id) < 0;
      } else if FindLine(lines, id) >= 0 {
        assert FindLine(front, id) == FindLine(lines, id);
      }
    }
  }

  /** After a check that found every line in stock, no stock goes negative. */
  lemma DecrementNonNegative(items: map<FoodId, FoodItem>, lines: seq<Line>)
    requires ValidCatalog(items) && DistinctItems(lines)
    requires forall j :: 0 <= j < |lines| ==>
      lines[j].foodItem in items && lines[j].quantity <= items[lines[j].foodItem].quantityAvailable
    ensures Decrement(items, lines).Keys == items.Keys
    ensures forall id :: id in items ==>
      && Decrement(items, lines)[id] == items[id].(quantityAvailable := Decrement(items, lines)[id].quantityAvailable)
      && Decrement(items, lines)[id].quantityAvailable >= 0
  {
    var m := Decrement(items, lines);
    DecrementStock(items, lines);
    forall id | id in items
      ensures m[id].quantityAvailable >= 0
    {
      QuantityOfDistinct(lines, id);
      var i := FindLine(lines, id);
      if i >= 0 {
        assert lines[i].quantity <= items[id].quantityAvailable;
      }
    }
  }

  /** Confirmation as the controller performs it keeps every stock non-negative
      and every document valid, and each line's item loses exactly the line's
      quantity. */
  lemma DecrementAfterCheck(items: map<FoodId, FoodItem>, lines: seq<Line>)
    requires ValidCatalog(items) && DistinctItems(lines)
    requires forall j :: 0 <= j < |lines| ==>
      lines[j].foodItem in items && lines[j].quantity <= items[lines[j].foodItem].quantityAvailable
    ensures ValidCatalog(Decrement(items, lines))
    ensures forall j :: 0 <= j < |lines| ==>
      && lines[j].foodItem in Decrement(items, lines)
      && Decrement(items, lines)[lines[j].foodItem].quantityAvailable
           == items[lines[j].foodItem].quantityAvailable - lines[j].quantity
  {
    var m := Decrement(items, lines);
    DecrementNonNegative(items, lines);
    StockChangeKeepsCatalogValid(items, m);
    forall j | 0 <= j < |lines|
      ensures lines[j].foodItem in m
      ensures m[lines[j].foodItem].quantityAvailable == items[lines[j].foodItem].quantityAvailable - lines[j].quantity
    {
      DecrementAtLine(items, lines, j);
    }
  }

  /** With one line per item, the stock of a line's item goes down by exactly
      that line's quantity. */
  lemma DecrementAtLine(items: map<FoodId, FoodItem>, lines: seq<Line>, j: nat)
    requires DistinctItems(lines) && j < |lines| && lines[j].foodItem in items
    ensures lines[j].foodItem in Decrement(items, lines)
    ensures Decrement(items, lines)[lines[j].foodItem].quantityAvailable
              == items[lines[j].foodItem].quantityAvailable - lines[j].quantity
  {
    var id := lines[j].foodItem;
    DecrementStock(items, lines);
    QuantityOfDistinct(lines, id);
    assert FindLine(lines, id) == j;
  }

  /** A cart that passed the stock check leaves a catalogue behind that
      is still valid and whose ids are still covered by the counter. */
  lemma ConfirmKeepsCatalog(items: map<FoodId, FoodItem>, counter: nat, lines: seq<Line>)
    requires ValidCatalog(items) && forall id :: id in items ==> items[id].itemId <= counter
    requires DistinctItems(lines) && StockProblem(lines, items).None?
    ensures ValidCatalog(Decrement(items, lines))
    ensures forall id :: id in Decrement(items, lines) ==> Decrement(items, lines)[id].itemId <= counter
  {
    StockProblemNone(lines, items);
    DecrementAfterCheck(items, lines);
    DecrementNonNegative(items, lines);
    Database.CounterBoundsKept(items, Decrement(items, lines), counter);
  }

  /** The newest-first listing holds exactly the orders the filter keeps. */
  lemma {:induction false} NewestFirstMembers(orders: seq<Order>, keep: Status -> bool)
    ensures forall o :: o in NewestFirst(orders, keep) <==> o in orders && keep(o.status)
  {
    if orders != [] {
      var n := |orders| - 1;
      NewestFirstMembers(orders[..n], keep);
      assert orders == orders[..n] + [orders[n]];
    }
  }

  /** Each kept order is listed as often as it is stored, and no other order
      is: the listing is a permutation of the kept orders. */
  lemma {:induction false} NewestFirstPermutation(orders: seq<Order>, keep: Status -> bool)
    ensures forall o :: multiset(NewestFirst(orders, keep))[o] == if keep(o.status) then multiset(orders)[o] else 0
  {
    if orders != [] {
      var n := |orders| - 1;
      NewestFirstPermutation(orders[..n], keep);
      assert orders == orders[..n] + [orders[n]];
      assert multiset(orders) == multiset(orders[..n]) + multiset{orders[n]};
    }
  }

  /** Orders created in chronological order are listed newest first. */
  lemma {:induction false} NewestFirstSorted(orders: seq<Order>, keep: Status -> bool)
    requires Chronological(orders)
    ensures SortedNewestFirst(NewestFirst(orders, keep))
  {
    if orders != [] {
      var n := |orders| - 1;
      var front := orders[..n];
      NewestFirstSorted(front, keep);
      NewestFirstMembers(front, keep);
      var rest := NewestFirst(front, keep);
      var r := NewestFirst(orders, keep);
      if keep(orders[n].status) {
        assert r == [orders[n]] + rest;
        forall i, j | 0 <= i < j < |r|
          ensures r[i].createdAt >= r[j].createdAt
        {
          assert r[j] == rest[j - 1] && rest[j - 1] in front;
          if i > 0 {
            assert r[i] == rest[i - 1];
          }
        }
      } else {
        assert r == rest;
      }
    }
  }

  // ------------------------------------------------------------- the store

  class OrderService {
    /** The `orders` collection; an order's id is its position. */
    var orders: seq<Order>

    ghost predicate Valid()
      reads this
    {
      ValidOrders(orders)
    }

    constructor ()
      ensures Valid() && orders == []
    {
      orders := [];
    }

    /** `addToCart`: checks the item and its stock, then merges into or appends
        to the user's pending order, creating that order if there is none. */
    method AddToCart(db: Database.FoodCollection, user: UserId, itemId: FoodId, quantity: int, now: int)
      returns (r: Result<Order, CartError>)
      requires Valid() && db.Valid()
      modifies this
      ensures Valid()
      ensures itemId !in db.items ==> r == Err(ItemNotFound)
      ensures itemId in db.items ==>
        var food := db.items[itemId];
        var stock := food.quantityAvailable;
        var merged := MergedQuantity(CartOf(old(orders), user, now).items, itemId, quantity);
        && (quantity > stock ==> r == Err(OnlyAvailable(stock)))
        && (quantity <= stock && merged > stock ==> r == Err(WouldExceedStock(quantity, stock)))
        && (quantity <= stock && merged <= stock && merged < 1 ==> r == Err(ServerError))
        && (quantity <= stock && 1 <= merged <= stock ==>
              r == Ok(AddedCart(old(orders), user, now, itemId, quantity, food)))
      ensures r.Err? ==> orders == old(orders)
      ensures r.Ok? ==> orders == Save(old(orders), r.value)
      ensures Chronological(old(orders)) && (forall i :: 0 <= i < |old(orders)| ==> old(orders)[i].createdAt <= now)
              ==> Chronological(orders)
    {
      if itemId !in db.items {
        return Err(ItemNotFound);
      }
      var food := db.items[itemId];
      if quantity > food.quantityAvailable {
        return Err(OnlyAvailable(food.quantityAvailable));
      }
      var k := FindPending(orders, user);
      var order: Order;
      if k < 0 {
        order := Order(|orders|, user, [], 0, DefaultStatus, now);
      } else {
        order := orders[k];
      }
      assert order == CartOf(orders, user, now);
      var items := order.items;
      var i := FindLine(items, itemId);
      if i >= 0 {
        var newQuantity := items[i].quantity + quantity;
        assert newQuantity == MergedQuantity(order.items, itemId, quantity);
        if newQuantity > food.quantityAvailable {
          return Err(WouldExceedStock(quantity, food.quantityAvailable));
        }
        items := items[i := items[i].(quantity := newQuantity)];
      } else {
        assert quantity == MergedQuantity(order.items, itemId, quantity);
        items := items + [Line(itemId, quantity, food.price, food.name)];
      }
      assert items == AddLine(order.items, itemId, quantity, food);
      order := order.(items := items, totalAmount := CartTotal(items));
      assert order == AddedCart(orders, user, now, itemId, quantity, food);
      AddedCartSaved(orders, user, now, itemId, quantity, food);
      if !SchemaValidOrder(order) {
        return Err(ServerError);
      }
      orders := Save(orders, order);
      r := Ok(order);
    }

    /** `getCart`: the pending order's lines and total, or an empty cart. */
    method GetCart(user: UserId) returns (c: CartView)
      requires Valid()
      ensures FindPending(orders, user) < 0 ==> c == CartView([], 0)
      ensures FindPending(orders, user) >= 0 ==> c.items == orders[FindPending(orders, user)].items
      ensures c.totalAmount == CartTotal(c.items) && DistinctItems(c.items)
    {
      var k := FindPending(orders, user);
      if k < 0 {
        c := CartView([], 0);
      } else {
        c := CartView(orders[k].items, orders[k].totalAmount);
      }
    }

    /** `updateCartItem`: removes the line when the quantity is at most 0,
        otherwise sets it after checking stock. */
    method UpdateCartItem(db: Database.FoodCollection, user: UserId, itemId: FoodId, quantity: int)
      returns (r: Result<Order, CartError>)
      requires Valid() && db.Valid()
      modifies this
      ensures Valid()
      ensures var k := FindPending(old(orders), user);
        && (k < 0 ==> r == Err(CartNotFound))
        && (k >= 0 ==>
              var cart := old(orders)[k];
              var i := FindLine(cart.items, itemId);
              && (i < 0 ==> r == Err(ItemNotInCart))
              && (i >= 0 && quantity <= 0 ==> r == Ok(UpdatedCart(cart, i, quantity)))
              && (i >= 0 && quantity > 0 && itemId !in db.items ==> r == Err(ServerError))
              && (i >= 0 && quantity > 0 && itemId in db.items ==>
                    var stock := db.items[itemId].quantityAvailable;
                    && (quantity > stock ==> r == Err(OnlyAvailable(stock)))
                    && (quantity <= stock ==> r == Ok(UpdatedCart(cart, i, quantity)))))
      ensures r.Err? ==> orders == old(orders)
      ensures r.Ok? ==> orders == old(orders)[r.value.id := r.value]
      ensures Chronological(old(orders)) ==> Chronological(orders)
    {
      var k := FindPending(orders, user);
      if k < 0 {
        return Err(CartNotFound);
      }
      var order := orders[k];
      var i := FindLine(order.items, itemId);
      if i < 0 {
        return Err(ItemNotInCart);
      }
      UpdatedCartEffect(order, i, quantity);
      var items := order.items;
      if quantity <= 0 {
        items := items[..i] + items[i + 1..];
      } else {
        if itemId !in db.items {
          return Err(ServerError);
        }
        var food := db.items[itemId];
        if quantity > food.quantityAvailable {
          return Err(OnlyAvailable(food.quantityAvailable));
        }
        items := items[i := items[i].(quantity := quantity)];
      }
      order := order.(items := items, totalAmount := CartTotal(items));
      assert order == UpdatedCart(orders[k], i, quantity);
      ReplaceOrder(orders, k, order);
      orders := orders[k := order];
      r := Ok(order);
    }

    /** `confirmOrder`: checks every line of the cart against stock, then
        decrements the stock of every line and marks the order confirmed. */
    method ConfirmOrder(db: Database.FoodCollection, user: UserId) returns (r: Result<Order, CartError>)
      requires Valid() && db.Valid()
      modifies this, db
      ensures Valid() && db.Valid() && db.counter == old(db.counter)
      ensures var k := FindPending(old(orders), user);
        && (k < 0 || old(orders)[k].items == [] ==> r == Err(CartEmpty))
        && (k >= 0 && old(orders)[k].items != [] ==>
              var problem := StockProblem(old(orders)[k].items, old(db.items));
              && (problem.Some? ==> r == Err(problem.value))
              && (problem.None? ==> r == Ok(old(orders)[k].(status := Confirmed))
                                    && db.items == Decrement(old(db.items), old(orders)[k].items)))
      ensures r.Err? ==> orders == old(orders) && db.items == old(db.items)
      ensures r.Ok? ==> orders == old(orders)[r.value.id := r.value]
      ensures Chronological(old(orders)) ==> Chronological(orders)
    {
      var k := FindPending(orders, user);
      if k < 0 || orders[k].items == [] {
        return Err(CartEmpty);
      }
      var order := orders[k];
      var lines := order.items;
      var problem := CheckStock(db, lines);
      if problem.Some? {
        return Err(problem.value);
      }
      assert WellFormed(order);
      ConfirmKeepsCatalog(db.items, db.counter, lines);
      ApplyDecrements(db, lines);
      order := order.(status := Confirmed);
      ReplaceOrder(orders, k, order);
      orders := orders[k := order];
      r := Ok(order);
    }

    /** The first loop of `confirmOrder`: the first line whose item is gone
        or short of stock, or nothing. */
    method CheckStock(db: Database.FoodCollection, lines: seq<Line>) returns (problem: Option<CartError>)
      ensures problem == StockProblem(lines, db.items)
    {
      for i := 0 to |lines|
        invariant forall j :: 0 <= j < i ==> LineProblem(lines[j], db.items).None?
      {
        var line := lines[i];
        if line.foodItem !in db.items {
          StockProblemFirst(lines, db.items, i);
          return Some(ServerError);
        }
        var food := db.items[line.foodItem];
        if line.quantity > food.quantityAvailable {
          StockProblemFirst(lines, db.items, i);
          return Some(InsufficientStock(food.name, food.quantityAvailable));
        }
      }
      StockProblemNone(lines, db.items);
      return None;
    }

    /** The second loop of `confirmOrder`: one stock decrement per line. */
    method ApplyDecrements(db: Database.FoodCollection, lines: seq<Line>)
      modifies db
      ensures db.items == Decrement(old(db.items), lines) && db.counter == old(db.counter)
    {
      for i := 0 to |lines|
        invariant db.items == Decrement(old(db.items), lines[..i]) && db.counter == old(db.counter)
      {
        DecrementPrefix(old(db.items), lines, i);
        db.items := Debit(db.items, lines[i]);
      }
      assert lines[..|lines|] == lines;
    }

    /** `getAllOrders`: the orders neither pending nor delivered, newest first. */
    method GetAllOrders() returns (r: seq<Order>)
      requires Valid()
      ensures forall o :: o in r <==> o in orders && o.status != Pending && o.status != Delivered
      ensures forall o :: multiset(r)[o] == if o.status != Pending && o.status != Delivered then multiset(orders)[o] else 0
      ensures Chronological(orders) ==> SortedNewestFirst(r)
    {
      r := NewestFirst(orders, IsActive);
      NewestFirstMembers(orders, IsActive);
      NewestFirstPermutation(orders, IsActive);
      if Chronological(orders) {
        NewestFirstSorted(orders, IsActive);
      }
    }

    /** `getOrderHistory`: the delivered orders, newest first. */
    method GetOrderHistory() returns (r: seq<Order>)
      requires Valid()
      ensures forall o :: o in r <==> o in orders && o.status == Delivered
      ensures forall o :: multiset(r)[o] == if o.status == Delivered then multiset(orders)[o] else 0
      ensures Chronological(orders) ==> SortedNewestFirst(r)
    {
      r := NewestFirst(orders, IsDelivered);
      NewestFirstMembers(orders, IsDelivered);
      NewestFirstPermutation(orders, IsDelivered);
      if Chronological(orders) {
        NewestFirstSorted(orders, IsDelivered);
      }
    }

    /** `markOrderAsServed`: sets the status to delivered whatever it was. */
    method MarkOrderAsServed(orderId: OrderId) returns (r: Result<Order, CartError>)
      requires Valid()
      modifies this
      ensures Valid()
      ensures orderId >= |old(orders)| ==> r == Err(OrderNotFound) && orders == old(orders)
      ensures orderId < |old(orders)| ==>
        r == Ok(old(orders)[orderId].(status := Delivered)) && orders == old(orders)[orderId := r.value]
      ensures Chronological(old(orders)) ==> Chronological(orders)
    {
      if orderId >= |orders| {
        return Err(OrderNotFound);
      }
      var order := orders[orderId].(status := Delivered);
      ReplaceOrder(orders, orderId, order);
      orders := orders[orderId := order];
      r := Ok(order);
    }
  }
}
