/** The two Mongoose schemas of the backend, `Order` and `FoodItem`, as datatypes
    together with the constraints the schemas enforce when a document is saved. */
module Models {
  import opened Wrappers
  import Text

  /** Document identifiers (`_id`) and the customer reference. */
  type FoodId = nat
  type UserId = nat
  type OrderId = nat

  // ---------------------------------------------------------------- Order

  datatype Status = Pending | Confirmed | Preparing | Ready | Delivered | Cancelled

  /** The schema's `default: "pending"`. */
  const DefaultStatus: Status := Pending

  function StatusName(s: Status): string {
    match s
    case Pending => "pending"
    case Confirmed => "confirmed"
    case Preparing => "preparing"
    case Ready => "ready"
    case Delivered => "delivered"
    case Cancelled => "cancelled"
  }

  /** The schema's `enum` check on a status string: it accepts exactly the six names. */
  function ParseStatus(x: string): (r: Option<Status>)
    ensures r.Some? ==> StatusName(r.value) == x
    ensures r.None? ==> forall s: Status :: StatusName(s) != x
  {
    if x == "pending" then Some(Pending)
    else if x == "confirmed" then Some(Confirmed)
    else if x == "preparing" then Some(Preparing)
    else if x == "ready" then Some(Ready)
    else if x == "delivered" then Some(Delivered)
    else if x == "cancelled" then Some(Cancelled)
    else None
  }

  lemma ParseStatusName(s: Status)
    ensures ParseStatus(StatusName(s)) == Some(s)
  {
  }

  /** One entry of `items`: the food item, how many, and the price and name
      copied from the catalogue when the line was created. */
  datatype Line = Line(foodItem: FoodId, quantity: int, price: int, name: string)

  datatype Order = Order(id: OrderId, user: UserId, items: seq<Line>, totalAmount: int,
                         status: Status, createdAt: int)

  function LineAmount(l: Line): int {
    l.price * l.quantity
  }

  /** `items.reduce((total, item) => total + item.price * item.quantity, 0)`. */
  function CartTotal(lines: seq<Line>): int {
    if lines == [] then 0 else CartTotal(lines[..|lines| - 1]) + LineAmount(lines[|lines| - 1])
  }

  /** The line sub-schema: `quantity` has `min: 1` and `name` is a required string. */
  predicate ValidLine(l: Line) {
    l.quantity >= 1 && l.name != ""
  }

  /** What Mongoose's validation checks when an order is saved. */
  predicate SchemaValidOrder(o: Order) {
    forall i :: 0 <= i < |o.items| ==> ValidLine(o.items[i])
  }

  /** No two lines of a cart refer to the same food item. */
  predicate DistinctItems(lines: seq<Line>) {
    forall i, j :: 0 <= i < j < |lines| ==> lines[i].foodItem != lines[j].foodItem
  }

  lemma {:induction false} CartTotalUpdate(lines: seq<Line>, i: nat, l: Line)
    requires i < |lines|
    ensures CartTotal(lines[i := l]) == CartTotal(lines) - LineAmount(lines[i]) + LineAmount(l)
    decreases |lines|
  {
    var n := |lines| - 1;
    if i < n {
      assert lines[i := l][..n] == lines[..n][i := l];
      CartTotalUpdate(lines[..n], i, l);
    } else {
      assert lines[i := l][..n] == lines[..n];
    }
  }

  /** Removing line `i` takes exactly that line's amount off the total. */
  lemma {:induction false} CartTotalRemove(lines: seq<Line>, i: nat)
    requires i < |lines|
    ensures CartTotal(lines[..i] + lines[i + 1..]) == CartTotal(lines) - LineAmount(lines[i])
    decreases |lines|
  {
    var n := |lines| - 1;
    var rest := lines[..i] + lines[i + 1..];
    if i < n {
      assert rest[..|rest| - 1] == lines[..n][..i] + lines[..n][i + 1..];
      assert rest[|rest| - 1] == lines[n];
      CartTotalRemove(lines[..n], i);
    } else {
      assert rest == lines[..n];
    }
  }

  lemma {:induction false} CartTotalAppend(lines: seq<Line>, l: Line)
    ensures CartTotal(lines + [l]) == CartTotal(lines) + LineAmount(l)
  {
    assert (lines + [l])[..|lines|] == lines;
  }

  /** With non-negative prices and positive quantities the total is never negative. */
  lemma {:induction false} CartTotalNonNegative(lines: seq<Line>)
    requires forall i :: 0 <= i < |lines| ==> lines[i].price >= 0 && lines[i].quantity >= 1
    ensures CartTotal(lines) >= 0
  {
    if lines != [] {
      var n := |lines| - 1;
      assert forall i :: 0 <= i < n ==> lines[..n][i] == lines[i];
      CartTotalNonNegative(lines[..n]);
    }
  }

  // ------------------------------------------------------------- FoodItem

  datatype FoodItem = FoodItem(name: string, price: int, quantityAvailable: int, itemId: nat,
                               description: Option<string>, category: Option<string>,
                               cookingTime: int, isAvailable: bool, isMenuOfTheDay: bool)

  const DefaultCookingTime: int := 5

  /** A new document: the `trim` setter applied to `name` and the schema's
      defaults filled in for the fields not given. */
  function NewFoodItem(name: string, price: int, quantityAvailable: int, itemId: nat,
                       description: Option<string>, category: Option<string>,
                       cookingTime: Option<int>, isAvailable: Option<bool>): (f: FoodItem)
    ensures f.name == Text.Trim(name)
    ensures cookingTime.None? ==> f.cookingTime == DefaultCookingTime
    ensures cookingTime.Some? ==> f.cookingTime == cookingTime.value
    ensures isAvailable.None? ==> f.isAvailable
    ensures isAvailable.Some? ==> f.isAvailable == isAvailable.value
    ensures !f.isMenuOfTheDay
    ensures f.price == price && f.quantityAvailable == quantityAvailable && f.itemId == itemId
  {
    var ct := if cookingTime.Some? then cookingTime.value else DefaultCookingTime;
    var av := if isAvailable.Some? then isAvailable.value else true;
    FoodItem(Text.Trim(name), price, quantityAvailable, itemId, description, category, ct, av, false)
  }

  /** What the schema validates on save: a non-empty trimmed name, `min: 0` on
      price and stock, `min: 1` on cookingTime. */
  predicate ValidFoodItem(f: FoodItem) {
    f.name != "" && Text.Trim(f.name) == f.name
    && f.price >= 0 && f.quantityAvailable >= 0 && f.cookingTime >= 1
  }

  /** A freshly built document passes validation exactly when its trimmed name is
      non-empty and the given numbers are within the schema's bounds. */
  lemma NewFoodItemValid(name: string, price: int, quantityAvailable: int, itemId: nat,
                         description: Option<string>, category: Option<string>,
                         cookingTime: Option<int>, isAvailable: Option<bool>)
    ensures ValidFoodItem(NewFoodItem(name, price, quantityAvailable, itemId, description,
                                      category, cookingTime, isAvailable))
        <==> Text.Trim(name) != "" && price >= 0 && quantityAvailable >= 0
             && (cookingTime.None? || cookingTime.value >= 1)
  {
    Text.TrimIdempotent(name);
  }

  /** The `unique: true` index on `itemId`. */
  predicate UniqueItemIds(items: map<FoodId, FoodItem>) {
    forall a, b :: a in items && b in items && a != b ==> items[a].itemId != items[b].itemId
  }

  /** Every stored food item satisfies its schema. */
  predicate ValidCatalog(items: map<FoodId, FoodItem>) {
    && (forall id :: id in items ==> ValidFoodItem(items[id]))
    && UniqueItemIds(items)
  }

  /** Changing only stock levels, to non-negative values, keeps the catalogue valid. */
  lemma StockChangeKeepsCatalogValid(before: map<FoodId, FoodItem>, after: map<FoodId, FoodItem>)
    requires ValidCatalog(before) && after.Keys == before.Keys
    requires forall id :: id in after ==>
      after[id] == before[id].(quantityAvailable := after[id].quantityAvailable) && after[id].quantityAvailable >= 0
    ensures ValidCatalog(after)
  {
    forall id | id in after
      ensures ValidFoodItem(after[id])
    {
      assert after[id].name == before[id].name;
    }
  }
}
