/** The kitchen's order dashboard: the cooking time of an order, the
    "priority" badge, the statistics bar and the local list update after an
    order is marked as served. */
module OrderDashboard {
  import opened Wrappers
  import opened Models
  import opened Seqs

  /** A line's `foodItem` as the client receives it: absent when the item was
      deleted, otherwise its id and, when populated, its cooking time. */
  datatype FoodRef = FoodRef(id: FoodId, cookingTime: Option<int>)

  datatype DashLine = DashLine(foodItem: Option<FoodRef>, quantity: int)

  datatype DashOrder = DashOrder(id: OrderId, user: UserId, items: seq<DashLine>, totalAmount: int,
                                 status: Status, createdAt: int)

  const DefaultCookingMinutes: int := 5

  /** `item.foodItem.cookingTime || 5`: a missing or zero cooking time counts as 5. */
  function EffectiveTime(f: FoodRef): (t: int)
    ensures f.cookingTime.None? || f.cookingTime.value == 0 ==> t == DefaultCookingMinutes
    ensures f.cookingTime.Some? && f.cookingTime.value != 0 ==> t == f.cookingTime.value
  {
    if f.cookingTime.None? || f.cookingTime.value == 0 then DefaultCookingMinutes else f.cookingTime.value
  }

  /** The keys of the `uniqueItems` map in insertion order: each food id once,
      where it first appears. */
  function DistinctIds(items: seq<DashLine>): (ids: seq<FoodId>)
    ensures forall a, b :: 0 <= a < b < |ids| ==> ids[a] != ids[b]
    ensures forall id :: id in ids <==> exists i :: 0 <= i < |items| && items[i].foodItem.Some? && items[i].foodItem.value.id == id
  {
    if items == [] then []
    else
      var prefix := DistinctIds(items[..|items| - 1]);
      var last := items[|items| - 1];
      if last.foodItem.Some? && last.foodItem.value.id !in prefix then prefix + [last.foodItem.value.id]
      else prefix
  }

  /** The values of the `uniqueItems` map: for each id, the time set by the
      latest line with that id. */
  function LastTimes(items: seq<DashLine>): (m: map<FoodId, int>)
    ensures forall id :: id in m <==> id in DistinctIds(items)
  {
    if items == [] then map[]
    else
      var prefix := LastTimes(items[..|items| - 1]);
      var last := items[|items| - 1];
      if last.foodItem.Some? then prefix[last.foodItem.value.id := EffectiveTime(last.foodItem.value)]
      else prefix
  }

  /** `values.reduce((total, time) => total + time, 0)` over the given keys. */
  function SumOver(ids: seq<FoodId>, times: map<FoodId, int>): int
    requires forall id :: id in ids ==> id in times
  {
    if ids == [] then 0 else SumOver(ids[..|ids| - 1], times) + times[ids[|ids| - 1]]
  }

  /** The cooking time of an order: one term per distinct food item. */
  function TotalCookingTime(items: seq<DashLine>): int {
    SumOver(DistinctIds(items), LastTimes(items))
  }

  /** `calculateTotalCookingTime(order)`: fills the map line by line, then sums its values. */
  method CalculateTotalCookingTime(items: seq<DashLine>) returns (total: int)
    ensures total == TotalCookingTime(items)
  {
    var keys: seq<FoodId> := [];
    var times: map<FoodId, int> := map[];
    for i := 0 to |items|
      invariant keys == DistinctIds(items[..i]) && times == LastTimes(items[..i])
    {
      assert items[..i + 1][..i] == items[..i];
      var line := items[i];
      if line.foodItem.Some? {
        if line.foodItem.value.id !in keys {
          keys := keys + [line.foodItem.value.id];
        }
        times := times[line.foodItem.value.id := EffectiveTime(line.foodItem.value)];
      }
    }
    assert items[..|items|] == items;
    total := 0;
    for j := 0 to |keys|
      invariant total == SumOver(keys[..j], times)
    {
      assert keys[..j + 1][..j] == keys[..j];
      total := total + times[keys[j]];
    }
    assert keys[..|keys|] == keys;
  }

  // ----------------------------------------------------------------- lemmas

  /** The cooking time reads only the food references: quantities never multiply it. */
  lemma {:induction false} QuantityIndependent(a: seq<DashLine>, b: seq<DashLine>)
    requires |a| == |b| && forall i :: 0 <= i < |a| ==> a[i].foodItem == b[i].foodItem
    ensures DistinctIds(a) == DistinctIds(b) && LastTimes(a) == LastTimes(b)
    ensures TotalCookingTime(a) == TotalCookingTime(b)
  {
    if a != [] {
      QuantityIndependent(a[..|a| - 1], b[..|b| - 1]);
    }
  }

  /** Lines without a food item add nothing; an order of such lines, or with
      no lines, takes no time. */
  lemma {:induction false} NoFoodNoTime(items: seq<DashLine>)
    requires forall i :: 0 <= i < |items| ==> items[i].foodItem.None?
    ensures DistinctIds(items) == [] && TotalCookingTime(items) == 0
  {
    if items != [] {
      NoFoodNoTime(items[..|items| - 1]);
    }
  }

  /** When the same food item appears several times, the latest line decides its time. */
  lemma {:induction false} LaterLineWins(items: seq<DashLine>, i: nat)
    requires i < |items| && items[i].foodItem.Some?
    requires forall j :: i < j < |items| && items[j].foodItem.Some? ==> items[j].foodItem.value.id != items[i].foodItem.value.id
    ensures LastTimes(items)[items[i].foodItem.value.id] == EffectiveTime(items[i].foodItem.value)
  {
    if i < |items| - 1 {
      LaterLineWins(items[..|items| - 1], i);
    }
  }

  /** A sum over keys that all map to the same time is that time per key. */
  lemma {:induction false} SumOverConstant(ids: seq<FoodId>, times: map<FoodId, int>, t: int)
    requires forall id :: id in ids ==> id in times && times[id] == t
    ensures SumOver(ids, times) == t * |ids|
  {
    if ids != [] {
      SumOverConstant(ids[..|ids| - 1], times, t);
    }
  }

  /** With cooking times not populated (as `getAllOrders` sends them), every
      distinct item counts 5 minutes. */
  lemma {:induction false} AllDefaultTimes(items: seq<DashLine>)
    requires forall i :: 0 <= i < |items| && items[i].foodItem.Some? ==> items[i].foodItem.value.cookingTime.None?
    ensures forall id :: id in LastTimes(items) ==> LastTimes(items)[id] == DefaultCookingMinutes
    ensures TotalCookingTime(items) == DefaultCookingMinutes * |DistinctIds(items)|
  {
    if items != [] {
      AllDefaultTimes(items[..|items| - 1]);
    }
    SumOverConstant(DistinctIds(items), LastTimes(items), DefaultCookingMinutes);
  }

  // --------------------------------------------------------------- priority

  const ThreeMinutes: int := 3 * 60000

  /** `isPriorityOrder(order, index, orders)` with times in milliseconds:
      `(a - b) / 60000 < 3` is `a - b < 180000`. */
  function IsPriorityOrder(orders: seq<DashOrder>, index: nat): (r: bool)
    requires index < |orders|
    ensures index == 0 ==> !r
    ensures r <==> index > 0
                   && orders[index].createdAt - orders[index - 1].createdAt < ThreeMinutes
                   && orders[index].user != orders[index - 1].user
                   && TotalCookingTime(orders[index - 1].items) - TotalCookingTime(orders[index].items) > 15
  {
    if index == 0 then false
    else
      var order := orders[index];
      var previous := orders[index - 1];
      var timeDiff := order.createdAt - previous.createdAt;
      var cookingTimeDiff := TotalCookingTime(previous.items) - TotalCookingTime(order.items);
      timeDiff < ThreeMinutes && order.user != previous.user && cookingTimeDiff > 15
  }

  predicate NewestFirst(orders: seq<DashOrder>) {
    forall i, j :: 0 <= i < j < |orders| ==> orders[i].createdAt >= orders[j].createdAt
  }

  /** On the list as the server sends it, newest first, the time difference is
      never positive, so the three-minute test always passes and the badge
      depends only on the users and the cooking times. */
  lemma TimeGateVacuousNewestFirst(orders: seq<DashOrder>, index: nat)
    requires NewestFirst(orders) && 0 < index < |orders|
    ensures IsPriorityOrder(orders, index) <==>
      orders[index].user != orders[index - 1].user
      && TotalCookingTime(orders[index - 1].items) - TotalCookingTime(orders[index].items) > 15
  {
    assert orders[index - 1].createdAt >= orders[index].createdAt;
  }

  /** The three-minute test on the distance between the two orders. */
  function IsPriorityOrderWithinWindow(orders: seq<DashOrder>, index: nat): (r: bool)
    requires index < |orders|
    ensures r <==> index > 0
                   && -ThreeMinutes < orders[index].createdAt - orders[index - 1].createdAt < ThreeMinutes
                   && orders[index].user != orders[index - 1].user
                   && TotalCookingTime(orders[index - 1].items) - TotalCookingTime(orders[index].items) > 15
  {
    if index == 0 then false
    else
      var order := orders[index];
      var previous := orders[index - 1];
      var timeDiff := order.createdAt - previous.createdAt;
      var cookingTimeDiff := TotalCookingTime(previous.items) - TotalCookingTime(order.items);
      -ThreeMinutes < timeDiff < ThreeMinutes && order.user != previous.user && cookingTimeDiff > 15
  }

  /** The two agree on every list that is oldest first, the order the
      three-minute rule was written for... */
  lemma WindowAgreesOldestFirst(orders: seq<DashOrder>, index: nat)
    requires index < |orders| && (index > 0 ==> orders[index - 1].createdAt <= orders[index].createdAt)
    ensures IsPriorityOrderWithinWindow(orders, index) == IsPriorityOrder(orders, index)
  {
  }

  /** An order of one line takes that line's time. */
  lemma SingleLineTime(line: DashLine)
    requires line.foodItem.Some?
    ensures TotalCookingTime([line]) == EffectiveTime(line.foodItem.value)
  {
    var id := line.foodItem.value.id;
    assert [line][..0] == [];
    assert DistinctIds([line]) == [id];
    assert LastTimes([line]) == map[id := EffectiveTime(line.foodItem.value)];
    assert [id][..0] == [];
    assert SumOver([id], LastTimes([line])) == SumOver([], LastTimes([line])) + LastTimes([line])[id];
  }

  /** ...but on the newest-first list an order placed ten minutes before the
      one above it is still badged. */
  lemma PriorityIgnoresTime()
    ensures var slow := DashOrder(1, 2, [DashLine(Some(FoodRef(7, Some(30))), 1)], 0, Confirmed, 600000);
            var quick := DashOrder(0, 1, [DashLine(Some(FoodRef(8, Some(10))), 1)], 0, Confirmed, 0);
            && NewestFirst([slow, quick])
            && IsPriorityOrder([slow, quick], 1)
            && !IsPriorityOrderWithinWindow([slow, quick], 1)
  {
    var slowLine := DashLine(Some(FoodRef(7, Some(30))), 1);
    var quickLine := DashLine(Some(FoodRef(8, Some(10))), 1);
    SingleLineTime(slowLine);
    SingleLineTime(quickLine);
  }

  // ---------------------------------------------------------- stats and list

  predicate HasStatus(s: Status, o: DashOrder) {
    o.status == s
  }

  /** `orders.reduce((sum, order) => sum + order.totalAmount, 0)`. */
  function Revenue(orders: seq<DashOrder>): int {
    if orders == [] then 0 else Revenue(orders[..|orders| - 1]) + orders[|orders| - 1].totalAmount
  }

  datatype Stats = Stats(totalOrders: nat, confirmedOrders: nat, preparingOrders: nat, totalRevenue: int)

  /** The statistics bar: the confirmed and preparing counts never add up to
      more than the total, and the revenue of orders with non-negative totals is
      non-negative. */
  function DashboardStats(orders: seq<DashOrder>): (s: Stats)
    ensures s.totalOrders == |orders|
    ensures s.confirmedOrders == Count(orders, (o: DashOrder) => HasStatus(Confirmed, o))
    ensures s.preparingOrders == Count(orders, (o: DashOrder) => HasStatus(Preparing, o))
    ensures s.confirmedOrders + s.preparingOrders <= s.totalOrders
    ensures s.totalRevenue == Revenue(orders)
    ensures (forall i :: 0 <= i < |orders| ==> orders[i].totalAmount >= 0) ==> s.totalRevenue >= 0
  {
    CountDisjoint(orders, (o: DashOrder) => HasStatus(Confirmed, o), (o: DashOrder) => HasStatus(Preparing, o));
    RevenueNonNegative(orders);
    Stats(|orders|, Count(orders, (o: DashOrder) => HasStatus(Confirmed, o)), Count(orders, (o: DashOrder) => HasStatus(Preparing, o)),
          Revenue(orders))
  }

  lemma {:induction false} RevenueNonNegative(orders: seq<DashOrder>)
    ensures (forall i :: 0 <= i < |orders| ==> orders[i].totalAmount >= 0) ==> Revenue(orders) >= 0
  {
    if orders != [] {
      RevenueNonNegative(orders[..|orders| - 1]);
    }
  }

  /** `prev.filter(order => order._id !== orderId)` after a successful mark-as-served:
      that order is gone, every other one stays, in the same order. */
  function WithoutOrder(orders: seq<DashOrder>, orderId: OrderId): (r: seq<DashOrder>)
    ensures forall i :: 0 <= i < |r| ==> r[i].id != orderId && r[i] in orders
    ensures forall i :: 0 <= i < |orders| && orders[i].id != orderId ==> orders[i] in r
    ensures IsSubsequence(r, orders)
  {
    FilterIsSubsequence(orders, (o: DashOrder) => o.id != orderId);
    Filter(orders, (o: DashOrder) => o.id != orderId)
  }
}
