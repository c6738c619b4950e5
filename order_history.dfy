/** The customer's order history page: the period filter and the statistics
    over the orders it keeps. Dates are instants in milliseconds; the day
    boundaries the page computes from the local clock are parameters. */
module OrderHistory {
  import opened Wrappers
  import opened Models
  import opened Seqs

  /** The instants the page derives from `new Date()`: today's and tomorrow's
      local midnight, the same time seven days ago and one month ago. */
  datatype Clock = Clock(todayStart: int, tomorrowStart: int, weekAgo: int, monthAgo: int)

  /** The filter form: the period's name and the two custom dates, `None`
      when left empty; `endOfEndDay` is the end date at 23:59:59.999. */
  datatype DateFilter = DateFilter(period: string, startDate: Option<int>, endOfEndDay: Option<int>)

  /** `applyDateFilter()`: the history narrowed to the chosen period. The
      result always keeps the orders' order; an unknown period, "all", and
      "custom" without both dates keep everything. */
  method ApplyDateFilter(orders: seq<Order>, f: DateFilter, c: Clock) returns (filtered: seq<Order>)
    ensures IsSubsequence(filtered, orders)
    ensures f.period !in {"today", "week", "month", "custom"} ==> filtered == orders
    ensures f.period == "custom" && (f.startDate.None? || f.endOfEndDay.None?) ==> filtered == orders
    ensures f.period == "today" ==>
      forall o :: o in filtered <==> o in orders && c.todayStart <= o.createdAt < c.tomorrowStart
    ensures f.period == "week" ==> forall o :: o in filtered <==> o in orders && c.weekAgo <= o.createdAt
    ensures f.period == "month" ==> forall o :: o in filtered <==> o in orders && c.monthAgo <= o.createdAt
    ensures f.period == "custom" && f.startDate.Some? && f.endOfEndDay.Some? ==>
      forall o :: o in filtered <==> o in orders && f.startDate.value <= o.createdAt <= f.endOfEndDay.value
  {
    filtered := orders;
    if f.period == "today" {
      var keep := (o: Order) => c.todayStart <= o.createdAt < c.tomorrowStart;
      FilterIsSubsequence(filtered, keep);
      filtered := Filter(filtered, keep);
    } else if f.period == "week" {
      var keep := (o: Order) => c.weekAgo <= o.createdAt;
      FilterIsSubsequence(filtered, keep);
      filtered := Filter(filtered, keep);
    } else if f.period == "month" {
      var keep := (o: Order) => c.monthAgo <= o.createdAt;
      FilterIsSubsequence(filtered, keep);
      filtered := Filter(filtered, keep);
    } else if f.period == "custom" && f.startDate.Some? && f.endOfEndDay.Some? {
      var startDate := f.startDate.value;
      var endDate := f.endOfEndDay.value;
      var keep := (o: Order) => startDate <= o.createdAt <= endDate;
      FilterIsSubsequence(filtered, keep);
      filtered := Filter(filtered, keep);
    } else {
      SubsequenceOfItself(orders);
    }
  }

  lemma {:induction false} SubsequenceOfItself<T>(s: seq<T>)
    ensures IsSubsequence(s, s)
  {
    if s != [] {
      SubsequenceOfItself(s[1..]);
    }
  }

  /** `order.items.reduce((itemSum, item) => itemSum + item.quantity, 0)`. */
  function ItemCount(lines: seq<Line>): int {
    if lines == [] then 0 else lines[0].quantity + ItemCount(lines[1..])
  }

  /** `filteredOrders.reduce((sum, order) => sum + order.totalAmount, 0)`. */
  function TotalSpent(orders: seq<Order>): int {
    if orders == [] then 0 else orders[0].totalAmount + TotalSpent(orders[1..])
  }

  /** The sum of `ItemCount` over the orders. */
  function TotalItems(orders: seq<Order>): int {
    if orders == [] then 0 else ItemCount(orders[0].items) + TotalItems(orders[1..])
  }

  datatype Stats = Stats(totalOrders: nat, totalSpent: int, averageOrderValue: real, totalItems: int)

  /** The statistics cards: the average is the total over the count, and 0
      when there are no orders. */
  function HistoryStats(orders: seq<Order>): (s: Stats)
    ensures s.totalOrders == |orders| && s.totalSpent == TotalSpent(orders) && s.totalItems == TotalItems(orders)
    ensures |orders| == 0 ==> s.averageOrderValue == 0.0
    ensures |orders| > 0 ==> s.averageOrderValue * (|orders| as real) == s.totalSpent as real
  {
    var n := |orders|;
    var spent := TotalSpent(orders);
    Stats(n, spent, if n > 0 then spent as real / n as real else 0.0, TotalItems(orders))
  }

  /** Filtering can only lower the amount spent, when no amount is negative. */
  lemma {:induction false} SpentAtMost(a: seq<Order>, b: seq<Order>)
    requires IsSubsequence(a, b)
    requires forall i :: 0 <= i < |b| ==> b[i].totalAmount >= 0
    ensures 0 <= TotalSpent(a) <= TotalSpent(b)
  {
    if b == [] {
    } else if a != [] && a[0] == b[0] && IsSubsequence(a[1..], b[1..]) {
      SpentAtMost(a[1..], b[1..]);
    } else {
      SpentAtMost(a, b[1..]);
    }
  }

  /** A line count is at least the number of lines when every line holds at
      least one item, as the order schema demands. */
  lemma {:induction false} ItemCountAtLeastLines(lines: seq<Line>)
    requires forall i :: 0 <= i < |lines| ==> ValidLine(lines[i])
    ensures ItemCount(lines) >= |lines|
  {
    if lines != [] {
      ItemCountAtLeastLines(lines[1..]);
    }
  }

  /** Filtering can only lower the item count of schema-valid orders. */
  lemma {:induction false} ItemsAtMost(a: seq<Order>, b: seq<Order>)
    requires IsSubsequence(a, b)
    requires forall i :: 0 <= i < |b| ==> SchemaValidOrder(b[i])
    ensures 0 <= TotalItems(a) <= TotalItems(b)
  {
    if b == [] {
    } else {
      ItemCountAtLeastLines(b[0].items);
      if a != [] && a[0] == b[0] && IsSubsequence(a[1..], b[1..]) {
        ItemsAtMost(a[1..], b[1..]);
      } else {
        ItemsAtMost(a, b[1..]);
      }
    }
  }
}
