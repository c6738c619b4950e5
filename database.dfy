/** The MongoDB collections the food controller and the menu-of-the-day manager
    share: the `FoodItem` documents by `_id`, and the `Counter` document named
    "foodItem" that numbers them. */
module Database {
  import opened Models

  /** Changing documents without touching their `itemId` keeps them behind the counter. */
  lemma CounterBoundsKept(before: map<FoodId, FoodItem>, after: map<FoodId, FoodItem>, counter: nat)
    requires forall id :: id in before ==> before[id].itemId <= counter
    requires after.Keys == before.Keys
    requires forall id :: id in after ==> after[id].itemId == before[id].itemId
    ensures forall id :: id in after ==> after[id].itemId <= counter
  {
  }

  /** Every document satisfies its schema, and no `itemId` is ahead of the counter. */
  predicate ValidStore(items: map<FoodId, FoodItem>, counter: nat) {
    && ValidCatalog(items)
    && (forall id :: id in items ==> items[id].itemId <= counter)
  }

  class FoodCollection {
    var items: map<FoodId, FoodItem>
    /** The counter's `seq`; 0 stands for "no counter document yet", since the
        upsert that creates it yields 1. */
    var counter: nat

    ghost predicate Valid()
      reads this
    {
      ValidStore(items, counter)
    }

    constructor ()
      ensures Valid() && items == map[] && counter == 0
    {
      items := map[];
      counter := 0;
    }
  }
}
