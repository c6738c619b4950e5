/** `MenuOfTheDayManager`: a process-wide singleton that caches the `_id` of the
    menu of the day (`currentMenuId`) on top of the per-document flag
    `isMenuOfTheDay` stored with every food item. */
module MenuOfTheDay {
  import opened Wrappers
  import opened Models
  import Database

  /** `findByIdAndUpdate(id, { isMenuOfTheDay: flag })`: a no-op when no document has that id. */
  function SetFlag(items: map<FoodId, FoodItem>, id: FoodId, flag: bool): (r: map<FoodId, FoodItem>)
    ensures r.Keys == items.Keys
    ensures id in items ==> r[id] == items[id].(isMenuOfTheDay := flag)
    ensures forall other :: other in items && other != id ==> r[other] == items[other]
  {
    if id in items then items[id := items[id].(isMenuOfTheDay := flag)] else items
  }

  /** The flag is not part of the schema's checks, so setting it keeps the
      catalogue valid and every `itemId` where it was. */
  lemma SetFlagKeepsCatalog(items: map<FoodId, FoodItem>, counter: nat, id: FoodId, flag: bool)
    requires Database.ValidStore(items, counter)
    ensures Database.ValidStore(SetFlag(items, id, flag), counter)
  {
    var r := SetFlag(items, id, flag);
    forall k | k in r
      ensures ValidFoodItem(r[k]) && r[k].itemId == items[k].itemId
    {
      if k == id {
        assert r[k] == items[k].(isMenuOfTheDay := flag);
      } else {
        assert r[k] == items[k];
      }
    }
    assert UniqueItemIds(r);
  }

  /** The ids whose stored flag is set. */
  function Flagged(items: map<FoodId, FoodItem>): set<FoodId> {
    set id | id in items && items[id].isMenuOfTheDay
  }

  predicate AtMostOneFlagged(items: map<FoodId, FoodItem>) {
    forall a, b :: a in items && b in items && items[a].isMenuOfTheDay && items[b].isMenuOfTheDay ==> a == b
  }

  /** The cache agrees with the store: at most one item is flagged and, when the
      cache holds an id, no other item is flagged. */
  predicate CacheConsistent(items: map<FoodId, FoodItem>, cache: Option<FoodId>) {
    && AtMostOneFlagged(items)
    && (cache.Some? ==> forall id :: id in items && items[id].isMenuOfTheDay ==> id == cache.value)
  }

  /** The first step of `setMenuOfTheDay`: the flag of the cached item is cleared. */
  function ClearCached(items: map<FoodId, FoodItem>, cache: Option<FoodId>): (r: map<FoodId, FoodItem>)
    ensures r.Keys == items.Keys
    ensures forall id :: id in items && cache != Some(id) ==> r[id] == items[id]
    ensures cache.Some? && cache.value in items ==> !r[cache.value].isMenuOfTheDay
  {
    if cache.Some? then SetFlag(items, cache.value, false) else items
  }

  /** The store after `setMenuOfTheDay(newId)`: the cached item is unflagged and,
      when `newId` exists, it is flagged. Nothing else changes. */
  function AfterSet(items: map<FoodId, FoodItem>, cache: Option<FoodId>, newId: FoodId): (r: map<FoodId, FoodItem>)
    ensures r.Keys == items.Keys
    ensures newId in items ==> r[newId] == items[newId].(isMenuOfTheDay := true)
    ensures forall id :: id in items && id != newId && cache == Some(id) ==>
      r[id] == items[id].(isMenuOfTheDay := false)
    ensures forall id :: id in items && id != newId && cache != Some(id) ==> r[id] == items[id]
  {
    var cleared := ClearCached(items, cache);
    if newId in items then SetFlag(cleared, newId, true) else cleared
  }

  /** Both writes of `setMenuOfTheDay` keep the store valid, and the item to
      set exists after the first one exactly when it existed before. */
  lemma AfterSetKeepsStore(items: map<FoodId, FoodItem>, counter: nat, cache: Option<FoodId>, newId: FoodId)
    requires Database.ValidStore(items, counter)
    ensures Database.ValidStore(ClearCached(items, cache), counter)
    ensures Database.ValidStore(AfterSet(items, cache, newId), counter)
    ensures newId in ClearCached(items, cache) <==> newId in items
    ensures newId !in items ==> AfterSet(items, cache, newId) == ClearCached(items, cache)
    ensures newId in items ==> AfterSet(items, cache, newId) == SetFlag(ClearCached(items, cache), newId, true)
  {
    var cleared := ClearCached(items, cache);
    if cache.Some? {
      SetFlagKeepsCatalog(items, counter, cache.value, false);
    }
    if newId in items {
      SetFlagKeepsCatalog(cleared, counter, newId, true);
    }
  }

  /** The cache after `setMenuOfTheDay(newId)`: the new id on success, the old
      cache when the item is missing. */
  function CacheAfterSet(items: map<FoodId, FoodItem>, cache: Option<FoodId>, newId: FoodId): Option<FoodId> {
    if newId in items then Some(newId) else cache
  }

  /** Setting X and then Y leaves X unflagged and Y flagged, and Y is the
      only flagged item if the cache named every flagged item before. */
  lemma {:induction false} SetThenSet(items: map<FoodId, FoodItem>, cache: Option<FoodId>, x: FoodId, y: FoodId)
    requires x in items && y in items && x != y
    ensures var first := AfterSet(items, cache, x);
            var second := AfterSet(first, CacheAfterSet(items, cache, x), y);
            && !second[x].isMenuOfTheDay && second[y].isMenuOfTheDay
            && ((forall id :: id in items && items[id].isMenuOfTheDay ==> cache == Some(id))
                ==> Flagged(second) == {y})
  {
    var first := AfterSet(items, cache, x);
    var second := AfterSet(first, Some(x), y);
    if forall id :: id in items && items[id].isMenuOfTheDay ==> cache == Some(id) {
      forall id | id in second && id != y
        ensures !second[id].isMenuOfTheDay
      {
        if id != x {
          assert second[id] == first[id];
          if cache != Some(id) {
            assert first[id] == items[id];
          }
        }
      }
    }
  }

  /** A failed `setMenuOfTheDay` is not atomic: the cached item has already been
      unflagged, yet the cache still names it. */
  lemma SetMissingClearsButKeepsCache(items: map<FoodId, FoodItem>, current: FoodId, newId: FoodId)
    requires current in items && newId !in items
    ensures !AfterSet(items, Some(current), newId)[current].isMenuOfTheDay
    ensures CacheAfterSet(items, Some(current), newId) == Some(current)
  {
  }

  /** With an empty cache `setMenuOfTheDay` clears nothing, so an item flagged
      in the store stays flagged next to the new one; `toggleMenuOfTheDay`
      avoids this by loading the cache first. */
  lemma SetWithEmptyCacheKeepsFlag(items: map<FoodId, FoodItem>, z: FoodId, x: FoodId)
    requires z in items && x in items && z != x && items[z].isMenuOfTheDay
    ensures Flagged(AfterSet(items, None, x)) >= {z, x}
    ensures !AtMostOneFlagged(AfterSet(items, None, x))
  {
    var r := AfterSet(items, None, x);
    assert r[z] == items[z];
  }

  class Manager {
    var currentMenuId: Option<FoodId>

    /** The constructor's first run: an empty cache. */
    constructor ()
      ensures currentMenuId.None?
    {
      currentMenuId := None;
    }

    /** `setMenuOfTheDay`: unflags the cached item, then flags `newId` and caches it;
        fails with the old item already unflagged when `newId` does not exist. */
    method SetMenuOfTheDay(db: Database.FoodCollection, newId: FoodId) returns (r: Option<FoodItem>)
      requires db.Valid()
      modifies this, db
      ensures db.Valid() && db.counter == old(db.counter)
      ensures db.items == AfterSet(old(db.items), old(currentMenuId), newId)
      ensures currentMenuId == CacheAfterSet(old(db.items), old(currentMenuId), newId)
      ensures r.Some? <==> newId in old(db.items)
      ensures r.Some? ==> r == Some(db.items[newId])
    {
      var cleared := ClearCached(db.items, currentMenuId);
      AfterSetKeepsStore(db.items, db.counter, currentMenuId, newId);
      db.items := cleared;
      if newId !in cleared {
        return None;
      }
      var flagged := SetFlag(cleared, newId, true);
      db.items := flagged;
      currentMenuId := Some(newId);
      r := Some(flagged[newId]);
    }

    /** `deselectMenuOfTheDay`: unflags the item and forgets the cache if it named it. */
    method DeselectMenuOfTheDay(db: Database.FoodCollection, itemId: FoodId) returns (r: Option<FoodItem>)
      requires db.Valid()
      modifies this, db
      ensures db.Valid() && db.counter == old(db.counter)
      ensures db.items == SetFlag(old(db.items), itemId, false)
      ensures currentMenuId == if old(currentMenuId) == Some(itemId) then None else old(currentMenuId)
      ensures r == if itemId in db.items then Some(db.items[itemId]) else None
    {
      SetFlagKeepsCatalog(db.items, db.counter, itemId, false);
      db.items := SetFlag(db.items, itemId, false);
      if currentMenuId == Some(itemId) {
        currentMenuId := None;
      }
      r := if itemId in db.items then Some(db.items[itemId]) else None;
    }

    /** `getCurrentMenuId`: the cache when set; otherwise any flagged item (as
        `findOne` returns), which is cached, or nothing. */
    method GetCurrentMenuId(db: Database.FoodCollection) returns (r: Option<FoodId>)
      modifies this
      ensures currentMenuId == r
      ensures old(currentMenuId).Some? ==> r == old(currentMenuId)
      ensures old(currentMenuId).None? && r.Some? ==> r.value in Flagged(db.items)
      ensures old(currentMenuId).None? && r.None? ==> Flagged(db.items) == {}
    {
      if currentMenuId.None? {
        if exists id :: id in db.items && db.items[id].isMenuOfTheDay {
          var id :| id in db.items && db.items[id].isMenuOfTheDay;
          currentMenuId := Some(id);
        } else {
          assert forall id :: id !in Flagged(db.items);
        }
      }
      r := currentMenuId;
    }
  }

  /** The static `instance` slot behind `getInstance`. */
  class ManagerSlot {
    var instance: Manager?

    constructor ()
      ensures instance == null
    {
      instance := null;
    }

    /** `getInstance()`: the first call creates the manager, every later call
        returns that same object. */
    method GetInstance() returns (m: Manager)
      modifies this
      ensures instance == m
      ensures old(instance) != null ==> m == old(instance)
      ensures old(instance) == null ==> fresh(m) && m.currentMenuId.None?
    {
      if instance == null {
        instance := new Manager();
      }
      m := instance;
    }
  }
}
