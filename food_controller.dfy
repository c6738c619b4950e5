/** The food controller: creating and updating menu items with their
    case-insensitive duplicate-name checks, and toggling the menu of the day. */
module FoodController {
  import opened Wrappers
  import opened Text
  import opened Models
  import Database
  import opened FoodItemFactory
  import opened MenuOfTheDay

  // ------------------------------------------------------------ escapeRegex

  /** The characters of the class `[.*+?^${}()|[\]\\]`. */
  predicate IsRegexSpecial(c: char) {
    c in ".*+?^${}()|[]\\"
  }

  /** A pattern in which every special character is escaped, so that it matches
      only one literal text. */
  predicate IsLiteralPattern(p: string) {
    if p == [] then true
    else if IsRegexSpecial(p[0]) then p[0] == '\\' && |p| >= 2 && IsRegexSpecial(p[1]) && IsLiteralPattern(p[2..])
    else IsLiteralPattern(p[1..])
  }

  /** `escapeRegex(s)`: a backslash in front of every special character, every
      other character copied. The result is always a literal pattern. */
  function EscapeRegex(s: string): (r: string)
    ensures IsLiteralPattern(r)
    ensures |r| >= |s|
  {
    if s == [] then []
    else if IsRegexSpecial(s[0]) then ['\\', s[0]] + EscapeRegex(s[1..])
    else [s[0]] + EscapeRegex(s[1..])
  }

  /** The one text a literal pattern matches. */
  function Unescape(p: string): string
    requires IsLiteralPattern(p)
  {
    if p == [] then []
    else if IsRegexSpecial(p[0]) then [p[1]] + Unescape(p[2..])
    else [p[0]] + Unescape(p[1..])
  }

  /** Escaping loses nothing: the escaped pattern matches the original text. */
  lemma {:induction false} UnescapeEscape(s: string)
    ensures Unescape(EscapeRegex(s)) == s
  {
    if s != [] {
      UnescapeEscape(s[1..]);
      var r := EscapeRegex(s);
      if IsRegexSpecial(s[0]) {
        assert r[2..] == EscapeRegex(s[1..]);
      } else {
        assert r[1..] == EscapeRegex(s[1..]);
      }
    }
  }

  /** Every literal pattern is the escape of exactly one text. */
  lemma {:induction false} EscapeUnescape(p: string)
    requires IsLiteralPattern(p)
    ensures EscapeRegex(Unescape(p)) == p
  {
    if p != [] {
      if IsRegexSpecial(p[0]) {
        EscapeUnescape(p[2..]);
        assert ([p[1]] + Unescape(p[2..]))[1..] == Unescape(p[2..]);
        assert p == [p[0], p[1]] + p[2..];
      } else {
        EscapeUnescape(p[1..]);
        assert ([p[0]] + Unescape(p[1..]))[1..] == Unescape(p[1..]);
        assert p == [p[0]] + p[1..];
      }
    }
  }

  /** `new RegExp(`^${pattern}$`, 'i').test(name)` for a literal pattern. */
  predicate FullMatchIgnoreCase(pattern: string, name: string)
    requires IsLiteralPattern(pattern)
  {
    EqualsIgnoreCase(Unescape(pattern), name)
  }

  /** The query built from an escaped name matches exactly the names equal to it
      up to case, whatever special characters it contains. */
  lemma EscapedQueryMatches(s: string, name: string)
    ensures FullMatchIgnoreCase(EscapeRegex(s), name) <==> EqualsIgnoreCase(s, name)
  {
    UnescapeEscape(s);
  }

  /** Some document other than `exclude` has a name equal to `name` up to case. */
  predicate NameTaken(items: map<FoodId, FoodItem>, name: string, exclude: Option<FoodId>) {
    exists id :: id in items && Some(id) != exclude && EqualsIgnoreCase(items[id].name, name)
  }

  /** `FoodItem.findOne({ _id: { $ne: exclude }, name: /^escaped$/i })`: some
      document other than `exclude` whose name matches the escaped query, or none. */
  method FindOneByName(db: Database.FoodCollection, name: string, exclude: Option<FoodId>)
    returns (found: Option<FoodId>)
    ensures found.Some? ==>
      && found.value in db.items && Some(found.value) != exclude
      && EqualsIgnoreCase(db.items[found.value].name, name)
    ensures found.None? <==> !NameTaken(db.items, name, exclude)
  {
    var pattern := EscapeRegex(name);
    if exists id :: id in db.items && Some(id) != exclude && FullMatchIgnoreCase(pattern, db.items[id].name) {
      var id :| id in db.items && Some(id) != exclude && FullMatchIgnoreCase(pattern, db.items[id].name);
      EscapedQueryMatches(name, db.items[id].name);
      return Some(id);
    }
    forall id | id in db.items && Some(id) != exclude
      ensures !EqualsIgnoreCase(db.items[id].name, name)
    {
      EscapedQueryMatches(name, db.items[id].name);
    }
    return None;
  }

  // --------------------------------------------------------- createFoodItem

  datatype CreateError =
    | Invalid(cause: FactoryError)
    | Duplicate(existingName: string)
    | ValidationFailed

  /** `createFoodItem`: validates the body, refuses a name already taken up to
      case, takes the next number from the counter and stores the new document
      under the fresh key `newKey`. */
  method CreateFoodItem(db: Database.FoodCollection, input: Option<FoodInput>, newKey: FoodId)
    returns (r: Result<FoodItem, CreateError>)
    requires db.Valid() && newKey !in db.items
    modifies db
    ensures db.Valid()
    ensures r.Err? && r.error.Invalid? <==> !Accepted(input)
    ensures r.Err? && r.error.Invalid? ==> db.items == old(db.items) && db.counter == old(db.counter)
    ensures Accepted(input) ==>
      var name := Trim(input.value.name.value);
      && (r.Err? && r.error.Duplicate? <==> NameTaken(old(db.items), name, None))
      && (r.Err? && r.error.Duplicate? ==> Taken(old(db.items), r.error.existingName, name))
      && (r.Err? && r.error.Duplicate? ==> db.items == old(db.items) && db.counter == old(db.counter))
      && (r == Err(ValidationFailed) <==> !NameTaken(old(db.items), name, None) && name == "")
      && (r == Err(ValidationFailed) ==> db.items == old(db.items) && db.counter == old(db.counter) + 1)
      && (r.Ok? ==> && r.value == ItemOf(PayloadOf(input.value), db.counter)
                    && r.value.name == name
                    && r.value.itemId == db.counter == old(db.counter) + 1
                    && !r.value.isMenuOfTheDay
                    && db.items == old(db.items)[newKey := r.value])
  {
    var base := CreatePayload(input);
    if base.Err? {
      return Err(Invalid(base.error));
    }
    TrimIdempotent(input.value.name.value);
    r := StorePayload(db, base.value, newKey);
  }

  /** Some stored document is called `existing`, which equals `name` up to case. */
  ghost predicate Taken(items: map<FoodId, FoodItem>, existing: string, name: string) {
    exists id :: id in items && items[id].name == existing && EqualsIgnoreCase(existing, name)
  }

  /** The part of `createFoodItem` after the factory: the duplicate query, the
      counter increment and the insertion, which the schema can still refuse. */
  method StorePayload(db: Database.FoodCollection, p: Payload, newKey: FoodId)
    returns (r: Result<FoodItem, CreateError>)
    requires db.Valid() && newKey !in db.items && InBounds(p)
    modifies db
    ensures db.Valid()
    ensures r.Err? ==> db.items == old(db.items)
    ensures r.Err? && r.error.Duplicate? <==> NameTaken(old(db.items), p.name, None)
    ensures r.Err? && r.error.Duplicate? ==> Taken(old(db.items), r.error.existingName, p.name)
    ensures r.Err? && r.error.Duplicate? ==> db.counter == old(db.counter)
    ensures r == Err(ValidationFailed) <==> !NameTaken(old(db.items), p.name, None) && p.name == ""
    ensures r == Err(ValidationFailed) ==> db.counter == old(db.counter) + 1
    ensures !r.Err? || r.error.Duplicate? || r.error.ValidationFailed?
    ensures r.Ok? ==>
      && r.value == ItemOf(p, db.counter)
      && db.counter == old(db.counter) + 1
      && db.items == old(db.items)[newKey := r.value]
  {
    var existing := FindOneByName(db, p.name, None);
    if existing.Some? {
      assert Taken(db.items, db.items[existing.value].name, p.name);
      return Err(Duplicate(db.items[existing.value].name));
    }
    r := InsertItem(db, p, newKey);
  }

  /** The counter increment and `FoodItem.create`: the counter moves even when
      the schema then refuses the document. */
  method InsertItem(db: Database.FoodCollection, p: Payload, newKey: FoodId)
    returns (r: Result<FoodItem, CreateError>)
    requires db.Valid() && newKey !in db.items && InBounds(p)
    modifies db
    ensures db.Valid() && db.counter == old(db.counter) + 1
    ensures r == Err(ValidationFailed) <==> p.name == ""
    ensures r.Err? ==> r == Err(ValidationFailed) && db.items == old(db.items)
    ensures r.Ok? ==>
      && r.value == ItemOf(p, db.counter)
      && db.items == old(db.items)[newKey := r.value]
  {
    db.counter := db.counter + 1;
    var item := ItemOf(p, db.counter);
    PayloadItemValid(p, db.counter);
    if !ValidFoodItem(item) {
      return Err(ValidationFailed);
    }
    NewItemKeepsStore(db.items, old(db.counter), newKey, item);
    db.items := db.items[newKey := item];
    r := Ok(item);
  }

  /** A valid document numbered past the counter can join the store. */
  lemma NewItemKeepsStore(items: map<FoodId, FoodItem>, counter: nat, key: FoodId, item: FoodItem)
    requires Database.ValidStore(items, counter) && key !in items
    requires ValidFoodItem(item) && item.itemId == counter + 1
    ensures Database.ValidStore(items[key := item], counter + 1)
  {
    var after := items[key := item];
    forall a, b | a in after && b in after && a != b
      ensures after[a].itemId != after[b].itemId
    {
      if a != key && b != key {
        assert after[a] == items[a] && after[b] == items[b];
      }
    }
  }

  // --------------------------------------------------------- updateFoodItem

  /** The request body of an update; absent fields are `None`. */
  datatype FoodUpdate = FoodUpdate(name: Option<string>, price: Option<Num>, quantityAvailable: Option<Num>,
                                   description: Option<string>, category: Option<string>,
                                   cookingTime: Option<Num>, isAvailable: Option<bool>)

  datatype UpdateError =
    | NotFound
    | EmptyName
    | DuplicateName(existingName: string)
    | NegativeOrInvalidValues(fields: seq<string>)

  /** The numeric fields of an update are numbers within the schema's bounds. */
  predicate InRange(u: FoodUpdate) {
    && (u.price.Some? ==> !Below(u.price.value, 0))
    && (u.quantityAvailable.Some? ==> !Below(u.quantityAvailable.value, 0))
    && (u.cookingTime.Some? ==> !Below(u.cookingTime.value, 1))
  }

  /** The field assignments of `updateFoodItem`: each provided field replaces the
      stored one, the name trimmed and the description and category as given. */
  function Apply(f: FoodItem, u: FoodUpdate): (g: FoodItem)
    requires InRange(u)
    ensures g.itemId == f.itemId && g.isMenuOfTheDay == f.isMenuOfTheDay
  {
    f.(name := if u.name.Some? then Trim(u.name.value) else f.name,
       price := if u.price.Some? then u.price.value.n else f.price,
       quantityAvailable := if u.quantityAvailable.Some? then u.quantityAvailable.value.n else f.quantityAvailable,
       description := if u.description.Some? then u.description else f.description,
       category := if u.category.Some? then u.category else f.category,
       cookingTime := if u.cookingTime.Some? then u.cookingTime.value.n else f.cookingTime,
       isAvailable := if u.isAvailable.Some? then u.isAvailable.value else f.isAvailable)
  }

  /** An update that provides nothing leaves the document as it was. */
  lemma ApplyNothing(f: FoodItem)
    ensures Apply(f, FoodUpdate(None, None, None, None, None, None, None)) == f
  {
  }

  /** Sending the same update twice is the same as sending it once. */
  lemma ApplyIdempotent(f: FoodItem, u: FoodUpdate)
    requires InRange(u)
    ensures Apply(Apply(f, u), u) == Apply(f, u)
  {
    if u.name.Some? {
      TrimIdempotent(u.name.value);
    }
  }

  /** An update that passed the checks keeps a valid document valid, so the
      final `save` never fails. */
  lemma ApplyKeepsValid(f: FoodItem, u: FoodUpdate)
    requires ValidFoodItem(f) && InRange(u)
    requires u.name.Some? ==> Trim(u.name.value) != ""
    ensures ValidFoodItem(Apply(f, u))
  {
    if u.name.Some? {
      TrimIdempotent(u.name.value);
    }
  }

  /** `updateFoodItem(id)`: the not-found, empty-name and duplicate-name checks,
      the range checks, then the partial update. */
  method UpdateFoodItem(db: Database.FoodCollection, id: FoodId, u: FoodUpdate)
    returns (r: Result<FoodItem, UpdateError>)
    requires db.Valid()
    modifies db
    ensures db.Valid() && db.counter == old(db.counter)
    ensures r.Err? ==> db.items == old(db.items)
    ensures id !in old(db.items) <==> r == Err(NotFound)
    ensures id in old(db.items) && u.name.Some? ==>
      var name := Trim(u.name.value);
      && (r == Err(EmptyName) <==> name == "")
      && (name != "" ==> (r.Err? && r.error.DuplicateName? <==> NameTaken(old(db.items), name, Some(id))))
      && (r.Err? && r.error.DuplicateName? ==> Taken(old(db.items) - {id}, r.error.existingName, name))
    ensures id in old(db.items) && u.name.None? ==> !(r.Err? && (r.error.EmptyName? || r.error.DuplicateName?))
    ensures r.Err? && r.error.NegativeOrInvalidValues? ==>
      r.error.fields != [] && ReportsExactly(r.error.fields, u.price, u.quantityAvailable, u.cookingTime)
    ensures (r.Err? && r.error.NegativeOrInvalidValues?) || r.Ok? ==>
      && id in old(db.items)
      && (u.name.Some? ==> Trim(u.name.value) != "" && !NameTaken(old(db.items), Trim(u.name.value), Some(id)))
      && (r.Ok? <==> InRange(u))
    ensures r.Ok? ==> r.value == Apply(old(db.items)[id], u) && db.items == old(db.items)[id := r.value]
  {
    if id !in db.items {
      return Err(NotFound);
    }
    if u.name.Some? {
      var trimmedName := Trim(u.name.value);
      if trimmedName == "" {
        return Err(EmptyName);
      }
      var existing := FindOneByName(db, trimmedName, Some(id));
      if existing.Some? {
        var other := existing.value;
        assert other in old(db.items) - {id};
        return Err(DuplicateName(db.items[other].name));
      }
    }
    r := CheckAndApply(db, id, u);
  }

  /** The second half of `updateFoodItem`: the `negativeFields` check, then the
      assignments of the provided fields and the save. */
  method CheckAndApply(db: Database.FoodCollection, id: FoodId, u: FoodUpdate)
    returns (r: Result<FoodItem, UpdateError>)
    requires db.Valid() && id in db.items
    requires u.name.Some? ==> Trim(u.name.value) != ""
    modifies db
    ensures db.Valid() && db.counter == old(db.counter)
    ensures r.Ok? <==> InRange(u)
    ensures r.Err? ==>
      && db.items == old(db.items)
      && r.error.NegativeOrInvalidValues? && r.error.fields != []
      && ReportsExactly(r.error.fields, u.price, u.quantityAvailable, u.cookingTime)
    ensures r.Ok? ==> r.value == Apply(old(db.items)[id], u) && db.items == old(db.items)[id := r.value]
  {
    var fields := InvalidFields(u.price, u.quantityAvailable, u.cookingTime);
    NoReportInRange(fields, u.price, u.quantityAvailable, u.cookingTime);
    if fields != [] {
      return Err(NegativeOrInvalidValues(fields));
    }
    var item := Apply(db.items[id], u);
    ApplyKeepsValid(db.items[id], u);
    ReplaceKeepsStore(db.items, db.counter, id, item);
    db.items := db.items[id := item];
    r := Ok(item);
  }

  /** Replacing a document by a valid one with the same `itemId` keeps the store valid. */
  lemma ReplaceKeepsStore(items: map<FoodId, FoodItem>, counter: nat, key: FoodId, item: FoodItem)
    requires Database.ValidStore(items, counter) && key in items
    requires ValidFoodItem(item) && item.itemId == items[key].itemId
    ensures Database.ValidStore(items[key := item], counter)
  {
    var after := items[key := item];
    forall a, b | a in after && b in after && a != b
      ensures after[a].itemId != after[b].itemId
    {
      if a != key && b != key {
        assert after[a] == items[a] && after[b] == items[b];
      } else if a == key {
        assert after[b] == items[b];
      } else {
        assert after[a] == items[a];
      }
    }
  }

  // ----------------------------------------------------- toggleMenuOfTheDay

  datatype ToggleError = ItemNotFound | OnlyOneAllowed | ServerError

  /** `toggleMenuOfTheDay(id)`: a flagged item is deselected; an unflagged one is
      refused while another item is the current menu of the day, and set
      otherwise. It keeps the store consistent with the manager's cache. */
  method ToggleMenuOfTheDay(db: Database.FoodCollection, manager: Manager, id: FoodId)
    returns (r: Result<FoodItem, ToggleError>)
    requires db.Valid()
    modifies db, manager
    ensures db.Valid() && db.counter == old(db.counter) && db.items.Keys == old(db.items).Keys
    ensures id !in old(db.items) ==>
      r == Err(ItemNotFound) && db.items == old(db.items) && manager.currentMenuId == old(manager.currentMenuId)
    ensures id in old(db.items) && old(db.items)[id].isMenuOfTheDay ==>
      && db.items == SetFlag(old(db.items), id, false)
      && r == Ok(db.items[id])
      && manager.currentMenuId == (if old(manager.currentMenuId) == Some(id) then None else old(manager.currentMenuId))
    ensures id in old(db.items) && !old(db.items)[id].isMenuOfTheDay ==>
      && (r == Err(OnlyOneAllowed) <==>
            if old(manager.currentMenuId).Some? then old(manager.currentMenuId) != Some(id)
            else Flagged(old(db.items)) != {})
      && (r.Err? ==> r == Err(OnlyOneAllowed) && db.items == old(db.items))
      && (r.Err? && old(manager.currentMenuId).Some? ==> manager.currentMenuId == old(manager.currentMenuId))
      && (r.Err? && old(manager.currentMenuId).None? ==>
            manager.currentMenuId.Some? && manager.currentMenuId.value in Flagged(old(db.items)))
      && (r.Ok? ==> db.items == SetFlag(old(db.items), id, true) && r == Ok(db.items[id])
                    && manager.currentMenuId == Some(id))
    ensures CacheConsistent(old(db.items), old(manager.currentMenuId)) ==>
      CacheConsistent(db.items, manager.currentMenuId)
    ensures CacheConsistent(old(db.items), old(manager.currentMenuId)) && r.Ok? && db.items[id].isMenuOfTheDay ==>
      Flagged(db.items) == {id}
  {
    if id !in db.items {
      return Err(ItemNotFound);
    }
    if db.items[id].isMenuOfTheDay {
      var updated := manager.DeselectMenuOfTheDay(db, id);
      if updated.None? {
        assert false;
        return Err(ServerError);
      }
      DeselectKeepsConsistent(old(db.items), old(manager.currentMenuId), id);
      return Ok(updated.value);
    }
    ghost var before := db.items;
    var current := manager.GetCurrentMenuId(db);
    if current.Some? && current.value != id {
      return Err(OnlyOneAllowed);
    }
    ghost var cache := manager.currentMenuId;
    assert id in db.items;
    var updated := manager.SetMenuOfTheDay(db, id);
    if updated.None? {
      assert false;
      return Err(ServerError);
    }
    SetKeepsConsistent(before, old(manager.currentMenuId), cache, id);
    AfterSetIsSetFlag(before, cache, id);
    r := Ok(updated.value);
  }

  /** Once the cache has been loaded and found empty or naming the item
      itself, setting the item writes its flag and nothing else. */
  lemma AfterSetIsSetFlag(items: map<FoodId, FoodItem>, cache: Option<FoodId>, id: FoodId)
    requires id in items
    requires cache.None? || cache == Some(id)
    ensures AfterSet(items, cache, id) == SetFlag(items, id, true)
  {
  }

  /** Deselecting keeps the store consistent with the cache. */
  lemma DeselectKeepsConsistent(items: map<FoodId, FoodItem>, cache: Option<FoodId>, id: FoodId)
    requires id in items
    ensures CacheConsistent(items, cache) ==>
      CacheConsistent(SetFlag(items, id, false), if cache == Some(id) then None else cache)
  {
    var after := SetFlag(items, id, false);
    if CacheConsistent(items, cache) {
      forall k | k in after && after[k].isMenuOfTheDay
        ensures k in items && items[k].isMenuOfTheDay && k != id
      {
      }
    }
  }

  /** Setting an unflagged item once the cache has been loaded, and found
      empty or naming the item itself, leaves exactly that item flagged. */
  lemma SetKeepsConsistent(items: map<FoodId, FoodItem>, oldCache: Option<FoodId>, cache: Option<FoodId>,
                           id: FoodId)
    requires id in items && !items[id].isMenuOfTheDay
    requires cache.None? || cache == Some(id)
    requires oldCache.Some? ==> cache == oldCache
    requires cache.None? ==> Flagged(items) == {}
    requires oldCache.None? && cache.Some? ==> cache.value in Flagged(items)
    ensures CacheConsistent(items, oldCache) ==>
      && CacheConsistent(AfterSet(items, cache, id), Some(id))
      && Flagged(AfterSet(items, cache, id)) == {id}
  {
    var after := AfterSet(items, cache, id);
    if CacheConsistent(items, oldCache) {
      forall k | k in after && k != id
        ensures !after[k].isMenuOfTheDay
      {
        assert after[k] == items[k];
        if cache.None? {
          assert k !in Flagged(items);
        }
      }
    }
  }
}
