/** `FoodItemFactory.createPayload`: validates and normalises the body of a
    create request before the controller looks at the database. */
module FoodItemFactory {
  import opened Wrappers
  import opened Text
  import opened Models

  /** The outcome of `Number(x)` on a field that was present: an integer value
      or `NaN`. */
  datatype Num = Finite(n: int) | NaN

  /** `isNaN(x) || x < min`. */
  predicate Below(x: Num, min: int) {
    x.NaN? || x.n < min
  }

  /** The request body; a field that is `null` or `undefined` is `None`. */
  datatype FoodInput = FoodInput(name: Option<string>, price: Option<Num>, quantityAvailable: Option<Num>,
                                 description: Option<string>, category: Option<string>,
                                 cookingTime: Option<Num>, isAvailable: Option<bool>)

  datatype Payload = Payload(name: string, price: int, quantityAvailable: int,
                             description: Option<string>, category: Option<string>,
                             cookingTime: int, isAvailable: bool)

  datatype FactoryError =
    | NoInput
    | Required
    | NegativeOrInvalid(fields: seq<string>)

  const CookingTimeField: string := "cookingTime (must be at least 1)"

  /** Where a field stands in the error message: price, then quantityAvailable,
      then cookingTime. */
  function FieldRank(f: string): int {
    if f == "price" then 0 else if f == "quantityAvailable" then 1 else if f == CookingTimeField then 2 else 3
  }

  /** `fields` names exactly the provided values that are out of range, each once,
      in the fixed order price, quantityAvailable, cookingTime. A value that was
      not provided is never reported. */
  predicate ReportsExactly(fields: seq<string>, price: Option<Num>, quantityAvailable: Option<Num>,
                           cookingTime: Option<Num>)
  {
    && ("price" in fields <==> price.Some? && Below(price.value, 0))
    && ("quantityAvailable" in fields <==> quantityAvailable.Some? && Below(quantityAvailable.value, 0))
    && (CookingTimeField in fields <==> cookingTime.Some? && Below(cookingTime.value, 1))
    && (forall i :: 0 <= i < |fields| ==> FieldRank(fields[i]) < 3)
    && (forall i, j :: 0 <= i < j < |fields| ==> FieldRank(fields[i]) < FieldRank(fields[j]))
  }

  /** The report for the three checks' outcomes: one entry per failed check,
      in the order the checks run. */
  function Report(badPrice: bool, badQuantity: bool, badCookingTime: bool): seq<string> {
    (if badPrice then ["price"] else []) + (if badQuantity then ["quantityAvailable"] else [])
    + (if badCookingTime then [CookingTimeField] else [])
  }

  lemma ReportIsExact(price: Option<Num>, quantityAvailable: Option<Num>, cookingTime: Option<Num>)
    ensures ReportsExactly(Report(price.Some? && Below(price.value, 0),
                                  quantityAvailable.Some? && Below(quantityAvailable.value, 0),
                                  cookingTime.Some? && Below(cookingTime.value, 1)),
                           price, quantityAvailable, cookingTime)
  {
    var a := price.Some? && Below(price.value, 0);
    var b := quantityAvailable.Some? && Below(quantityAvailable.value, 0);
    var c := cookingTime.Some? && Below(cookingTime.value, 1);
    var r := Report(a, b, c);
    assert FieldRank("price") == 0 && FieldRank("quantityAvailable") == 1 && FieldRank(CookingTimeField) == 2;
    assert "price" != "quantityAvailable" && "price" != CookingTimeField && "quantityAvailable" != CookingTimeField;
  }

  /** The `negativeFields` list, built by one push per offending field; shared
      by `createPayload` and `updateFoodItem`. */
  method InvalidFields(price: Option<Num>, quantityAvailable: Option<Num>, cookingTime: Option<Num>)
    returns (fields: seq<string>)
    ensures ReportsExactly(fields, price, quantityAvailable, cookingTime)
  {
    var badPrice := price.Some? && Below(price.value, 0);
    var badQuantity := quantityAvailable.Some? && Below(quantityAvailable.value, 0);
    var badCookingTime := cookingTime.Some? && Below(cookingTime.value, 1);
    fields := [];
    if badPrice {
      fields := fields + ["price"];
    }
    if badQuantity {
      fields := fields + ["quantityAvailable"];
    }
    if badCookingTime {
      fields := fields + [CookingTimeField];
    }
    assert fields == Report(badPrice, badQuantity, badCookingTime);
    ReportIsExact(price, quantityAvailable, cookingTime);
  }

  /** An empty report means every provided value is in range. */
  lemma {:induction false} NoReportInRange(fields: seq<string>, price: Option<Num>, quantityAvailable: Option<Num>,
                                           cookingTime: Option<Num>)
    requires ReportsExactly(fields, price, quantityAvailable, cookingTime)
    ensures fields == [] <==>
      && (price.Some? ==> !Below(price.value, 0))
      && (quantityAvailable.Some? ==> !Below(quantityAvailable.value, 0))
      && (cookingTime.Some? ==> !Below(cookingTime.value, 1))
  {
    if fields != [] {
      assert fields[0] in fields;
      assert FieldRank(fields[0]) < 3;
    }
  }

  /** JavaScript truthiness of an optional string: absent or empty is falsy. */
  predicate Truthy(s: Option<string>) {
    s.Some? && s.value != ""
  }

  /** `x ? String(x).trim() : undefined`. */
  function TrimmedOrAbsent(s: Option<string>): (r: Option<string>)
    ensures r.Some? <==> Truthy(s)
    ensures r.Some? ==> r.value == Trim(s.value)
  {
    if Truthy(s) then Some(Trim(s.value)) else None
  }

  /** The inputs `createPayload` accepts: present, with a truthy name, a price
      and a stock that are numbers of at least 0, and a cooking time of at least
      1 when one is given. */
  predicate Accepted(input: Option<FoodInput>) {
    && input.Some?
    && Truthy(input.value.name)
    && input.value.price.Some? && !Below(input.value.price.value, 0)
    && input.value.quantityAvailable.Some? && !Below(input.value.quantityAvailable.value, 0)
    && (input.value.cookingTime.Some? ==> !Below(input.value.cookingTime.value, 1))
  }

  /** The payload `createPayload` builds from an accepted body. */
  function PayloadOf(x: FoodInput): Payload
    requires Accepted(Some(x))
  {
    Payload(Trim(x.name.value), x.price.value.n, x.quantityAvailable.value.n,
            TrimmedOrAbsent(x.description), TrimmedOrAbsent(x.category),
            if x.cookingTime.Some? then x.cookingTime.value.n else DefaultCookingTime,
            x.isAvailable.GetOr(true))
  }

  /** `createPayload(input)`. */
  method CreatePayload(input: Option<FoodInput>) returns (r: Result<Payload, FactoryError>)
    ensures r.Ok? <==> Accepted(input)
    ensures input.None? ==> r == Err(NoInput)
    ensures input.Some? && (!Truthy(input.value.name) || input.value.price.None? || input.value.quantityAvailable.None?)
            ==> r == Err(Required)
    ensures input.Some? && Truthy(input.value.name) && input.value.price.Some? && input.value.quantityAvailable.Some? ==>
      var x := input.value;
      && (r.Ok? <==> !Below(x.price.value, 0) && !Below(x.quantityAvailable.value, 0)
                     && (x.cookingTime.Some? ==> !Below(x.cookingTime.value, 1)))
      && (r.Err? ==> r.error.NegativeOrInvalid? && r.error.fields != []
                     && ReportsExactly(r.error.fields, x.price, x.quantityAvailable, x.cookingTime))
    ensures r.Ok? ==> r.value == PayloadOf(input.value)
    ensures r.Ok? ==>
      var x := input.value;
      var p := r.value;
      && p.name == Trim(x.name.value)
      && Finite(p.price) == x.price.value && p.price >= 0
      && Finite(p.quantityAvailable) == x.quantityAvailable.value && p.quantityAvailable >= 0
      && p.cookingTime >= 1
      && (x.cookingTime.None? ==> p.cookingTime == DefaultCookingTime)
      && (x.cookingTime.Some? ==> Finite(p.cookingTime) == x.cookingTime.value)
      && p.description == TrimmedOrAbsent(x.description)
      && p.category == TrimmedOrAbsent(x.category)
      && p.isAvailable == x.isAvailable.GetOr(true)
  {
    if input.None? {
      return Err(NoInput);
    }
    var x := input.value;
    if !Truthy(x.name) || x.price.None? || x.quantityAvailable.None? {
      return Err(Required);
    }
    var cookingTime := if x.cookingTime.Some? then x.cookingTime.value else Finite(DefaultCookingTime);
    var fields := InvalidFields(x.price, x.quantityAvailable, x.cookingTime);
    NoReportInRange(fields, x.price, x.quantityAvailable, x.cookingTime);
    if fields != [] {
      return Err(NegativeOrInvalid(fields));
    }
    r := Ok(Payload(Trim(x.name.value), x.price.value.n, x.quantityAvailable.value.n,
                    TrimmedOrAbsent(x.description), TrimmedOrAbsent(x.category),
                    cookingTime.n, x.isAvailable.GetOr(true)));
  }

  /** A payload within the bounds `createPayload` guarantees. */
  predicate InBounds(p: Payload) {
    p.price >= 0 && p.quantityAvailable >= 0 && p.cookingTime >= 1 && Trim(p.name) == p.name
  }

  /** The document `createFoodItem` builds from a payload. */
  function ItemOf(p: Payload, itemId: nat): FoodItem {
    NewFoodItem(p.name, p.price, p.quantityAvailable, itemId, p.description, p.category,
                Some(p.cookingTime), Some(p.isAvailable))
  }

  /** The document stored for an accepted body: every field as the body gave
      it, normalised, with the defaults for what it left out. */
  lemma ItemOfAccepted(x: FoodInput, itemId: nat)
    requires Accepted(Some(x))
    ensures var f := ItemOf(PayloadOf(x), itemId);
            && f.name == Trim(x.name.value)
            && Finite(f.price) == x.price.value && Finite(f.quantityAvailable) == x.quantityAvailable.value
            && (x.cookingTime.None? ==> f.cookingTime == DefaultCookingTime)
            && (x.cookingTime.Some? ==> Finite(f.cookingTime) == x.cookingTime.value)
            && f.description == TrimmedOrAbsent(x.description) && f.category == TrimmedOrAbsent(x.category)
            && f.isAvailable == x.isAvailable.GetOr(true)
            && f.itemId == itemId && !f.isMenuOfTheDay
  {
    TrimIdempotent(x.name.value);
  }

  /** The schema accepts the document built from an in-bounds payload exactly
      when the name is not empty: a name of spaces passes the factory's
      truthiness test and is only caught on save. */
  lemma PayloadItemValid(p: Payload, itemId: nat)
    requires InBounds(p)
    ensures ValidFoodItem(ItemOf(p, itemId)) <==> p.name != ""
    ensures ItemOf(p, itemId).name == p.name && !ItemOf(p, itemId).isMenuOfTheDay
  {
    NewFoodItemValid(p.name, p.price, p.quantityAvailable, itemId, p.description, p.category,
                     Some(p.cookingTime), Some(p.isAvailable));
  }

  /** The factory's name check is truthiness, not blankness: a name of spaces
      is accepted and trimmed to the empty string. */
  lemma BlankNameTrimsToEmpty()
    ensures Truthy(Some("  ")) && Trim("  ") == ""
  {
    assert IsSpace(' ');
    assert TrimStart("  ") == TrimStart(" ") == TrimStart("");
  }
}
