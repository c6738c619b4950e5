# Restaurant ordering: a verified model

This project models the core of a restaurant ordering application with an
Express/MongoDB backend and a React frontend. Customers fill a cart, confirm
it against the kitchen's stock, and the kitchen sees the active orders. An
administrator maintains the menu, which has one optional "menu of the day".
The model covers:

- The cart and order handlers (`orderController.js`). A customer's pending
  order is the cart. Adding merges into the item's line or appends a line
  with the price and name of the moment. Updating removes or overwrites a
  line. Confirming checks every line against stock before any stock is
  decremented. The kitchen lists the orders newest first. They are the
  methods of `OrderController.OrderService` over a sequence of orders whose
  positions are the order ids, next to the food collection of
  `Database.FoodCollection`.
- The `Order` and `FoodItem` schemas (`Models`). The schemas become datatypes
  and the checks a document must pass on save become predicates.
- The food controller (`FoodController`): `escapeRegex` and the
  case-insensitive duplicate-name query built from it, `createFoodItem` with
  its id counter, the checks and partial update of `updateFoodItem`, and the
  `toggleMenuOfTheDay` decision.
- `MenuOfTheDayManager` (`MenuOfTheDay`): a singleton that caches the id of
  the menu of the day on top of a flag stored with every item.
- The two request factories (`FoodItemFactory`, `UserFactory`).
- The fixed-window rate limiter middleware (`RateLimit`).
- The registry of order observers and its singleton (`OrderNotifier`).
- The kitchen's order dashboard (`OrderDashboard`): cooking time per order,
  the "priority" badge, the statistics and the local list update.
- The customer menu page (`CustomerMenu`): cart quantities, the quantity
  guards, the subtract target and the two menu sections.
- The administrator dashboard (`AdminDashboard`): the create guard, the list
  updates after the server answers, and the statistics.
- The customer order history (`CustomerOrderHistory.jsx` as `OrderHistory`):
  the period filter and its statistics.

The database is replaced by in-memory values:

- a `map` from document id to `FoodItem`;
- a `seq` of orders;
- the counter document's sequence number.

The clock, the day boundaries, the server's answers to the pages, and the
`Number(...)` conversion of request fields are all parameters. A numeric
field is `Finite(n)` or `NaN`. Money and time are integers: cents or units,
and milliseconds.

The model follows the code as written. Some of its behaviour is easy to
mistake:

- The dashboard only computes a priority badge. It never swaps or reorders
  orders.
- `getAllOrders` excludes only pending and delivered orders, so cancelled
  orders are listed.
- `markOrderAsServed` sets `delivered` from any status, without a guard.
- There is no explicit check that a quantity is at least 1. Only the order
  schema's `min: 1` refuses such a cart on save, and the handler then answers
  with a server error.
- Confirmation is not atomic with respect to other confirmations. It is
  modelled as one sequential step.

## Model

| member | source | states |
|---|---|---|
| Models.ParseStatus | backend/src/models/Order.js:15-19 | the status enum accepts exactly the six status names and yields the status with that name; every other string is refused |
| Models.ParseStatusName | backend/src/models/Order.js:15-19 | every status's name is accepted and parses back to that status |
| Models.CartTotal | backend/src/controllers/orderController.js:58-60 | defines the total as Σ price×quantity over the lines; CartTotalUpdate, CartTotalRemove, CartTotalAppend and CartTotalNonNegative state how it moves |
| Models.ValidLine | backend/src/models/Order.js:9-11 | defines the line schema: quantity at least 1 and a non-empty name; AddLineSchema says when an added cart passes it |
| Models.CartTotalUpdate | backend/src/controllers/orderController.js:114-120 | overwriting one line changes the Σ price×quantity total by that line's new amount less its old amount |
| Models.CartTotalRemove | backend/src/controllers/orderController.js:105-120 | splicing out one line takes exactly that line's amount off the total |
| Models.CartTotalAppend | backend/src/controllers/orderController.js:49-60 | pushing a line adds exactly its amount to the total |
| Models.CartTotalNonNegative | backend/src/models/Order.js:9-14 | with non-negative prices and quantities of at least 1 the total is never negative |
| Models.NewFoodItem | backend/src/models/FoodItem.js:5-13 | a new document has the trimmed name, cookingTime 5 and isAvailable true when not given, and isMenuOfTheDay false |
| Models.NewFoodItemValid | backend/src/models/FoodItem.js:5-11 | a new document passes the schema iff its trimmed name is non-empty, price and stock are at least 0 and a given cookingTime is at least 1 |
| Models.ValidFoodItem | backend/src/models/FoodItem.js:5-11 | defines the food schema: a non-empty trimmed name, price and stock at least 0, cookingTime at least 1; NewFoodItemValid and ApplyKeepsValid state when documents pass it |
| Models.StockChangeKeepsCatalogValid | backend/src/models/FoodItem.js:7-8 | changing only stock levels, to values of at least 0, keeps every document valid and the itemIds unique |
| Database.CounterBoundsKept | backend/src/controllers/foodController.js:29-39 | changes that keep every itemId keep them all at most the counter |
| Text.TrimStart | backend/src/factories/UserFactory.js:10 | the left trim is a suffix of its input, cuts only white space and leaves no white space in front |
| Text.TrimEnd | backend/src/factories/UserFactory.js:10 | the right trim is a prefix of its input, cuts only white space and leaves no white space behind |
| Text.Trim | backend/src/factories/UserFactory.js:10 | defines `trim` as the right trim of the left trim; TrimIsTrimmedInfix and TrimIdempotent state what it keeps |
| Text.TrimIsTrimmedInfix | backend/src/factories/UserFactory.js:10 | `trim` keeps an infix of its input, cuts only white space on either side, and leaves no white space at either end |
| Text.TrimIdempotent | backend/src/factories/UserFactory.js:10-11 | trimming twice is trimming once |
| Text.LowerChar | backend/src/factories/UserFactory.js:11 | a letter A-Z becomes its lower-case letter, 32 code points up; every other character stays |
| Text.ToLower | backend/src/factories/UserFactory.js:11 | lower-casing keeps the length and maps every letter A-Z to its lower-case letter, every other character to itself |
| Text.LowerIsLower | backend/src/factories/UserFactory.js:11 | a lower-cased string holds no upper-case letter |
| Text.LowerOfLower | backend/src/factories/UserFactory.js:11 | lower-casing a lower-case string changes nothing |
| Text.MessageOr | frontend/src/pages/CustomerMenu.jsx:44 | the server's message when it sent a non-empty one, the page's fallback text otherwise |
| Seqs.Filter | frontend/src/pages/AdminDashboard.jsx:116 | the filtered list is no longer than the input, keeps only elements of the input that pass, and keeps every element that passes |
| Seqs.FilterIsSubsequence | frontend/src/pages/CustomerOrderHistory.jsx:47-50 | filtering keeps the surviving elements in their original order |
| Seqs.Count | frontend/src/pages/AdminDashboard.jsx:148-149 | a filtered list's length is at most the list's length |
| Seqs.CountDisjoint | frontend/src/pages/OrderDashboard.jsx:122-123 | elements counted under two exclusive tests are never counted twice |
| Seqs.FilterSplit | frontend/src/pages/CustomerMenu.jsx:101-102 | two exclusive tests that together make a third give two filters exactly as long as the third's |
| Seqs.CountAtMostOne | frontend/src/pages/AdminDashboard.jsx:132-136 | when at most one position passes a test, a filter keeps at most one element |
| OrderController.FindPending | backend/src/controllers/orderController.js:21 | the first pending order of the user, or -1 exactly when the user has none |
| OrderController.FindLine | backend/src/controllers/orderController.js:34-36 | the first line for the item, or -1 exactly when no line is for it |
| OrderController.ReplaceOrder | backend/src/controllers/orderController.js:160-161 | overwriting an order by a well-formed one with the same id, pending only if it was that user's cart, keeps one pending order per user and, with the same creation time, the creation order |
| OrderController.CartOf | backend/src/controllers/orderController.js:21-31 | the cart is always a pending order of the user; it is the stored pending order when there is one (the only one, when each user has at most one), and otherwise a new empty order with total 0, the next id and the current time |
| OrderController.Save | backend/src/controllers/orderController.js:62 | defines `order.save()` as an overwrite at the order's id or an append; SaveCartKeepsOnePending and SaveCartChronological state what it keeps |
| OrderController.MergedQuantity | backend/src/controllers/orderController.js:38-41 | defines the quantity a line would reach after adding; AvailableMatchesServer and AddLineSchema relate it to the stock and the schema |
| OrderController.AddLine | backend/src/controllers/orderController.js:33-55 | defines the merge-or-append of lines; AddLineEffect states its effect on the lines and the total |
| OrderController.AddedCart | backend/src/controllers/orderController.js:21-60 | defines the cart `addToCart` saves; AddedCartSaved states when it passes the schema and what saving it keeps |
| OrderController.RemoveAt | backend/src/controllers/orderController.js:105 | defines the splice of one line; RemoveEffect states its effect |
| OrderController.UpdatedCart | backend/src/controllers/orderController.js:103-120 | defines the cart after an update; UpdatedCartEffect states its effect |
| OrderController.AddLineEffect | backend/src/controllers/orderController.js:34-60 | adding keeps one line per item; a merge sums the quantities, keeps the old price and name and adds old price × quantity to the total; otherwise a line with the current price and name is appended and its amount added |
| OrderController.SetQuantityEffect | backend/src/controllers/orderController.js:114-120 | overwriting a line's quantity keeps one line per item and moves the total by that line's change |
| OrderController.RemoveEffect | backend/src/controllers/orderController.js:105-120 | splicing out a line removes that item from the cart, keeps the others distinct and takes the line's amount off the total |
| OrderController.UpdatedCartEffect | backend/src/controllers/orderController.js:103-120 | a quantity of at most 0 removes exactly that line; a positive one changes only that line's quantity; the total follows |
| OrderController.SaveCartKeepsOnePending | backend/src/controllers/orderController.js:21-31 | saving the user's cart, found or created, never gives anyone a second pending order |
| OrderController.AddedCartSaved | backend/src/controllers/orderController.js:21-62 | the added cart passes the order schema iff the merged quantity is at least 1, and saving it keeps the collection's invariant and its creation order |
| OrderController.AddLineSchema | backend/src/models/Order.js:9-11 | after adding, every line passes the line schema iff the item's merged quantity is at least 1 |
| OrderController.SaveCartChronological | backend/src/controllers/orderController.js:23-31 | saving a found cart, or a new one stamped now, keeps the orders in creation order |
| OrderController.LineProblem | backend/src/controllers/orderController.js:144-147 | defines why one line cannot be confirmed: a deleted item, or more than its stock |
| OrderController.StockProblem | backend/src/controllers/orderController.js:143-149 | defines the first failing line; StockProblemNone and StockProblemFirst state what it finds |
| OrderController.Debit | backend/src/controllers/orderController.js:153-156 | defines one `$inc` of a stock by minus the line's quantity, nothing for a missing document |
| OrderController.Decrement | backend/src/controllers/orderController.js:152-157 | defines the decrements in line order; DecrementStock, DecrementNonNegative and DecrementAfterCheck state their effect |
| OrderController.StockProblemNone | backend/src/controllers/orderController.js:143-149 | the check loop finds nothing iff every line's item exists and holds at least the line's quantity |
| OrderController.StockProblemFirst | backend/src/controllers/orderController.js:143-149 | the check loop reports the first line that fails |
| OrderController.DecrementPrefix | backend/src/controllers/orderController.js:152-157 | one more line decremented is one more `$inc` on the stock |
| OrderController.DecrementStock | backend/src/controllers/orderController.js:152-157 | the decrements keep every document and lower each item's stock by the sum of its lines' quantities, nothing else |
| OrderController.QuantityOfDistinct | backend/src/controllers/orderController.js:152-157 | with one line per item, an item's summed quantity is its line's quantity, or 0 |
| OrderController.DecrementNonNegative | backend/src/controllers/orderController.js:143-157 | after a passed check the decrements leave every stock at least 0 and change nothing but stock |
| OrderController.DecrementAfterCheck | backend/src/controllers/orderController.js:143-157 | after a passed check each line's item loses exactly the line's quantity and the catalogue stays valid |
| OrderController.DecrementAtLine | backend/src/controllers/orderController.js:152-157 | with one line per item, that line's item loses exactly its quantity |
| OrderController.ConfirmKeepsCatalog | backend/src/controllers/orderController.js:143-157 | a confirmation that passed the check leaves a valid catalogue, still behind the counter |
| OrderController.NewestFirst | backend/src/controllers/orderController.js:171-174 | defines the filtered listing in reverse insertion order; NewestFirstMembers and NewestFirstSorted state its contents and order |
| OrderController.NewestFirstMembers | backend/src/controllers/orderController.js:171-174 | the listing holds exactly the orders whose status the query keeps |
| OrderController.NewestFirstPermutation | backend/src/controllers/orderController.js:171-174 | each kept order is listed as many times as it is stored and no other order is listed: a permutation of the kept orders |
| OrderController.NewestFirstSorted | backend/src/controllers/orderController.js:174 | orders stored in creation order are listed newest first |
| OrderController.OrderService.AddToCart | backend/src/controllers/orderController.js:4-69 | unknown item, too large a quantity, or a merged quantity over stock are refused with the cart unchanged; a merged quantity below 1 fails on save; otherwise the added cart is saved, one pending order per user and creation order kept |
| OrderController.OrderService.GetCart | backend/src/controllers/orderController.js:71-82 | the pending order's lines, or an empty cart with total 0; the total is always the lines' sum |
| OrderController.OrderService.UpdateCartItem | backend/src/controllers/orderController.js:84-129 | no cart and no such line are refused; at most 0 removes the line; a positive quantity is set if it is within stock; only that order changes |
| OrderController.OrderService.ConfirmOrder | backend/src/controllers/orderController.js:131-167 | a missing or empty cart is refused; the first failing line refuses the whole cart with stock and orders untouched; otherwise stock drops by the lines and the order becomes confirmed |
| OrderController.OrderService.CheckStock | backend/src/controllers/orderController.js:143-149 | the loop's answer is the first failing line's error, or none |
| OrderController.OrderService.ApplyDecrements | backend/src/controllers/orderController.js:152-157 | the loop applies one decrement per line, in order |
| OrderController.OrderService.GetAllOrders | backend/src/controllers/orderController.js:169-180 | a permutation of the orders neither pending nor delivered (each kept order as often as it is stored, no other), newest first when the store is in creation order |
| OrderController.OrderService.GetOrderHistory | backend/src/controllers/orderController.js:182-193 | a permutation of the delivered orders of every user (each as often as it is stored, no other), newest first when the store is in creation order |
| OrderController.OrderService.MarkOrderAsServed | backend/src/controllers/orderController.js:195-211 | an unknown id is refused; any existing order becomes delivered, whatever its status |
| MenuOfTheDay.SetFlag | backend/src/services/MenuOfTheDayManager.js:43-47 | setting an item's flag changes only that item's flag, and nothing when the id is unknown |
| MenuOfTheDay.SetFlagKeepsCatalog | backend/src/models/FoodItem.js:13 | the flag is not checked by the schema, so setting it keeps the store valid |
| MenuOfTheDay.ClearCached | backend/src/services/MenuOfTheDayManager.js:19-21 | the cached item is unflagged first; nothing else changes |
| MenuOfTheDay.AfterSet | backend/src/services/MenuOfTheDayManager.js:18-32 | after a set, the cached item is unflagged, the new one (if it exists) flagged, every other item unchanged |
| MenuOfTheDay.AfterSetKeepsStore | backend/src/services/MenuOfTheDayManager.js:19-28 | both writes of a set keep the store valid |
| MenuOfTheDay.SetThenSet | backend/src/services/MenuOfTheDayManager.js:19-28 | setting X then Y leaves X unflagged and Y flagged, and Y the only flagged item when the cache named every flagged item |
| MenuOfTheDay.SetMissingClearsButKeepsCache | backend/src/services/MenuOfTheDayManager.js:19-34 | a set of an unknown id has already unflagged the cached item, yet the cache still names it |
| MenuOfTheDay.SetWithEmptyCacheKeepsFlag | backend/src/services/MenuOfTheDayManager.js:19-28 | with an empty cache a set clears nothing, so a stored flag survives next to the new one |
| MenuOfTheDay.Manager.constructor | backend/src/services/MenuOfTheDayManager.js:4-10 | the first manager starts with no cached id |
| MenuOfTheDay.Manager.SetMenuOfTheDay | backend/src/services/MenuOfTheDayManager.js:16-39 | the store becomes the after-set store and the cache the new id; an unknown id fails with the old flag already cleared |
| MenuOfTheDay.Manager.DeselectMenuOfTheDay | backend/src/services/MenuOfTheDayManager.js:41-57 | the item is unflagged and the cache forgotten only when it names that item |
| MenuOfTheDay.Manager.GetCurrentMenuId | backend/src/services/MenuOfTheDayManager.js:59-65 | a set cache is returned; otherwise some flagged item is loaded and cached, or none when nothing is flagged |
| MenuOfTheDay.ManagerSlot.constructor | backend/src/services/MenuOfTheDayManager.js:5-7 | there is no instance at first |
| MenuOfTheDay.ManagerSlot.GetInstance | backend/src/services/MenuOfTheDayManager.js:5-14 | the first call creates the manager and every later call returns that same object |
| FoodController.EscapeRegex | backend/src/controllers/foodController.js:7-9 | the result is a pattern in which every special character is escaped, never shorter than the input |
| FoodController.Unescape | backend/src/controllers/foodController.js:7-9 | defines the one text a fully escaped pattern matches; UnescapeEscape and EscapeUnescape make it the inverse of EscapeRegex |
| FoodController.UnescapeEscape | backend/src/controllers/foodController.js:7-9 | the escaped pattern matches exactly the original text |
| FoodController.EscapeUnescape | backend/src/controllers/foodController.js:7-9 | every fully escaped pattern is the escape of the one text it matches |
| FoodController.FullMatchIgnoreCase | backend/src/controllers/foodController.js:18-20 | defines what the `/^…$/i` query does for a literal pattern: its text equals the name up to case |
| FoodController.EscapedQueryMatches | backend/src/controllers/foodController.js:17-20 | the `/^…$/i` query built from an escaped name matches a stored name iff the two are equal up to case |
| FoodController.FindOneByName | backend/src/controllers/foodController.js:108-112 | a match is another document whose name equals the name up to case; none is found iff no such document exists |
| FoodController.CreateFoodItem | backend/src/controllers/foodController.js:11-45 | a body the factory refuses changes nothing; a name taken up to case is refused without touching the counter; otherwise the counter goes up by one and, unless the schema refuses a blank name, the stored document is the one built from the factory's payload, numbered with the new counter |
| FoodController.StorePayload | backend/src/controllers/foodController.js:17-44 | the duplicate query, the counter increment and the insertion, with the store kept valid |
| FoodController.InsertItem | backend/src/controllers/foodController.js:28-44 | the counter always moves up by one; the schema refuses the document iff its trimmed name is empty, and otherwise exactly the new document numbered by the counter is added |
| FoodController.NewItemKeepsStore | backend/src/controllers/foodController.js:29-44 | a valid document numbered past the counter keeps itemIds unique |
| FoodController.InRange | backend/src/controllers/foodController.js:121-140 | defines the range checks on the provided numbers; CheckAndApply refuses exactly what it rejects |
| FoodController.Apply | backend/src/controllers/foodController.js:150-156 | a partial update keeps the itemId and the menu-of-the-day flag |
| FoodController.ApplyNothing | backend/src/controllers/foodController.js:150-156 | an update that provides no field leaves the document as it was |
| FoodController.ApplyIdempotent | backend/src/controllers/foodController.js:150-156 | sending the same update twice is sending it once |
| FoodController.ApplyKeepsValid | backend/src/controllers/foodController.js:121-158 | an update that passed the name and range checks keeps the document valid, so the save succeeds |
| FoodController.UpdateFoodItem | backend/src/controllers/foodController.js:91-159 | an unknown id, a name empty after trimming, and a name taken up to case by another document are refused; out-of-range numbers are listed in fixed order with nothing changed; otherwise exactly the provided fields change |
| FoodController.CheckAndApply | backend/src/controllers/foodController.js:121-159 | the range check refuses iff some provided number is out of range; otherwise the updated document is stored |
| FoodController.ReplaceKeepsStore | backend/src/controllers/foodController.js:158 | saving a valid document with its own itemId keeps the store valid |
| FoodController.ToggleMenuOfTheDay | backend/src/controllers/foodController.js:199-233 | an unknown id is not found and changes neither the store nor the cache; a flagged item is deselected, and the cache is forgotten only when it names that item; an unflagged one is refused while another item is current, leaving the cache as loaded (the old one, or some flagged item when it was empty); otherwise only its flag is set and the cache names it; a cache consistent with the store stays so, with at most one item flagged |
| FoodController.DeselectKeepsConsistent | backend/src/controllers/foodController.js:207-213 | deselecting keeps the cache consistent with the store |
| FoodController.AfterSetIsSetFlag | backend/src/controllers/foodController.js:215-224 | with the cache empty or naming the item itself, setting the item changes its flag and nothing else in the store |
| FoodController.SetKeepsConsistent | backend/src/controllers/foodController.js:215-224 | setting after loading the cache leaves exactly that item flagged |
| FoodItemFactory.ReportIsExact | backend/src/factories/FoodItemFactory.js:15-20 | the report names exactly the provided out-of-range fields, each once, in the order price, quantityAvailable, cookingTime |
| FoodItemFactory.InvalidFields | backend/src/factories/FoodItemFactory.js:15-20 | the pushes build exactly that report |
| FoodItemFactory.NoReportInRange | backend/src/factories/FoodItemFactory.js:22-25 | the report is empty iff every provided number is in range |
| FoodItemFactory.TrimmedOrAbsent | backend/src/factories/FoodItemFactory.js:31-32 | a falsy description or category becomes undefined, any other is trimmed |
| FoodItemFactory.CreatePayload | backend/src/factories/FoodItemFactory.js:2-36 | no input, and a falsy name or missing price or stock, fail; out-of-range numbers fail with the exact report; an accepted payload has a trimmed name, price and stock at least 0, cookingTime at least 1 (5 when absent) and isAvailable true when absent; it is the payload `PayloadOf` builds from the body |
| FoodItemFactory.PayloadOf | backend/src/factories/FoodItemFactory.js:27-35 | defines the payload built from an accepted body; CreatePayload returns it and ItemOfAccepted states its fields |
| FoodItemFactory.ItemOf | backend/src/controllers/foodController.js:35-44 | defines the document created from a payload and the counter value |
| FoodItemFactory.ItemOfAccepted | backend/src/controllers/foodController.js:35-44 | the created document has the trimmed name, the body's numbers, cookingTime 5 when absent, the trimmed or absent description and category, isAvailable true when absent, the counter as itemId, and no menu-of-the-day flag |
| FoodItemFactory.PayloadItemValid | backend/src/models/FoodItem.js:5-11 | the document built from an accepted payload passes the schema iff the trimmed name is non-empty |
| FoodItemFactory.BlankNameTrimsToEmpty | backend/src/factories/FoodItemFactory.js:5-28 | a name of spaces is truthy and is trimmed to the empty string |
| UserFactory.CreatePayload | backend/src/factories/UserFactory.js:2-15 | no input fails; a present body succeeds iff name, email and password are all truthy, and fails as required otherwise; the name is trimmed, the email lower-cased and trimmed, the password passed through, and the role admin iff it was exactly "admin" |
| UserFactory.TrimKeepsLower | backend/src/factories/UserFactory.js:11 | trimming a lower-case string keeps it lower-case |
| UserFactory.PayloadNormalised | backend/src/factories/UserFactory.js:10-13 | every payload has a trimmed name and a trimmed lower-case email |
| UserFactory.Idempotent | backend/src/factories/UserFactory.js:8-13 | a normalised payload with non-empty fields sent back through the factory comes back unchanged |
| UserFactory.BlankNameNotIdempotent | backend/src/factories/UserFactory.js:5-10 | a name of spaces is accepted and trimmed to "", and the payload sent back is refused |
| RateLimit.Settings | backend/src/middleware/decorators.js:12 | an option left undefined takes its default, windowMs 60000 and max 60; a given option is used as it is |
| RateLimit.Key | backend/src/middleware/decorators.js:13 | defines the bucket key `ip:path`; KeyInjective states that different pairs never share it |
| RateLimit.KeyInjective | backend/src/middleware/decorators.js:13 | addresses without `/` and paths starting with `/` never share a bucket |
| RateLimit.Step | backend/src/middleware/decorators.js:15-20 | a new or expired bucket restarts at count 1 and resets at now + windowMs; a live one counts one more |
| RateLimit.Replay | backend/src/middleware/decorators.js:15-21 | defines a bucket after a series of requests, one Step each |
| RateLimit.Admitted | backend/src/middleware/decorators.js:22-24 | defines how many of a series of requests get through |
| RateLimit.OneWindow | backend/src/middleware/decorators.js:15-24 | n requests on a fresh key within one window are counted one by one, and exactly the first max of them get through |
| RateLimit.DefaultsAdmitSixtyPerMinute | backend/src/middleware/decorators.js:12-24 | with no options, requests on a fresh key within one minute are counted in one window and exactly the first 60 get through |
| RateLimit.Buckets.constructor | backend/src/middleware/decorators.js:11 | the buckets start empty |
| RateLimit.Buckets.Handle | backend/src/middleware/decorators.js:12-26 | with the options' settings, defaults filled in, only the `ip:path` bucket changes, by one step; the request passes iff its count is at most max, and a refused request is counted too |
| OrderNotifier.Names | backend/src/services/notifiers/OrderNotifier.js:77 | one name per observer, in list order |
| OrderNotifier.IndexOfName | backend/src/services/notifiers/OrderNotifier.js:35 | the first observer with that name, or -1 exactly when none has it |
| OrderNotifier.AttachTo | backend/src/services/notifiers/OrderNotifier.js:21-27 | defines the list after `attach`: appended only when the name is new |
| OrderNotifier.DetachFrom | backend/src/services/notifiers/OrderNotifier.js:34-40 | defines the list after `detach`: the first observer with the name spliced out |
| OrderNotifier.SpliceAt | backend/src/services/notifiers/OrderNotifier.js:37 | after splicing out position i, the list is one shorter and each element comes from position k, or k + 1 from i on |
| OrderNotifier.AttachKeepsUnique | backend/src/services/notifiers/OrderNotifier.js:21-27 | attaching keeps names unique, registers the name, and grows the names by it exactly when it was new |
| OrderNotifier.SpliceKeepsUnique | backend/src/services/notifiers/OrderNotifier.js:37 | splicing out one observer keeps names unique and leaves none with its name |
| OrderNotifier.DetachRemovesName | backend/src/services/notifiers/OrderNotifier.js:34-40 | detaching keeps names unique, leaves the name unregistered, and shrinks the list by one exactly when the name was there |
| OrderNotifier.DetachKeepsOthers | backend/src/services/notifiers/OrderNotifier.js:34-40 | every observer with another name stays |
| OrderNotifier.AttachThenDetach | backend/src/services/notifiers/OrderNotifier.js:16-40 | detaching a just-attached new observer gives back the previous list |
| OrderNotifier.Notifier.constructor | backend/src/services/notifiers/OrderNotifier.js:8-10 | a new notifier has no observers |
| OrderNotifier.Notifier.Attach | backend/src/services/notifiers/OrderNotifier.js:16-28 | a non-observer is refused with the list unchanged; an observer is appended iff its name is new; names stay unique |
| OrderNotifier.Notifier.Detach | backend/src/services/notifiers/OrderNotifier.js:34-40 | the first observer with that name is spliced out, if any; names stay unique |
| OrderNotifier.Notifier.GetObservers | backend/src/services/notifiers/OrderNotifier.js:76-78 | the names in attach order |
| OrderNotifier.Notifier.Clear | backend/src/services/notifiers/OrderNotifier.js:83-86 | the list becomes empty |
| OrderNotifier.Notifier.NotifyTargets | backend/src/services/notifiers/OrderNotifier.js:50-59 | no observer is called without an order and an e-mail address; otherwise every registered one, in order |
| OrderNotifier.NotifierSlot.constructor | backend/src/services/notifiers/OrderNotifier.js:90 | there is no instance at first |
| OrderNotifier.NotifierSlot.GetOrderNotifier | backend/src/services/notifiers/OrderNotifier.js:96-101 | the first call creates the notifier and every later call returns that same object |
| OrderDashboard.EffectiveTime | frontend/src/pages/OrderDashboard.jsx:111 | a missing or zero cooking time counts as 5, any other as itself |
| OrderDashboard.DistinctIds | frontend/src/pages/OrderDashboard.jsx:107-113 | the map's keys: each food id of a line once, and nothing else |
| OrderDashboard.LastTimes | frontend/src/pages/OrderDashboard.jsx:107-113 | the map has a time for exactly those ids |
| OrderDashboard.TotalCookingTime | frontend/src/pages/OrderDashboard.jsx:105-118 | defines the cooking time as the sum over distinct food ids of the latest line's time; CalculateTotalCookingTime computes it |
| OrderDashboard.CalculateTotalCookingTime | frontend/src/pages/OrderDashboard.jsx:105-118 | filling the map line by line and summing its values gives the order's cooking time |
| OrderDashboard.QuantityIndependent | frontend/src/pages/OrderDashboard.jsx:106-117 | the cooking time reads only the food references; quantities never change it |
| OrderDashboard.NoFoodNoTime | frontend/src/pages/OrderDashboard.jsx:109-117 | lines without a food item add nothing, and an empty order takes 0 |
| OrderDashboard.LaterLineWins | frontend/src/pages/OrderDashboard.jsx:112 | for a repeated item, the latest line's time is the one used |
| OrderDashboard.SumOverConstant | frontend/src/pages/OrderDashboard.jsx:117 | a sum over keys that all have the same time is that time per key |
| OrderDashboard.AllDefaultTimes | frontend/src/pages/OrderDashboard.jsx:111-117 | without cooking times, as the kitchen listing sends them, each distinct item counts 5 minutes |
| OrderDashboard.IsPriorityOrder | frontend/src/pages/OrderDashboard.jsx:85-102 | index 0 is never priority; any other order is priority iff it was created less than three minutes after the one before, by a different user, and takes more than 15 minutes less to cook |
| OrderDashboard.TimeGateVacuousNewestFirst | frontend/src/pages/OrderDashboard.jsx:89-101 | on a newest-first list the badge holds iff the users differ and the cooking times differ by more than 15: the time test never fails |
| OrderDashboard.IsPriorityOrderWithinWindow | frontend/src/pages/OrderDashboard.jsx:89-101 | an order is priority iff it is not the first and is less than three minutes away from the one before in either direction, from a different user, and quicker by more than 15 minutes |
| OrderDashboard.WindowAgreesOldestFirst | frontend/src/pages/OrderDashboard.jsx:89-101 | on an oldest-first pair the corrected test and the written one agree |
| OrderDashboard.SingleLineTime | frontend/src/pages/OrderDashboard.jsx:105-117 | an order of one line takes that line's time |
| OrderDashboard.PriorityIgnoresTime | frontend/src/pages/OrderDashboard.jsx:85-102 | on a newest-first pair ten minutes apart the written test badges the older order and the corrected one does not |
| OrderDashboard.DashboardStats | frontend/src/pages/OrderDashboard.jsx:120-125 | the counts of confirmed and preparing orders never exceed the total, and the revenue of non-negative totals is non-negative |
| OrderDashboard.Revenue | frontend/src/pages/OrderDashboard.jsx:124 | defines the revenue as the sum of the listed orders' totals |
| OrderDashboard.RevenueNonNegative | frontend/src/pages/OrderDashboard.jsx:124 | orders with non-negative totals have non-negative revenue |
| OrderDashboard.WithoutOrder | frontend/src/pages/OrderDashboard.jsx:44 | marking an order served removes exactly that id from the local list and keeps the rest in order |
| CustomerMenu.CurrentCartQuantity | frontend/src/pages/CustomerMenu.jsx:65-68 | 0 when the item is not in the cart, otherwise the quantity of its line |
| CustomerMenu.AvailableQuantity | frontend/src/pages/CustomerMenu.jsx:70-73 | what is shown plus what is in the cart is the stock |
| CustomerMenu.AvailableMatchesServer | frontend/src/pages/CustomerMenu.jsx:70-73 | asking for at most the shown availability is exactly what the server's merged-quantity check accepts |
| CustomerMenu.SubtractTarget | frontend/src/pages/CustomerMenu.jsx:54-61 | the requested quantity is 0 when subtracting at least the cart quantity, the difference otherwise, never negative and below the cart quantity |
| CustomerMenu.SectionsPartitionStock | frontend/src/pages/CustomerMenu.jsx:101-102 | the two sections share nothing, keep the menu's order, and together hold exactly the items in stock |
| CustomerMenu.MenuPage.constructor | frontend/src/pages/CustomerMenu.jsx:8-12 | the page starts with no items, an empty cart with total 0, no chosen quantities, no error and the cart panel closed |
| CustomerMenu.MenuPage.HandleQuantityChange | frontend/src/pages/CustomerMenu.jsx:28-30 | only that item's chosen quantity changes |
| CustomerMenu.MenuPage.HandleAddToCart | frontend/src/pages/CustomerMenu.jsx:32-46 | a missing or non-positive quantity sets the error and sends nothing; a reply replaces the cart and resets the field; an error keeps the cart |
| CustomerMenu.MenuPage.HandleUpdateCartItem | frontend/src/pages/CustomerMenu.jsx:75-83 | a reply replaces the cart; an error keeps it and shows the message |
| CustomerMenu.MenuPage.HandleSubtractFromCart | frontend/src/pages/CustomerMenu.jsx:48-63 | an invalid quantity sets the error and sends nothing; otherwise it asks for the subtract target, never negative, and resets the field |
| CustomerMenu.MenuPage.HandleConfirmOrder | frontend/src/pages/CustomerMenu.jsx:85-99 | after a confirmation the cart is empty with total 0 and the cart panel closed; an error keeps the cart |
| AdminDashboard.ReplaceById | frontend/src/pages/AdminDashboard.jsx:100 | only the items with that id are replaced by the server's copy |
| AdminDashboard.UnflagOthers | frontend/src/pages/AdminDashboard.jsx:133-135 | every item with another id is unflagged, the item itself kept |
| AdminDashboard.RemoveById | frontend/src/pages/AdminDashboard.jsx:116 | exactly the items with that id leave, the rest stay in order |
| AdminDashboard.AfterToggle | frontend/src/pages/AdminDashboard.jsx:130-136 | defines the list after a toggle answer; ToggleLeavesOneFlagged and ToggleOffTouchesOnlyItem state its effect |
| AdminDashboard.ToggleLeavesOneFlagged | frontend/src/pages/AdminDashboard.jsx:130-136 | after a flagged answer only the toggled id is flagged, so with distinct ids at most one item is |
| AdminDashboard.ToggleOffTouchesOnlyItem | frontend/src/pages/AdminDashboard.jsx:130-136 | an unflagging answer changes only the toggled item |
| AdminDashboard.TotalValue | frontend/src/pages/AdminDashboard.jsx:150 | defines the stock value as Σ price×quantityAvailable |
| AdminDashboard.TotalValueNonNegative | frontend/src/pages/AdminDashboard.jsx:150 | non-negative prices and stock give a non-negative total value |
| AdminDashboard.DashboardStats | frontend/src/pages/AdminDashboard.jsx:146-151 | the flagged and low-stock counts are the filters' lengths and at most the total, and the value is non-negative for non-negative items |
| AdminDashboard.AdminPage.constructor | frontend/src/pages/AdminDashboard.jsx:7-15 | the page starts with an empty form, no error and no items |
| AdminDashboard.AdminPage.HandleCreate | frontend/src/pages/AdminDashboard.jsx:39-69 | an incomplete form sets the error and sends nothing; a created item goes on top and clears the form; an error keeps list and form |
| AdminDashboard.AdminPage.SaveEdit | frontend/src/pages/AdminDashboard.jsx:88-107 | the server's copy replaces only the item with that id |
| AdminDashboard.AdminPage.RemoveItem | frontend/src/pages/AdminDashboard.jsx:109-123 | a confirmed delete drops exactly the items with that id |
| AdminDashboard.AdminPage.HandleToggleMenu | frontend/src/pages/AdminDashboard.jsx:125-144 | the answer replaces the item and, when flagged, unflags the others, leaving at most one flagged item |
| OrderHistory.ApplyDateFilter | frontend/src/pages/CustomerOrderHistory.jsx:38-81 | every period keeps a subsequence; today keeps [midnight, next midnight), week and month keep orders from the cut-off on, custom keeps [start, end of end day]; "all", unknown periods and custom without both dates keep every order |
| OrderHistory.SubsequenceOfItself | frontend/src/pages/CustomerOrderHistory.jsx:39 | the unfiltered copy keeps every order in order |
| OrderHistory.ItemCount | frontend/src/pages/CustomerOrderHistory.jsx:132 | defines an order's item count as the sum of its line quantities |
| OrderHistory.TotalSpent | frontend/src/pages/CustomerOrderHistory.jsx:130 | defines the amount spent as the sum of the orders' totals |
| OrderHistory.TotalItems | frontend/src/pages/CustomerOrderHistory.jsx:132 | defines the item count of the orders as the sum of their item counts |
| OrderHistory.HistoryStats | frontend/src/pages/CustomerOrderHistory.jsx:128-133 | the count, the amount spent and the item count; the average times the count is the amount spent, and 0 with no orders |
| OrderHistory.SpentAtMost | frontend/src/pages/CustomerOrderHistory.jsx:130 | filtering can only lower the amount spent, when no total is negative |
| OrderHistory.ItemCountAtLeastLines | frontend/src/pages/CustomerOrderHistory.jsx:132 | a schema-valid order has at least as many items as lines |
| OrderHistory.ItemsAtMost | frontend/src/pages/CustomerOrderHistory.jsx:132 | filtering can only lower the item count of schema-valid orders |

## Left out

- E-mail delivery (`emailService.js`, `EmailNotifier.js`, `Observer.js`, `initializeNotifiers.js`) is left out. It is SMTP, environment configuration and templating. Observers are values with a name and an identity tag.
- OrderNotifier.Notifier.NotifyTargets: gives the observers that would be called, in order. The asynchronous calls, `Promise.allSettled` and the swallowed failures are concurrency and are left out.
- Concurrent confirmations are left out. A check followed by an unconditional `$inc` can overdraw stock when two confirmations interleave; the model runs each confirmation as one sequential step.
- `userController.js`, `config/db.js`, `server.js`, `routes/api.js`, `requestLogger`, the migrations, the axios clients under `frontend/src/api`, and the layout components and login pages are left out. They are hashing, tokens, wiring, logging and rendering.
- `listFoodItems` and `deleteFoodItem` are single queries with nothing to check. They are left out; the admin page's local update after a delete is modelled.
- createFoodItem's catch branch, which turns Mongoose validation errors into messages, is left out. The only schema failure a factory-accepted body can reach is a blank name, modelled as `ValidationFailed`. No message text is modelled.
- Floating point is left out. Prices, stock and cooking times are integers, `Number(x)` is `Finite(n)` or `NaN`, and fractional input is not modelled. The history's average is a real number.
- `Date` arithmetic in local time is left out. Day boundaries, a week ago, a month ago and the end of the custom end day are parameters.
- FoodController.FullMatchIgnoreCase: regular-expression matching is modelled only for the fully escaped patterns `escapeRegex` produces, as equality up to case with the unescaped text. Other patterns and the regex engine itself are not modelled.
- Text.ToLower: lower-cases ASCII letters only. Unicode case mapping and the `/i` flag's folding of other scripts are not modelled.
- `populate(...)`, ObjectIds and `toString()` comparisons are left out. References are ids, and an order's id is its position.
- `order.save()` failing for reasons other than the line schema is left out.
- The `loading` flags, `window.confirm`, `alert`, the periodic refresh of the kitchen list, the menu refresh after a confirmation, and the edit form state of the admin page (`startEdit`, `cancelEdit`, `editValues`) are left out. They are user-interface state.
- Quantities the customer menu receives as text or `NaN` are left out. A quantity is an optional integer.
- CustomerMenu.CurrentCartQuantity: states the found line's quantity only for carts with one line per item, which is every cart the server keeps. For other carts it states only the zero case.
- FoodController.FindOneByName: `findOne` may return any matching document; the model leaves open which one.
- MenuOfTheDay.Manager.GetCurrentMenuId: `findOne({ isMenuOfTheDay: true })` may return any flagged item; the model leaves open which one.
- RateLimit.OneWindow: covers requests on a fresh key within a single window. Longer histories are described one step at a time by `RateLimit.Step`.
- OrderController.NewestFirstSorted: the `createdAt` sort is modelled as reverse insertion order. It is proved sorted only for a store kept in creation order, which `AddToCart` maintains when the clock does not go back.

## Findings

| source | as written | input that shows it | evidently intended | confidence | as-written member | corrected member |
|---|---|---|---|---|---|---|
| frontend/src/pages/OrderDashboard.jsx:89-101 | `isPriorityOrder` tests `order.createdAt - previousOrder.createdAt < 3 minutes` on the list from `getAllOrders`, which is sorted newest first (`backend/src/controllers/orderController.js:174`). The difference is never positive, so the test always passes. | a newest-first pair: a 30-minute order by user 2 at 10 minutes, then a 10-minute order by user 1 at 0 minutes; the older order is badged although it is ten minutes away | badge only orders placed less than three minutes from the one before them, in either direction | not executed | OrderDashboard.IsPriorityOrder, OrderDashboard.TimeGateVacuousNewestFirst, OrderDashboard.PriorityIgnoresTime | OrderDashboard.IsPriorityOrderWithinWindow, OrderDashboard.WindowAgreesOldestFirst |
