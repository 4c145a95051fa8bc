# HNI meal ordering: the SMS order conversation and provider access

This project models two pieces of the HNI (Hunger Not Impossible) services.

The first is the SMS conversation that lets a user order a meal (`DefaultOrderProcessor`). Each
incoming text is one turn. It runs against the user's stored draft order (`PartialOrder`), which
moves through the phases MEAL, PROVIDING_ADDRESS, CHOOSING_LOCATION, CHOOSING_MENU_ITEM and
CONFIRM_OR_REDO. A turn answers with a text, may save or delete the draft, and on CONFIRM commits
a finalised `Order`. ENDMEAL cancels and STATUS reports on the most recent order.

The second is the access rule of `DefaultProviderService`. The creator of a provider may read its
details and its locations, and so may a user whose first organisation role is SUPER_ADMIN.

Layout:

- `wrappers.dfy`: `Option` and `Result`.
- `text.dfy`: the parts of `String` and `Integer` the engine relies on.
  - Case-insensitive comparison and `toUpperCase`.
  - `Integer.parseInt` with its 32-bit range.
  - The decimal text of the 1-based candidate labels.
- `catalog.dfy`: menus, locations and time.
  - Menus, provider locations and the time of day, in nanoseconds since midnight as `LocalTime` keeps it.
  - `isCurrent`.
  - The filter that keeps the nearby locations with a menu open now.
- `orders.dfy`: finalised orders, the subtotal, and the STATUS reply.
- `conversation.dfy`: the conversation as functions on draft values.
  - One function per handler, plus `Turn` for a whole turn.
  - `Turn` returns the reply, the effect on the draft store (keep, save, delete) and the committed order.
  - The lemmas about turns.
- `engine.dfy`: the engine as the service runs it.
  - A `Draft` class whose handlers update its fields in place.
  - The draft store and the order ledger.
  - `OrderProcessor.ProcessMessage`, each method proved equal to the corresponding function.
  - The loops of `findNearbyMeals` and `providerLocationMenuOutput`, kept as loops.
- `provider_access.dfy`: the provider access decision.

The outside world is passed in as parameters:

- `now`: the time of day, read once per turn.
- `orderDate`: the timestamp `new Date()` gives a confirmed order.
- `catalog`: the nearby-provider search, returning locations or a geocoding failure.
- `recent`: the user's recent orders as the order service lists them.
- `roles`: the user's organisation roles.
- `locationsOf`: the locations of a provider.

An exception the source does not catch becomes `Thrown(fault)`. Two are modelled:

- `LocalTime.of` with an hour outside 0..23.
- `iterator().next()` on a menu with no items.

A turn whose exception escapes saves, deletes and commits nothing.

Behaviour of the code worth knowing:

- REDO searches the stored address again. It does not clear the chosen location or the selected
  items, despite the comment saying it does. If the new search finds nothing open, the draft is
  saved back still in CONFIRM_OR_REDO.
- The address is recorded as soon as the search returns any provider, even if none of them has a
  menu open now.
- A first message other than MEAL, ORDER, ENDMEAL or STATUS still creates a draft and moves it to
  PROVIDING_ADDRESS. Only the reply differs.
- Both ends of a menu's window are strict. So is the comparison with `LocalTime.MIN` and
  `LocalTime.MAX`. No menu is open at exactly midnight, at the last instant of the day, or at its
  own start hour.
- STATUS sent while a draft exists goes to the draft's phase handler; in PROVIDING_ADDRESS it is
  searched as an address.
- The candidate list shows every location with an open menu. The search is called with the argument
  3; the model assumes nothing about how many locations it returns. Only labels 1 to 3 can be chosen: a fourth
  candidate is listed but rejected (`LabelPastMaxRejected`).
- In CONFIRM_OR_REDO, text other than CONFIRM, REDO or ENDMEAL is answered and nothing is saved.

## Model

| member | source | states |
|---|---|---|
| Text.UpperCase | hni-order/src/main/java/org/hni/order/service/DefaultOrderProcessor.java:180 | upper-casing keeps the length, turns every lower-case ASCII letter into its capital and leaves every other character unchanged |
| Text.EqualsIgnoreCase | hni-order/src/main/java/org/hni/order/service/DefaultOrderProcessor.java:68 | equal texts are equal ignoring case, and texts equal ignoring case have the same length |
| Text.EqualsIgnoreCaseByChar | hni-order/src/main/java/org/hni/order/service/DefaultOrderProcessor.java:68 | two texts are equal ignoring case exactly when they have the same length and each pair of characters is equal after upper-casing |
| Text.CaseExamples | hni-order/src/main/java/org/hni/order/service/DefaultOrderProcessor.java:180 | "confirm" upper-cases to CONFIRM and "Redo" to REDO; "endmeal" and "Status" match ENDMEAL and STATUS |
| Text.ParseInt | hni-order/src/main/java/org/hni/order/service/DefaultOrderProcessor.java:160 | text parses exactly when it is an optional sign followed by at least one digit and its value fits a 32-bit int, and the parsed value is that signed decimal value |
| Text.ParseExamples | hni-order/src/main/java/org/hni/order/service/DefaultOrderProcessor.java:160 | "2", "+2" and "02" parse as 2 and "-1" as -1; the empty text, a lone sign and "2a" do not parse |
| Text.ShowNat | hni-order/src/main/java/org/hni/order/service/DefaultOrderProcessor.java:243 | a label is a non-empty run of digits with no leading zero whose decimal value is the number shown |
| Text.ParseShowRoundTrip | hni-order/src/main/java/org/hni/order/service/DefaultOrderProcessor.java:160-161 | parsing a shown label gives the label's number back, whenever it fits an int |
| Text.ParseRejectsNonDigit | hni-order/src/main/java/org/hni/order/service/DefaultOrderProcessor.java:160 | text with a non-digit after the sign position is a format error |
| Catalog.IsCurrent | hni-order/src/main/java/org/hni/order/service/DefaultOrderProcessor.java:255-269 | the window check faults exactly when a start or end hour is outside 0..23 |
| Catalog.SameDayWindow | hni-order/src/main/java/org/hni/order/service/DefaultOrderProcessor.java:261-263 | a window with start before end is open strictly between the two hours |
| Catalog.WrappingWindow | hni-order/src/main/java/org/hni/order/service/DefaultOrderProcessor.java:264-267 | a window with end before start is open outside [end, start], except at midnight and at the last instant |
| Catalog.EqualHoursWindow | hni-order/src/main/java/org/hni/order/service/DefaultOrderProcessor.java:264-267 | a window whose two hours are equal is open at every instant except that hour, midnight and the last instant |
| Catalog.BoundaryInstantsClosed | hni-order/src/main/java/org/hni/order/service/DefaultOrderProcessor.java:261-268 | no menu is open at midnight or at its own start hour |
| Catalog.WindowExamples | hni-order/src/main/java/org/hni/order/service/DefaultOrderProcessor.java:261-267 | the 06-12 and 22-04 windows are open at 09:00, 23:00 and 02:00 and closed at 13:00 and 12:00 |
| Catalog.FirstCurrentMenu | hni-order/src/main/java/org/hni/order/service/DefaultOrderProcessor.java:131-132 | the scan returns a listed menu that is open now, or none when every menu is closed, or the fault of a listed menu |
| Catalog.FirstCurrentMenuStopsAt | hni-order/src/main/java/org/hni/order/service/DefaultOrderProcessor.java:131-132 | when every menu before k is valid and closed, menu k alone decides the scan |
| Catalog.PickMeaning | hni-order/src/main/java/org/hni/order/service/DefaultOrderProcessor.java:131-135 | what a location offers (`Pick`, `Offers`) is the first item of an open menu; it offers nothing exactly when every menu is valid and closed; a fault is NoMenuItems or the fault of one of its menus |
| Catalog.PickStopsAt | hni-order/src/main/java/org/hni/order/service/DefaultOrderProcessor.java:131-135 | the first menu that is not closed decides the pick: its invalid hour escapes; if it is open, no items is the NoMenuItems fault and otherwise its first item is offered |
| Catalog.CountOfferingNone | hni-order/src/main/java/org/hni/order/service/DefaultOrderProcessor.java:133-137 | when no location offers an item, none is counted |
| Catalog.KeepCurrent | hni-order/src/main/java/org/hni/order/service/DefaultOrderProcessor.java:128-137 | the filter succeeds iff no location faults; then it keeps exactly the locations that offer an item (count and membership), each paired with the first item of its first open menu |
| Catalog.KeepCurrentFaultPersists | hni-order/src/main/java/org/hni/order/service/DefaultOrderProcessor.java:130-137 | once a location faults, later locations do not change the outcome |
| Catalog.KeepCurrentFaultStops | hni-order/src/main/java/org/hni/order/service/DefaultOrderProcessor.java:130-137 | a fault among the first i + 1 locations is the outcome of the whole search |
| Catalog.KeepCurrentStep | hni-order/src/main/java/org/hni/order/service/DefaultOrderProcessor.java:130-137 | one more location extends a successful filter by exactly what that location offers |
| Catalog.KeepCurrentFirstFault | hni-order/src/main/java/org/hni/order/service/DefaultOrderProcessor.java:130-137 | the filter reports the fault of the first location that faults |
| Catalog.KeepCurrentKeepsOrder | hni-order/src/main/java/org/hni/order/service/DefaultOrderProcessor.java:130-134 | the kept locations are a subsequence of the search result, in its order |
| Orders.SubtotalOfLines | hni-order/src/main/java/org/hni/order/service/DefaultOrderProcessor.java:189-193 | with every quantity 1, the subtotal is the sum of the selected items' prices |
| Orders.LinesFor | hni-order/src/main/java/org/hni/order/service/DefaultOrderProcessor.java:189-190 | one line per selected item, in order, each at quantity 1 and the item's price |
| Orders.Subtotal | hni-order/src/main/java/org/hni/order/service/DefaultOrderProcessor.java:193 | with non-negative amounts and quantities the subtotal is non-negative |
| Orders.SubtotalPermutation | hni-order/src/main/java/org/hni/order/service/DefaultOrderProcessor.java:188-193 | the subtotal does not depend on the order of the lines, so the unordered set of order items gives one subtotal |
| Orders.BuildOrder | hni-order/src/main/java/org/hni/order/service/DefaultOrderProcessor.java:183-194 | the committed order is OPEN, for the user, at the chosen location and date, has one line per selected item at quantity 1 and its price, and its subtotal is the sum of those prices |
| Orders.NewestIndex | hni-order/src/main/java/org/hni/order/service/DefaultOrderProcessor.java:215 | the order a stable newest-first sort puts first has the latest date and comes first among equally new ones |
| Orders.MostRecent | hni-order/src/main/java/org/hni/order/service/DefaultOrderProcessor.java:215-216 | there is a most recent order exactly when the list is non-empty, and it is a listed order no other order is newer than |
| Orders.StatusText | hni-order/src/main/java/org/hni/order/service/DefaultOrderProcessor.java:217-225 | the reply is the still-open text exactly for OPEN, begins with the placed text exactly for ORDERED, is the closed text exactly for any other status, and is never the no-order text |
| Orders.StatusReplies | hni-order/src/main/java/org/hni/order/service/DefaultOrderProcessor.java:217-225 | OPEN gives the still-open text, ORDERED the placed text followed by the location's first address line, any other status the closed text |
| Orders.StatusReply | hni-order/src/main/java/org/hni/order/service/DefaultOrderProcessor.java:213-229 | the reply says no recent order was found exactly when the list is empty |
| Orders.StatusReportsNewest | hni-order/src/main/java/org/hni/order/service/DefaultOrderProcessor.java:213-229 | STATUS reports on a newest recent order and says none was found only when the list is empty |
| Conversation.NewDraft | hni-order/src/main/java/org/hni/order/service/DefaultOrderProcessor.java:73-75 | a new draft belongs to the user, is in phase MEAL and keeps the draft invariant |
| Conversation.AddItem | hni-order/src/main/java/org/hni/order/service/DefaultOrderProcessor.java:167 | adding to the selected set keeps it duplicate-free, contains the item, loses nothing and adds nothing else |
| Conversation.CandidateLine | hni-order/src/main/java/org/hni/order/service/DefaultOrderProcessor.java:243-250 | a candidate's line is non-empty and ends with a full stop |
| Conversation.CandidateLineShowsLabel | hni-order/src/main/java/org/hni/order/service/DefaultOrderProcessor.java:243 | a candidate's line opens with a space, its 1-based number and ") " |
| Conversation.CandidateLines | hni-order/src/main/java/org/hni/order/service/DefaultOrderProcessor.java:241-251 | the lines of n candidates are empty exactly when n is 0 |
| Conversation.Render | hni-order/src/main/java/org/hni/order/service/DefaultOrderProcessor.java:238-253 | the list begins with the selection header and is the header alone exactly when there are no candidates |
| Conversation.CandidateLinesPrefix | hni-order/src/main/java/org/hni/order/service/DefaultOrderProcessor.java:241-251 | the text of the first m candidates begins the text of the first n, for m <= n |
| Conversation.RenderListsCandidate | hni-order/src/main/java/org/hni/order/service/DefaultOrderProcessor.java:238-253 | the list is the header followed by each candidate's line in order, each under its 1-based label |
| Conversation.RequestingMeal | hni-order/src/main/java/org/hni/order/service/DefaultOrderProcessor.java:113-120 | the MEAL phase always moves to PROVIDING_ADDRESS and changes nothing else; it asks for the address exactly when the text is MEAL or ORDER in any letter case |
| Conversation.FindNearbyMeals | hni-order/src/main/java/org/hni/order/service/DefaultOrderProcessor.java:122-154 | the address search keeps the draft invariant, the user, the chosen location and the selected items, and only ever moves to CHOOSING_LOCATION |
| Conversation.ChooseLocation | hni-order/src/main/java/org/hni/order/service/DefaultOrderProcessor.java:157-176 | a selection keeps the invariant, the user, the address and both candidate lists, and always replies (no exception escapes) |
| Conversation.ConfirmOrContinue | hni-order/src/main/java/org/hni/order/service/DefaultOrderProcessor.java:178-211 | an order is committed exactly when the draft is deleted; a saved draft keeps the invariant and the user |
| Conversation.Dispatch | hni-order/src/main/java/org/hni/order/service/DefaultOrderProcessor.java:84-106 | a phase handler never saves a draft in phase MEAL, commits only while deleting, and saves nothing when an exception escapes |
| Conversation.Turn | hni-order/src/main/java/org/hni/order/service/DefaultOrderProcessor.java:66-107 | every saved draft keeps the invariant, is not in MEAL and belongs to the user; an order is committed only with the draft deleted; an escaping exception changes nothing; without a draft nothing is deleted |
| Conversation.TurnKeepsStoreOk | hni-order/src/main/java/org/hni/order/service/DefaultOrderProcessor.java:66-107 | a turn keeps every stored draft keyed by its own user and well formed |
| Conversation.EndMealWithoutDraft | hni-order/src/main/java/org/hni/order/service/DefaultOrderProcessor.java:68-71 | ENDMEAL without a draft only says there is nothing to cancel |
| Conversation.EndMealCancelsDraft | hni-order/src/main/java/org/hni/order/service/DefaultOrderProcessor.java:79-81 | ENDMEAL in any letter case deletes the draft and confirms the cancellation |
| Conversation.FirstMessageStartsDraft | hni-order/src/main/java/org/hni/order/service/DefaultOrderProcessor.java:72-89 | any first message but ENDMEAL and STATUS saves a fresh draft in PROVIDING_ADDRESS |
| Conversation.MealRequestAsksForAddress | hni-order/src/main/java/org/hni/order/service/DefaultOrderProcessor.java:113-116 | MEAL or ORDER without a draft asks for the address |
| Conversation.StatusWithoutDraft | hni-order/src/main/java/org/hni/order/service/DefaultOrderProcessor.java:76-78 | STATUS without a draft answers with the status reply and creates no draft |
| Conversation.InvalidSelectionReprompts | hni-order/src/main/java/org/hni/order/service/DefaultOrderProcessor.java:159-174 | a non-number, a number outside 1..3 or past the list re-prompts with "Invalid input! " and the same list, and saves the draft unchanged |
| Conversation.NumberIsNotEndMeal | hni-order/src/main/java/org/hni/order/service/DefaultOrderProcessor.java:160 | text that parses as a number is never ENDMEAL |
| Conversation.ValidSelectionChooses | hni-order/src/main/java/org/hni/order/service/DefaultOrderProcessor.java:164-170 | a valid index i chooses location i, adds item i to the selected items and moves to CONFIRM_OR_REDO |
| Conversation.LabelSelectsCandidate | hni-order/src/main/java/org/hni/order/service/DefaultOrderProcessor.java:160-170 | replying with a listed label among the first three chooses that candidate |
| Conversation.LabelPastMaxRejected | hni-order/src/main/java/org/hni/order/service/DefaultOrderProcessor.java:161-162 | replying with the label of a fourth or later candidate is rejected |
| Conversation.AddressSearchOffersOpenLocations | hni-order/src/main/java/org/hni/order/service/DefaultOrderProcessor.java:126-142 | a successful search records the address and offers, in catalog order, exactly the locations with an open menu, each with its first item, and lists them |
| Conversation.AddressSearchFailures | hni-order/src/main/java/org/hni/order/service/DefaultOrderProcessor.java:143-151 | a geocoding failure is echoed; no providers and no open menu explain themselves; the phase and lists stay; a menu fault escapes |
| Conversation.ProvidingAddressSearches | hni-order/src/main/java/org/hni/order/service/DefaultOrderProcessor.java:91-93 | in PROVIDING_ADDRESS every message but ENDMEAL is searched as an address and the draft saved unless an exception escapes |
| Conversation.ConfirmCommitsOrder | hni-order/src/main/java/org/hni/order/service/DefaultOrderProcessor.java:181-198 | CONFIRM commits the order built from the draft and deletes the draft |
| Conversation.RedoKeepsSelection | hni-order/src/main/java/org/hni/order/service/DefaultOrderProcessor.java:200-206 | REDO searches the stored address again and keeps the chosen location and the selected items |
| Conversation.RedoThenChooseAccumulates | hni-order/src/main/java/org/hni/order/service/DefaultOrderProcessor.java:200-206 | choosing again after REDO adds to the earlier selection rather than replacing it |
| Conversation.OtherInputAwaitsConfirmation | hni-order/src/main/java/org/hni/order/service/DefaultOrderProcessor.java:207-208 | other text in CONFIRM_OR_REDO re-prompts and saves nothing |
| Conversation.ChoosingMenuItemIdles | hni-order/src/main/java/org/hni/order/service/DefaultOrderProcessor.java:97-99 | the reserved CHOOSING_MENU_ITEM phase answers with an empty text and keeps the draft |
| Engine.SelectCurrent | hni-order/src/main/java/org/hni/order/service/DefaultOrderProcessor.java:128-137 | the loop over the nearby locations computes exactly the filter `KeepCurrent` |
| Engine.Draft.Start | hni-order/src/main/java/org/hni/order/service/DefaultOrderProcessor.java:73-75 | a new draft object holds the new draft of the user |
| Engine.Draft.RequestingMeal | hni-order/src/main/java/org/hni/order/service/DefaultOrderProcessor.java:113-120 | the in-place handler leaves the object and the reply that `Conversation.RequestingMeal` gives |
| Engine.Draft.CandidateListText | hni-order/src/main/java/org/hni/order/service/DefaultOrderProcessor.java:238-253 | the loop builds exactly the rendered candidate list |
| Engine.Draft.FindNearbyMeals | hni-order/src/main/java/org/hni/order/service/DefaultOrderProcessor.java:122-154 | the in-place search leaves the object and outcome that `Conversation.FindNearbyMeals` gives |
| Engine.Draft.ChooseLocation | hni-order/src/main/java/org/hni/order/service/DefaultOrderProcessor.java:157-176 | the in-place selection leaves the object and reply that `Conversation.ChooseLocation` gives |
| Engine.DraftStore.ByUser | hni-order/src/main/java/org/hni/order/service/DefaultOrderProcessor.java:67 | the user's draft is loaded as a fresh object holding the stored record, and null means there is none |
| Engine.DraftStore.Save | hni-order/src/main/java/org/hni/order/service/DefaultOrderProcessor.java:105 | saving a well-formed draft keeps the store well formed, stores the draft under its user and changes no other entry |
| Engine.DraftStore.Delete | hni-order/src/main/java/org/hni/order/service/DefaultOrderProcessor.java:80 | deleting keeps the store well formed and removes only the draft's user |
| Engine.SaveThenLoad | hni-order/src/main/java/org/hni/order/service/DefaultOrderProcessor.java:105 | a well-formed draft saved into a well-formed store loads back with the same fields, and the store stays well formed |
| Engine.OrderLedger.Save | hni-order/src/main/java/org/hni/order/service/DefaultOrderProcessor.java:195 | saving an order appends it |
| Engine.OrderProcessor.ProcessMessage | hni-order/src/main/java/org/hni/order/service/DefaultOrderProcessor.java:66-107 | one turn replies, updates the draft store and appends the committed order as `Conversation.Turn` says, and keeps the store well formed |
| Engine.OrderProcessor.RunPhase | hni-order/src/main/java/org/hni/order/service/DefaultOrderProcessor.java:84-106 | the phase switch and the save after it act as `Conversation.Dispatch` says, and keep the store well formed |
| Engine.OrderProcessor.RunHandler | hni-order/src/main/java/org/hni/order/service/DefaultOrderProcessor.java:87-105 | for every phase but CONFIRM_OR_REDO, the handler and the save after it act as `Conversation.Dispatch` says, commit nothing, and keep the store well formed |
| Engine.OrderProcessor.ConfirmOrContinueOrder | hni-order/src/main/java/org/hni/order/service/DefaultOrderProcessor.java:178-211 | CONFIRM, REDO and other text act on the ledger and the store as `Conversation.ConfirmOrContinue` says |
| ProviderAccess.CheckPermission | hni-provider/src/main/java/org/hni/provider/service/DefaultProviderService.java:81-89 | a role grants access iff it is SUPER_ADMIN; CLIENT never does |
| ProviderAccess.IsAdminRole | hni-provider/src/main/java/org/hni/provider/service/DefaultProviderService.java:68-79 | a user is an admin iff the role list is non-empty and its first role is SUPER_ADMIN |
| ProviderAccess.IsAllowed | hni-provider/src/main/java/org/hni/provider/service/DefaultProviderService.java:52-66 | the creator is always allowed; otherwise access iff the first role is SUPER_ADMIN |
| ProviderAccess.GetProviderDetails | hni-provider/src/main/java/org/hni/provider/service/DefaultProviderService.java:43-50 | a missing provider is a fault; otherwise the provider is returned iff the user is allowed, and nothing otherwise |
| ProviderAccess.GetProviderLocations | hni-provider/src/main/java/org/hni/provider/service/DefaultProviderService.java:92-101 | a missing provider is a fault; otherwise the provider's locations are returned iff the user is allowed |
| ProviderAccess.OnlyFirstRoleConsulted | hni-provider/src/main/java/org/hni/provider/service/DefaultProviderService.java:73-77 | roles after the first make no difference |
| ProviderAccess.NonCreatorNeedsSuperAdmin | hni-provider/src/main/java/org/hni/provider/service/DefaultProviderService.java:57-63 | a non-creator with no roles, or whose first role is not SUPER_ADMIN, is refused; SUPER_ADMIN first is allowed |
| ProviderAccess.DetailsAndLocationsAgree | hni-provider/src/main/java/org/hni/provider/service/DefaultProviderService.java:95-100 | details and locations are granted, refused and faulted together |

## Left out

- `handleEvent`, `init` and the `processMessage(Long, String)` overload: they only look up the user or register the service with the event router.
- Logging is not modelled.
- Letter case and digits are ASCII only. `toUpperCase` uses the default locale and `Integer.parseInt` accepts other Unicode digits; neither is modelled.
- The subtotal is a `Double` in the source; the model uses exact integer amounts, so rounding is not modelled.
- `LocalTime.now()` is called once per menu check in the source; the model reads the time once per turn.
- Menus belong to a location's provider in the source; the model attaches them to the location directly.
- The hours are `Long` values narrowed with `intValue()`; the model takes them as unbounded integers, so wrap-around from narrowing is not modelled.
- The source collects order items into a `Set`, whose iteration order is unspecified; the model keeps the order of the selected items (the subtotal is the same in every order, `Orders.SubtotalPermutation`).
- Item and location equality is value equality; the JPA entities' own `equals` is not modelled.
- The order service's query for today's orders and the provider lookup by id are parameters. The DAO and JPA behaviour behind them is not modelled, and neither is persistence at transaction commit.
- Null fields and null pointer exceptions are not modelled, except a provider id with no provider (`ProviderNotFound`).
- The `(ArrayList)` cast of the nearby-provider search's result (DefaultOrderProcessor.java:125) is not modelled: the model takes the result as a list, so the `ClassCastException` another list type would raise is not captured.
- Unchecked exceptions of the nearby-provider search other than `GeoCodingException` are not modelled: the search either returns locations or fails with a geocoding failure.
- The numeric ids of `HNIRoles` are not part of this model; roles are a datatype.
- Concurrent turns for the same user and failures of the stores are not modelled.
