/**
 * The SMS meal-ordering conversation, one turn at a time, on values: the user's draft
 * (PartialOrder) before the turn, the trimmed message, the time of day and the catalog
 * search go in; the reply, what happens to the draft (kept, saved or deleted) and the order
 * committed, if any, come out.  The imperative engine in module Engine is proved to do
 * exactly this.
 */
module Conversation {
  import opened Wrappers
  import opened Text
  import opened Catalog
  import opened Orders

  /** The conversation phases; CHOOSING_MENU_ITEM is reserved and never entered. */
  datatype Phase = Meal | ProvidingAddress | ChoosingLocation | ChoosingMenuItem | ConfirmOrRedo

  /** The stored state of one user's draft (PartialOrder). */
  datatype DraftRecord = DraftRecord(
    user: UserId,
    phase: Phase,
    address: Option<string>,
    locs: seq<Location>,     // providerLocationsForSelection
    items: seq<Item>,        // menuItemsForSelection, parallel to locs
    chosen: Option<Location>,
    selected: seq<Item>)     // menuItemsSelected, a set kept in insertion order

  /** What a turn replies: a text, or an exception that escapes the turn. */
  datatype Outcome = Reply(text: string) | Thrown(fault: Fault)

  /** The draft after one of the phase handlers, and what the handler returned. */
  datatype Step = Step(draft: DraftRecord, out: Outcome)

  /** What a turn does to the draft store. */
  datatype Effect = Keep | SaveDraft(saved: DraftRecord) | DeleteDraft

  datatype TurnResult = TurnResult(out: Outcome, effect: Effect, committed: Option<Order>)

  /** Only indices 1..MaxSelection are accepted when choosing a location. */
  const MaxSelection := 3

  const NotOrderingText := "You are not currently ordering, please respond with MEAL to place an order."
  const CancelledText := "You have successfully cancelled your order."
  const AddressPromptText := "Please provide your address or ENDMEAL to quit"
  const NotUnderstoodText := "I don't understand that, please say MEAL to request a meal."
  const UnavailableText := "All providers there are not currently available. Please try again later, provide a different address or reply ENDMEAL to quit"
  const NoProvidersText := "No provider locations near this address. Please provide another address or ENDMEAL to quit"
  const InvalidInputText := "Invalid input! "
  const SelectionHeader := "Please provide the number for your selection."
  const ConfirmedText := "Your order has been confirmed, please respond with STATUS after 5 minutes to check to status of your order."
  const RespondText := "Please respond with CONFIRM, REDO, or ENDMEAL"

  function ChosenText(item: Item, location: Location): string
  {
    "You have chosen " + item.name + " at " + location.name
      + ". Respond with CONFIRM to place this order, REDO to try again, or ENDMEAL to end your order"
  }

  predicate Distinct<T(==)>(s: seq<T>)
  {
    forall i, j :: 0 <= i < j < |s| ==> s[i] != s[j]
  }

  /**
   * What every stored draft satisfies: the two selection lists are parallel, an address is
   * known once locations are offered, a location is chosen before confirmation, and the
   * selected items form a set.
   */
  predicate DraftOk(d: DraftRecord)
  {
    && |d.locs| == |d.items|
    && (d.phase == ChoosingLocation || d.phase == ConfirmOrRedo ==> d.address.Some?)
    && (d.phase == ConfirmOrRedo ==> d.chosen.Some?)
    && Distinct(d.selected)
  }

  /** A new PartialOrder for the user, in phase MEAL. */
  function NewDraft(user: UserId): (d: DraftRecord)
    ensures DraftOk(d) && d.user == user && d.phase == Meal
  {
    DraftRecord(user, Meal, None, [], [], None, [])
  }

  /** Set.add: the item is present afterwards, nothing else is added, nothing is lost. */
  function AddItem(selected: seq<Item>, item: Item): (r: seq<Item>)
    ensures Distinct(selected) ==> Distinct(r)
    ensures item in r
    ensures forall x :: x in selected ==> x in r
    ensures forall x :: x in r ==> x == item || x in selected
  {
    if item in selected then selected else selected + [item]
  }

  // ---------------------------------------------------------------- candidate list

  function Line2Suffix(line2: Option<string>): string
  {
    if line2.Some? && line2.value != "" then " " + line2.value else ""
  }

  /** Candidate k (0-based) as listed: its 1-based label, location, item and address. */
  function CandidateLine(k: nat, location: Location, item: Item): (r: string)
    ensures |r| > 0 && r[|r| - 1] == '.'
  {
    " " + ShowNat(k + 1) + ") " + location.name + " (" + item.name + ") "
      + location.address.line1 + Line2Suffix(location.address.line2) + "."
  }

  /** Each candidate's line opens with its 1-based label: a space, the number, and ") ". */
  lemma CandidateLineShowsLabel(k: nat, location: Location, item: Item)
    ensures var tag := " " + ShowNat(k + 1) + ") ";
            (|tag| <= |CandidateLine(k, location, item)| && CandidateLine(k, location, item)[..|tag|] == tag)
  {
    var tag := " " + ShowNat(k + 1) + ") ";
    var rest := location.name + " (" + item.name + ") " + location.address.line1 + Line2Suffix(location.address.line2) + ".";
    assert CandidateLine(k, location, item) == tag + rest;
  }

  /** The first n candidate lines. */
  function CandidateLines(locs: seq<Location>, items: seq<Item>, n: nat): (r: string)
    requires n <= |locs| && n <= |items|
    ensures r == "" <==> n == 0
  {
    if n == 0 then "" else CandidateLines(locs, items, n - 1) + CandidateLine(n - 1, locs[n - 1], items[n - 1])
  }

  /** The numbered candidate list sent to the user. */
  function Render(locs: seq<Location>, items: seq<Item>): (r: string)
    requires |locs| == |items|
    ensures SelectionHeader <= r
    ensures r == SelectionHeader <==> locs == []
  {
    SelectionHeader + CandidateLines(locs, items, |locs|)
  }

  lemma {:induction false} CandidateLinesPrefix(locs: seq<Location>, items: seq<Item>, m: nat, n: nat)
    requires m <= n <= |locs| && n <= |items|
    ensures CandidateLines(locs, items, m) <= CandidateLines(locs, items, n)
    decreases n
  {
    if m < n {
      CandidateLinesPrefix(locs, items, m, n - 1);
      var shorter := CandidateLines(locs, items, n - 1);
      assert CandidateLines(locs, items, n) == shorter + CandidateLine(n - 1, locs[n - 1], items[n - 1]);
      assert shorter <= CandidateLines(locs, items, n);
    }
  }

  /**
   * The list shows every candidate, in order, each under its 1-based label: the header and
   * the lines of candidates 0..k-1 followed by the line of candidate k begin the text.
   */
  lemma RenderListsCandidate(locs: seq<Location>, items: seq<Item>, k: nat)
    requires |locs| == |items| && k < |locs|
    ensures CandidateLines(locs, items, k + 1) == CandidateLines(locs, items, k) + CandidateLine(k, locs[k], items[k])
    ensures SelectionHeader + CandidateLines(locs, items, k + 1) <= Render(locs, items)
  {
    CandidateLinesPrefix(locs, items, k + 1, |locs|);
    PrefixUnderHeader(SelectionHeader, CandidateLines(locs, items, k + 1), CandidateLines(locs, items, |locs|));
  }

  lemma PrefixUnderHeader(header: string, a: string, b: string)
    requires a <= b
    ensures header + a <= header + b
  {
    assert b == a + b[|a|..];
    assert header + b == (header + a) + b[|a|..];
  }

  // ---------------------------------------------------------------- phase handlers

  predicate IsMealRequest(message: string)
  {
    EqualsIgnoreCase(message, "MEAL") || EqualsIgnoreCase(message, "ORDER")
  }

  /** Phase MEAL: always advances to PROVIDING_ADDRESS, whatever the message. */
  function RequestingMeal(d: DraftRecord, request: string): (s: Step)
    ensures DraftOk(d) ==> DraftOk(s.draft)
    ensures s.draft.phase == ProvidingAddress && s.draft.(phase := d.phase) == d
    ensures s.out.Reply? && (s.out.text == AddressPromptText <==> IsMealRequest(request))
  {
    Step(d.(phase := ProvidingAddress), Reply(if IsMealRequest(request) then AddressPromptText else NotUnderstoodText))
  }

  /**
   * Treat the text as an address and search near it: offer the locations with a menu open
   * now and move to CHOOSING_LOCATION, or explain why not and keep the phase.
   */
  function FindNearbyMeals(d: DraftRecord, addressText: string, now: TimeOfDay, catalog: string -> Nearby): (s: Step)
    ensures DraftOk(d) ==> DraftOk(s.draft)
    ensures s.draft.user == d.user && s.draft.chosen == d.chosen && s.draft.selected == d.selected
    ensures s.draft.phase == d.phase || s.draft.phase == ChoosingLocation
  {
    match catalog(addressText)
    case GeoFailure(message) => Step(d, Reply(message))
    case Found(nearby) =>
      if nearby == [] then Step(d, Reply(NoProvidersText))
      else
        var withAddress := d.(address := Some(addressText));
        match KeepCurrent(nearby, now)
        case Err(f) => Step(withAddress, Thrown(f))
        case Ok(c) =>
          if c.locs == [] then Step(withAddress, Reply(UnavailableText))
          else Step(withAddress.(locs := c.locs, items := c.items, phase := ChoosingLocation), Reply(Render(c.locs, c.items)))
  }

  /** The message names a candidate: an int in 1..MaxSelection that indexes the list. */
  predicate IsSelection(d: DraftRecord, message: string)
  {
    var parsed := ParseInt(message);
    parsed.Some? && 1 <= parsed.value <= MaxSelection && parsed.value <= |d.locs|
  }

  /** Phase CHOOSING_LOCATION: take the candidate the message names, or re-prompt. */
  function ChooseLocation(d: DraftRecord, message: string): (s: Step)
    requires |d.locs| == |d.items|
    ensures DraftOk(d) && d.phase == ChoosingLocation ==> DraftOk(s.draft)
    ensures s.draft.user == d.user && s.draft.address == d.address
    ensures s.draft.locs == d.locs && s.draft.items == d.items
    ensures s.out.Reply?
  {
    var parsed := ParseInt(message);
    if parsed.None? || parsed.value < 1 || parsed.value > MaxSelection || parsed.value > |d.locs| then
      Step(d, Reply(InvalidInputText + Render(d.locs, d.items)))
    else
      var k := parsed.value - 1;
      Step(d.(chosen := Some(d.locs[k]), selected := AddItem(d.selected, d.items[k]), phase := ConfirmOrRedo),
           Reply(ChosenText(d.items[k], d.locs[k])))
  }

  /** Save the draft a handler produced, unless an exception escaped it. */
  function SaveUnlessThrown(s: Step): (t: TurnResult)
    ensures t.out == s.out && t.committed == None
    ensures t.effect == if s.out.Thrown? then Keep else SaveDraft(s.draft)
  {
    if s.out.Thrown? then TurnResult(s.out, Keep, None) else TurnResult(s.out, SaveDraft(s.draft), None)
  }

  /** Phase CONFIRM_OR_REDO: commit the order, search the stored address again, or re-prompt. */
  function ConfirmOrContinue(d: DraftRecord, message: string, now: TimeOfDay, orderDate: int,
                             catalog: string -> Nearby): (t: TurnResult)
    requires DraftOk(d) && d.phase == ConfirmOrRedo
    ensures t.committed.Some? <==> t.effect == DeleteDraft
    ensures t.effect.SaveDraft? ==> DraftOk(t.effect.saved) && t.effect.saved.user == d.user
  {
    var command := UpperCase(message);
    if command == "CONFIRM" then
      TurnResult(Reply(ConfirmedText), DeleteDraft, Some(BuildOrder(d.user, orderDate, d.chosen.value, d.selected)))
    else if command == "REDO" then
      SaveUnlessThrown(FindNearbyMeals(d, d.address.value, now, catalog))
    else
      TurnResult(Reply(RespondText), Keep, None)
  }

  /** The handler of the draft's phase. */
  function Dispatch(d: DraftRecord, message: string, now: TimeOfDay, orderDate: int,
                    catalog: string -> Nearby): (t: TurnResult)
    requires DraftOk(d)
    ensures t.committed.Some? ==> t.effect == DeleteDraft
    ensures t.effect.SaveDraft? ==> DraftOk(t.effect.saved) && t.effect.saved.user == d.user && t.effect.saved.phase != Meal
    ensures t.out.Thrown? ==> t.effect == Keep && t.committed == None
  {
    match d.phase
    case Meal => SaveUnlessThrown(RequestingMeal(d, message))
    case ProvidingAddress => SaveUnlessThrown(FindNearbyMeals(d, message, now, catalog))
    case ChoosingLocation => SaveUnlessThrown(ChooseLocation(d, message))
    case ChoosingMenuItem => TurnResult(Reply(""), SaveDraft(d), None)
    case ConfirmOrRedo => ConfirmOrContinue(d, message, now, orderDate, catalog)
  }

  /**
   * One conversation turn.  `draft` is the user's stored draft, if any; `recent` is what
   * the order service lists as the user's recent orders (consulted only by STATUS).
   * Every draft the turn saves keeps the draft invariant and belongs to the user, no draft
   * is ever saved in phase MEAL, an order is committed only together with deleting the
   * draft, and a turn whose exception escapes changes nothing.
   */
  function Turn(draft: Option<DraftRecord>, user: UserId, message: string, now: TimeOfDay, orderDate: int,
                catalog: string -> Nearby, recent: seq<Order>): (t: TurnResult)
    requires draft.Some? ==> DraftOk(draft.value)
    ensures t.effect.SaveDraft? ==>
              DraftOk(t.effect.saved) && t.effect.saved.phase != Meal
              && t.effect.saved.user == (if draft.Some? then draft.value.user else user)
    ensures t.committed.Some? ==> draft.Some? && t.effect == DeleteDraft
    ensures t.out.Thrown? ==> t.effect == Keep && t.committed == None
    ensures draft.None? ==> t.effect != DeleteDraft
  {
    var cancellation := EqualsIgnoreCase(message, "ENDMEAL");
    if draft.None? && cancellation then TurnResult(Reply(NotOrderingText), Keep, None)
    else if draft.None? && !EqualsIgnoreCase(message, "STATUS") then
      Dispatch(NewDraft(user), message, now, orderDate, catalog)
    else if draft.None? then TurnResult(Reply(StatusReply(recent)), Keep, None)
    else if cancellation then TurnResult(Reply(CancelledText), DeleteDraft, None)
    else Dispatch(draft.value, message, now, orderDate, catalog)
  }

  // ---------------------------------------------------------------- the store

  function Lookup(drafts: map<UserId, DraftRecord>, user: UserId): Option<DraftRecord>
  {
    if user in drafts then Some(drafts[user]) else None
  }

  function ApplyEffect(drafts: map<UserId, DraftRecord>, user: UserId, effect: Effect): map<UserId, DraftRecord>
  {
    match effect
    case Keep => drafts
    case SaveDraft(d) => drafts[user := d]
    case DeleteDraft => drafts - {user}
  }

  function Committed(t: TurnResult): seq<Order>
  {
    if t.committed.Some? then [t.committed.value] else []
  }

  /** Every stored draft is keyed by its own user and keeps the draft invariant. */
  predicate StoreOk(drafts: map<UserId, DraftRecord>)
  {
    forall u :: u in drafts ==> drafts[u].user == u && DraftOk(drafts[u])
  }

  /** A turn keeps the draft store well formed. */
  lemma TurnKeepsStoreOk(drafts: map<UserId, DraftRecord>, user: UserId, message: string, now: TimeOfDay,
                         orderDate: int, catalog: string -> Nearby, recent: seq<Order>)
    requires StoreOk(drafts)
    ensures StoreOk(ApplyEffect(drafts, user,
                      Turn(Lookup(drafts, user), user, message, now, orderDate, catalog, recent).effect))
  {
  }

  // ---------------------------------------------------------------- properties of a turn

  /** With no draft, ENDMEAL only says there is nothing to cancel. */
  lemma EndMealWithoutDraft(user: UserId, message: string, now: TimeOfDay, orderDate: int,
                            catalog: string -> Nearby, recent: seq<Order>)
    requires EqualsIgnoreCase(message, "ENDMEAL")
    ensures Turn(None, user, message, now, orderDate, catalog, recent) == TurnResult(Reply(NotOrderingText), Keep, None)
  {
  }

  /** With a draft, ENDMEAL in any letter case deletes it and confirms the cancellation. */
  lemma EndMealCancelsDraft(d: DraftRecord, message: string, now: TimeOfDay, orderDate: int,
                            catalog: string -> Nearby, recent: seq<Order>)
    requires DraftOk(d) && EqualsIgnoreCase(message, "ENDMEAL")
    ensures Turn(Some(d), d.user, message, now, orderDate, catalog, recent) == TurnResult(Reply(CancelledText), DeleteDraft, None)
  {
  }

  /**
   * With no draft, any message but ENDMEAL and STATUS starts a draft that is saved in phase
   * PROVIDING_ADDRESS, even when the message is not MEAL or ORDER; only the reply differs.
   */
  lemma FirstMessageStartsDraft(user: UserId, message: string, now: TimeOfDay, orderDate: int,
                                catalog: string -> Nearby, recent: seq<Order>)
    requires !EqualsIgnoreCase(message, "ENDMEAL") && !EqualsIgnoreCase(message, "STATUS")
    ensures Turn(None, user, message, now, orderDate, catalog, recent)
         == TurnResult(Reply(if IsMealRequest(message) then AddressPromptText else NotUnderstoodText),
                       SaveDraft(DraftRecord(user, ProvidingAddress, None, [], [], None, [])), None)
  {
  }

  /** With no draft, MEAL or ORDER in any letter case asks for the address. */
  lemma MealRequestAsksForAddress(user: UserId, message: string, now: TimeOfDay, orderDate: int,
                                  catalog: string -> Nearby, recent: seq<Order>)
    requires IsMealRequest(message)
    ensures var t := Turn(None, user, message, now, orderDate, catalog, recent);
            t.out == Reply(AddressPromptText) && t.effect == SaveDraft(NewDraft(user).(phase := ProvidingAddress))
  {
    assert !EqualsIgnoreCase(message, "ENDMEAL") && !EqualsIgnoreCase(message, "STATUS") by {
      assert |UpperCase(message)| == 4 || |UpperCase(message)| == 5;
    }
  }

  /** With no draft, STATUS reports on the most recent order and creates no draft. */
  lemma StatusWithoutDraft(user: UserId, message: string, now: TimeOfDay, orderDate: int,
                           catalog: string -> Nearby, recent: seq<Order>)
    requires EqualsIgnoreCase(message, "STATUS")
    ensures Turn(None, user, message, now, orderDate, catalog, recent) == TurnResult(Reply(StatusReply(recent)), Keep, None)
  {
    assert !EqualsIgnoreCase(message, "ENDMEAL") by {
      assert |UpperCase(message)| == 6;
    }
  }

  /**
   * In CHOOSING_LOCATION, text that is not a number, a number outside 1..3, or a number past
   * the end of the list re-prompts with "Invalid input! " and the same list, and saves the
   * draft unchanged; so sending the same text again gives the same answer.
   */
  lemma InvalidSelectionReprompts(d: DraftRecord, message: string, now: TimeOfDay, orderDate: int,
                                  catalog: string -> Nearby, recent: seq<Order>)
    requires DraftOk(d) && d.phase == ChoosingLocation
    requires !EqualsIgnoreCase(message, "ENDMEAL") && !IsSelection(d, message)
    ensures Turn(Some(d), d.user, message, now, orderDate, catalog, recent)
         == TurnResult(Reply(InvalidInputText + Render(d.locs, d.items)), SaveDraft(d), None)
  {
  }

  /** A number never reads as ENDMEAL. */
  lemma NumberIsNotEndMeal(message: string)
    requires ParseInt(message).Some?
    ensures !EqualsIgnoreCase(message, "ENDMEAL")
  {
  }

  /**
   * In CHOOSING_LOCATION, a valid index i chooses location i, adds item i to the selected
   * items and moves to CONFIRM_OR_REDO; the candidate lists and address stay as they were.
   */
  lemma ValidSelectionChooses(d: DraftRecord, message: string, now: TimeOfDay, orderDate: int,
                              catalog: string -> Nearby, recent: seq<Order>)
    requires DraftOk(d) && d.phase == ChoosingLocation && IsSelection(d, message)
    ensures var k := ParseInt(message).value - 1;
            (Turn(Some(d), d.user, message, now, orderDate, catalog, recent)
             == TurnResult(Reply(ChosenText(d.items[k], d.locs[k])),
                           SaveDraft(d.(chosen := Some(d.locs[k]), selected := AddItem(d.selected, d.items[k]), phase := ConfirmOrRedo)),
                           None))
  {
    NumberIsNotEndMeal(message);
  }

  /** Replying with the label a candidate is listed under chooses it, for the first three. */
  lemma LabelSelectsCandidate(d: DraftRecord, k: nat, now: TimeOfDay, orderDate: int,
                              catalog: string -> Nearby, recent: seq<Order>)
    requires DraftOk(d) && d.phase == ChoosingLocation && k < |d.locs| && k < MaxSelection
    ensures Turn(Some(d), d.user, ShowNat(k + 1), now, orderDate, catalog, recent).effect
         == SaveDraft(d.(chosen := Some(d.locs[k]), selected := AddItem(d.selected, d.items[k]), phase := ConfirmOrRedo))
  {
    ParseShowRoundTrip(k + 1);
    ValidSelectionChooses(d, ShowNat(k + 1), now, orderDate, catalog, recent);
  }

  /** Candidates past the third are listed under a label, but replying with it is rejected. */
  lemma LabelPastMaxRejected(d: DraftRecord, k: nat, now: TimeOfDay, orderDate: int,
                             catalog: string -> Nearby, recent: seq<Order>)
    requires DraftOk(d) && d.phase == ChoosingLocation && MaxSelection <= k < |d.locs|
    ensures Turn(Some(d), d.user, ShowNat(k + 1), now, orderDate, catalog, recent)
         == TurnResult(Reply(InvalidInputText + Render(d.locs, d.items)), SaveDraft(d), None)
  {
    ParseShowRoundTrip(k + 1);
    var s := ShowNat(k + 1);
    InvalidSelectionReprompts(d, s, now, orderDate, catalog, recent);
  }

  /**
   * A successful address search: the draft records the address, offers exactly the nearby
   * locations with a menu open now (in catalog order, none twice unless listed twice),
   * each with the first item of its first open menu, lists them, and moves to
   * CHOOSING_LOCATION; the chosen location and selected items are untouched.
   */
  lemma AddressSearchOffersOpenLocations(d: DraftRecord, addressText: string, now: TimeOfDay, catalog: string -> Nearby)
    requires catalog(addressText).Found?
    requires forall i :: 0 <= i < |catalog(addressText).locations| ==> Pick(catalog(addressText).locations[i], now).Ok?
    requires exists i :: 0 <= i < |catalog(addressText).locations| && Offers(catalog(addressText).locations[i], now)
    ensures var s := FindNearbyMeals(d, addressText, now, catalog);
            var nearby := catalog(addressText).locations;
            && s.draft == d.(address := Some(addressText), locs := s.draft.locs, items := s.draft.items, phase := ChoosingLocation)
            && IsSubseq(s.draft.locs, nearby)
            && |s.draft.locs| == |s.draft.items| == CountOffering(nearby, now) > 0
            && (forall j :: 0 <= j < |s.draft.locs| ==> Pick(s.draft.locs[j], now) == Ok(Some(s.draft.items[j])))
            && (forall i :: 0 <= i < |nearby| && Offers(nearby[i], now) ==> nearby[i] in s.draft.locs)
            && s.out == Reply(Render(s.draft.locs, s.draft.items))
  {
    var nearby := catalog(addressText).locations;
    var i :| 0 <= i < |nearby| && Offers(nearby[i], now);
    KeepCurrentKeepsOrder(nearby, now);
    assert nearby[i] in KeepCurrent(nearby, now).value.locs;
  }

  /**
   * The address search fails softly: a geocoding failure is echoed, an empty search and a
   * search with no open menu explain themselves, and in all three the phase and the
   * candidate lists stay as they were (the address is recorded once providers are found).
   */
  lemma AddressSearchFailures(d: DraftRecord, addressText: string, now: TimeOfDay, catalog: string -> Nearby)
    ensures catalog(addressText).GeoFailure? ==>
              FindNearbyMeals(d, addressText, now, catalog) == Step(d, Reply(catalog(addressText).message))
    ensures catalog(addressText) == Found([]) ==>
              FindNearbyMeals(d, addressText, now, catalog) == Step(d, Reply(NoProvidersText))
    ensures var nearby := catalog(addressText);
            nearby.Found? && nearby.locations != []
            && (forall i :: 0 <= i < |nearby.locations| ==> Pick(nearby.locations[i], now) == Ok(None)) ==>
              FindNearbyMeals(d, addressText, now, catalog) == Step(d.(address := Some(addressText)), Reply(UnavailableText))
    ensures var nearby := catalog(addressText);
            nearby.Found? && (exists i :: 0 <= i < |nearby.locations| && Pick(nearby.locations[i], now).Err?) ==>
              FindNearbyMeals(d, addressText, now, catalog).out.Thrown?
  {
    var nearby := catalog(addressText);
    if nearby.Found? && nearby.locations != []
       && (forall i :: 0 <= i < |nearby.locations| ==> Pick(nearby.locations[i], now) == Ok(None)) {
      CountOfferingNone(nearby.locations, now);
    }
  }

  /** In PROVIDING_ADDRESS, every message but ENDMEAL, STATUS included, is searched as an address. */
  lemma ProvidingAddressSearches(d: DraftRecord, message: string, now: TimeOfDay, orderDate: int,
                                 catalog: string -> Nearby, recent: seq<Order>)
    requires DraftOk(d) && d.phase == ProvidingAddress && !EqualsIgnoreCase(message, "ENDMEAL")
    ensures var s := FindNearbyMeals(d, message, now, catalog);
            (Turn(Some(d), d.user, message, now, orderDate, catalog, recent)
             == TurnResult(s.out, if s.out.Thrown? then Keep else SaveDraft(s.draft), None))
  {
  }

  /**
   * CONFIRM commits an OPEN order for the draft's user, at the chosen location, with one
   * line per selected item at quantity 1 and the item's price, whose subtotal is the sum of
   * those prices; the draft is deleted.
   */
  lemma ConfirmCommitsOrder(d: DraftRecord, message: string, now: TimeOfDay, orderDate: int,
                            catalog: string -> Nearby, recent: seq<Order>)
    requires DraftOk(d) && d.phase == ConfirmOrRedo && UpperCase(message) == "CONFIRM"
    ensures var t := Turn(Some(d), d.user, message, now, orderDate, catalog, recent);
            && t.out == Reply(ConfirmedText) && t.effect == DeleteDraft && t.committed.Some?
            && var o := t.committed.value;
            && o.userId == d.user && o.orderDate == orderDate && o.location == d.chosen.value && o.status == Open
            && |o.lines| == |d.selected|
            && (forall i :: 0 <= i < |d.selected| ==>
                  o.lines[i].quantity == 1 && o.lines[i].amount == d.selected[i].price && o.lines[i].item == d.selected[i])
            && o.subtotal == SumPrices(d.selected)
  {
    assert !EqualsIgnoreCase(message, "ENDMEAL") by {
      assert UpperCase("ENDMEAL")[0] == 'E';
    }
  }

  /**
   * REDO searches the stored address again without clearing the chosen location or the
   * selected items; when the new search fails the phase stays CONFIRM_OR_REDO.
   */
  lemma RedoKeepsSelection(d: DraftRecord, message: string, now: TimeOfDay, orderDate: int,
                           catalog: string -> Nearby, recent: seq<Order>)
    requires DraftOk(d) && d.phase == ConfirmOrRedo && UpperCase(message) == "REDO"
    ensures var t := Turn(Some(d), d.user, message, now, orderDate, catalog, recent);
            && t.committed == None
            && t == SaveUnlessThrown(FindNearbyMeals(d, d.address.value, now, catalog))
            && (t.effect.SaveDraft? ==>
                  && t.effect.saved.selected == d.selected && t.effect.saved.chosen == d.chosen
                  && (t.effect.saved.phase == ConfirmOrRedo || t.effect.saved.phase == ChoosingLocation))
  {
    assert !EqualsIgnoreCase(message, "ENDMEAL") by {
      assert |UpperCase("ENDMEAL")| == 7;
    }
  }

  /**
   * Because REDO keeps the selected items, choosing again after REDO adds to them: the
   * next confirmed order carries the earlier item as well as the new one.
   */
  lemma RedoThenChooseAccumulates(d: DraftRecord, redo: string, choice: string, now: TimeOfDay, orderDate: int,
                                  catalog: string -> Nearby, recent: seq<Order>)
    requires DraftOk(d) && d.phase == ConfirmOrRedo && UpperCase(redo) == "REDO"
    requires var t := Turn(Some(d), d.user, redo, now, orderDate, catalog, recent);
             t.effect.SaveDraft? && t.effect.saved.phase == ChoosingLocation && IsSelection(t.effect.saved, choice)
    ensures var d1 := Turn(Some(d), d.user, redo, now, orderDate, catalog, recent).effect.saved;
            var t2 := Turn(Some(d1), d.user, choice, now, orderDate, catalog, recent);
            t2.effect.SaveDraft?
            && (forall x :: x in d.selected ==> x in t2.effect.saved.selected)
            && d1.items[ParseInt(choice).value - 1] in t2.effect.saved.selected
  {
    RedoKeepsSelection(d, redo, now, orderDate, catalog, recent);
    var d1 := Turn(Some(d), d.user, redo, now, orderDate, catalog, recent).effect.saved;
    ValidSelectionChooses(d1, choice, now, orderDate, catalog, recent);
  }

  /** In CONFIRM_OR_REDO, anything but CONFIRM, REDO and ENDMEAL re-prompts and saves nothing. */
  lemma OtherInputAwaitsConfirmation(d: DraftRecord, message: string, now: TimeOfDay, orderDate: int,
                                     catalog: string -> Nearby, recent: seq<Order>)
    requires DraftOk(d) && d.phase == ConfirmOrRedo && !EqualsIgnoreCase(message, "ENDMEAL")
    requires UpperCase(message) != "CONFIRM" && UpperCase(message) != "REDO"
    ensures Turn(Some(d), d.user, message, now, orderDate, catalog, recent) == TurnResult(Reply(RespondText), Keep, None)
  {
  }

  /** The reserved CHOOSING_MENU_ITEM phase answers with an empty reply and keeps the draft. */
  lemma ChoosingMenuItemIdles(d: DraftRecord, message: string, now: TimeOfDay, orderDate: int,
                              catalog: string -> Nearby, recent: seq<Order>)
    requires DraftOk(d) && d.phase == ChoosingMenuItem && !EqualsIgnoreCase(message, "ENDMEAL")
    ensures Turn(Some(d), d.user, message, now, orderDate, catalog, recent) == TurnResult(Reply(""), SaveDraft(d), None)
  {
  }
}
