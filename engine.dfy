/**
 * The order processor as the service runs it: the in-memory draft (PartialOrder) whose
 * fields the phase handlers update in place, the draft store and the order ledger it
 * saves to and deletes from, and processMessage, which runs one turn.  Every method is
 * proved to do what the functions of module Conversation describe.
 */
module Engine {
  import opened Wrappers
  import opened Text
  import opened Catalog
  import opened Orders
  import opened Conversation

  /**
   * The locations of the search that have a menu open now, each with the first item of its
   * first open menu, built in one pass; the first fault stops the pass.
   */
  method SelectCurrent(nearby: seq<Location>, now: TimeOfDay) returns (r: Result<Candidates, Fault>)
    ensures r == KeepCurrent(nearby, now)
  {
    var withMenu: seq<Location> := [];
    var items: seq<Item> := [];
    for i := 0 to |nearby|
      invariant KeepCurrent(nearby[..i], now) == Ok(Candidates(withMenu, items))
    {
      var location := nearby[i];
      KeepCurrentStep(nearby, i, now);
      var currentMenu := FirstCurrentMenu(location.menus, now);
      if currentMenu.Err? || (currentMenu.value.Some? && currentMenu.value.value.items == []) {
        r := if currentMenu.Err? then Err(currentMenu.error) else Err(NoMenuItems);
        assert KeepCurrent(nearby[..i + 1], now) == r;
        KeepCurrentFaultStops(nearby, i, now);
        return;
      }
      if currentMenu.value.Some? {
        withMenu := withMenu + [location];
        items := items + [currentMenu.value.value.items[0]];
      }
    }
    assert nearby[..|nearby|] == nearby;
    r := Ok(Candidates(withMenu, items));
  }

  /** A user's in-progress order. */
  class Draft {
    var user: UserId
    var phase: Phase
    var address: Option<string>
    var locs: seq<Location>
    var items: seq<Item>
    var chosen: Option<Location>
    var selected: seq<Item>

    /** The draft's fields as the store keeps them. */
    function Record(): DraftRecord
      reads this
    {
      DraftRecord(user, phase, address, locs, items, chosen, selected)
    }

    predicate Valid()
      reads this
    {
      DraftOk(Record())
    }

    /** A new draft for the user, in phase MEAL. */
    constructor Start(user: UserId)
      ensures Record() == NewDraft(user)
    {
      this.user := user;
      phase := Meal;
      address := None;
      locs, items := [], [];
      chosen := None;
      selected := [];
    }

    /** A draft loaded from the store. */
    constructor Load(r: DraftRecord)
      ensures Record() == r
    {
      user, phase, address := r.user, r.phase, r.address;
      locs, items := r.locs, r.items;
      chosen, selected := r.chosen, r.selected;
    }

    /** Phase MEAL: move on to the address whatever was said; the reply depends on it. */
    method RequestingMeal(request: string) returns (reply: string)
      modifies this
      ensures Step(Record(), Reply(reply)) == Conversation.RequestingMeal(old(Record()), request)
    {
      phase := ProvidingAddress;
      if IsMealRequest(request) {
        reply := AddressPromptText;
      } else {
        reply := NotUnderstoodText;
      }
    }

    /** The numbered candidate list, one line per location and its item. */
    method CandidateListText() returns (text: string)
      requires |locs| == |items|
      ensures text == Render(locs, items)
    {
      var lines := "";
      for i := 0 to |locs|
        invariant lines == CandidateLines(locs, items, i)
      {
        var location := locs[i];
        var suffix := "";
        var line2 := location.address.line2;
        if line2.Some? && line2.value != "" {
          suffix := " " + line2.value;
        }
        lines := lines + (" " + ShowNat(i + 1) + ") " + location.name + " (" + items[i].name + ") "
                          + location.address.line1 + suffix + ".");
      }
      text := SelectionHeader + lines;
    }

    /** Search near the address and offer the locations with a menu open now. */
    method FindNearbyMeals(addressText: string, now: TimeOfDay, catalog: string -> Nearby) returns (out: Outcome)
      modifies this
      ensures Step(Record(), out) == Conversation.FindNearbyMeals(old(Record()), addressText, now, catalog)
    {
      var nearby := catalog(addressText);
      if nearby.GeoFailure? {
        return Reply(nearby.message);
      }
      if nearby.locations == [] {
        return Reply(NoProvidersText);
      }
      address := Some(addressText);
      var kept := SelectCurrent(nearby.locations, now);
      if kept.Err? {
        return Thrown(kept.error);
      }
      if kept.value.locs == [] {
        return Reply(UnavailableText);
      }
      locs := kept.value.locs;
      items := kept.value.items;
      var text := CandidateListText();
      phase := ChoosingLocation;
      out := Reply(text);
    }

    /** Take the candidate the message names, or re-prompt with the list. */
    method ChooseLocation(message: string) returns (reply: string)
      requires |locs| == |items|
      modifies this
      ensures Step(Record(), Reply(reply)) == Conversation.ChooseLocation(old(Record()), message)
    {
      var index := ParseInt(message);
      if index.None? || index.value < 1 || index.value > MaxSelection || index.value > |locs| {
        var list := CandidateListText();
        reply := InvalidInputText + list;
        return;
      }
      var location := locs[index.value - 1];
      chosen := Some(location);
      var chosenItem := items[index.value - 1];
      selected := AddItem(selected, chosenItem);
      phase := ConfirmOrRedo;
      reply := ChosenText(chosenItem, location);
    }
  }

  /** The draft store: at most one draft per user, kept as a value. */
  class DraftStore {
    var drafts: map<UserId, DraftRecord>

    predicate Valid()
      reads this
    {
      StoreOk(drafts)
    }

    constructor ()
      ensures Valid() && drafts == map[]
    {
      drafts := map[];
    }

    /** The user's draft, as a fresh object, or null when there is none. */
    method ByUser(user: UserId) returns (d: Draft?)
      ensures d == null <==> user !in drafts
      ensures d != null ==> fresh(d) && d.Record() == drafts[user]
    {
      if user in drafts {
        d := new Draft.Load(drafts[user]);
      } else {
        d := null;
      }
    }

    method Save(d: Draft)
      requires Valid() && d.Valid()
      modifies this
      ensures Valid()
      ensures drafts == old(drafts)[d.user := d.Record()]
    {
      drafts := drafts[d.user := d.Record()];
    }

    method Delete(d: Draft)
      requires Valid()
      modifies this
      ensures Valid()
      ensures drafts == old(drafts) - {d.user}
    {
      drafts := drafts - {d.user};
    }
  }

  /** Saving a draft and loading it back gives the same phase, address and collections. */
  method SaveThenLoad(store: DraftStore, d: Draft) returns (loaded: Draft?)
    requires store.Valid() && d.Valid()
    modifies store
    ensures store.Valid()
    ensures loaded != null && loaded.Record() == d.Record()
  {
    store.Save(d);
    loaded := store.ByUser(d.user);
  }

  /** The finalised orders, in the order they were saved. */
  class OrderLedger {
    var orders: seq<Order>

    constructor ()
      ensures orders == []
    {
      orders := [];
    }

    method Save(o: Order)
      modifies this
      ensures orders == old(orders) + [o]
    {
      orders := orders + [o];
    }
  }

  /** The conversation engine over its two stores. */
  class OrderProcessor {
    const drafts: DraftStore
    const ledger: OrderLedger

    constructor (drafts: DraftStore, ledger: OrderLedger)
      ensures this.drafts == drafts && this.ledger == ledger
    {
      this.drafts := drafts;
      this.ledger := ledger;
    }

    /**
     * One turn for the user: `now` is the time of day, `orderDate` the timestamp an order
     * confirmed now gets, `catalog` the nearby-provider search and `recent` the user's recent
     * orders as the order service lists them.
     */
    method ProcessMessage(user: UserId, message: string, now: TimeOfDay, orderDate: int,
                          catalog: string -> Nearby, recent: seq<Order>) returns (out: Outcome)
      requires drafts.Valid()
      modifies drafts, ledger
      ensures drafts.Valid()
      ensures var t := Turn(Lookup(old(drafts.drafts), user), user, message, now, orderDate, catalog, recent);
              && out == t.out
              && drafts.drafts == ApplyEffect(old(drafts.drafts), user, t.effect)
              && ledger.orders == old(ledger.orders) + Committed(t)
    {
      var order := drafts.ByUser(user);
      var cancellation := EqualsIgnoreCase(message, "ENDMEAL");
      if order == null && cancellation {
        return Reply(NotOrderingText);
      } else if order == null && !EqualsIgnoreCase(message, "STATUS") {
        order := new Draft.Start(user);
      } else if order == null {
        return Reply(StatusReply(recent));
      } else if cancellation {
        drafts.Delete(order);
        return Reply(CancelledText);
      }

      ghost var before := drafts.drafts;
      out := RunPhase(order, message, now, orderDate, catalog);
      TurnKeepsStoreOk(before, user, message, now, orderDate, catalog, recent);
    }

    /** Hand the message to the handler of the draft's phase and store what it leaves. */
    method RunPhase(order: Draft, message: string, now: TimeOfDay, orderDate: int,
                    catalog: string -> Nearby) returns (out: Outcome)
      requires order.Valid() && drafts.Valid()
      modifies drafts, ledger, order
      ensures drafts.Valid()
      ensures var t := Dispatch(old(order.Record()), message, now, orderDate, catalog);
              && out == t.out
              && drafts.drafts == ApplyEffect(old(drafts.drafts), old(order.user), t.effect)
              && ledger.orders == old(ledger.orders) + Committed(t)
    {
      if order.phase == ConfirmOrRedo {
        out := ConfirmOrContinueOrder(message, order, now, orderDate, catalog);
      } else {
        out := RunHandler(order, message, now, orderDate, catalog);
      }
    }

    /** The phases whose handler leaves the draft to be saved after it (all but CONFIRM_OR_REDO). */
    method RunHandler(order: Draft, message: string, now: TimeOfDay, orderDate: int,
                      catalog: string -> Nearby) returns (out: Outcome)
      requires order.Valid() && drafts.Valid() && order.phase != ConfirmOrRedo
      modifies drafts, order
      ensures drafts.Valid()
      ensures var t := Dispatch(old(order.Record()), message, now, orderDate, catalog);
              && out == t.out && t.committed == None
              && drafts.drafts == ApplyEffect(old(drafts.drafts), old(order.user), t.effect)
    {
      ghost var start := order.Record();
      var output := "";
      match order.phase {
        case Meal =>
          output := order.RequestingMeal(message);
          assert order.Record() == Conversation.RequestingMeal(start, message).draft;
        case ProvidingAddress =>
          var found := order.FindNearbyMeals(message, now, catalog);
          if found.Thrown? {
            return found;
          }
          output := found.text;
          assert order.Record() == Conversation.FindNearbyMeals(start, message, now, catalog).draft;
        case ChoosingLocation =>
          output := order.ChooseLocation(message);
          assert order.Record() == Conversation.ChooseLocation(start, message).draft;
        case ChoosingMenuItem =>
      }
      drafts.Save(order);
      out := Reply(output);
    }

    /** Phase CONFIRM_OR_REDO: commit the order, search again, or re-prompt. */
    method ConfirmOrContinueOrder(message: string, order: Draft, now: TimeOfDay, orderDate: int,
                                  catalog: string -> Nearby) returns (out: Outcome)
      requires order.Valid() && order.phase == ConfirmOrRedo && drafts.Valid()
      modifies drafts, ledger, order
      ensures drafts.Valid()
      ensures var t := ConfirmOrContinue(old(order.Record()), message, now, orderDate, catalog);
              && out == t.out
              && drafts.drafts == ApplyEffect(old(drafts.drafts), old(order.user), t.effect)
              && ledger.orders == old(ledger.orders) + Committed(t)
    {
      var command := UpperCase(message);
      if command == "CONFIRM" {
        var finalOrder := BuildOrder(order.user, orderDate, order.chosen.value, order.selected);
        ledger.Save(finalOrder);
        drafts.Delete(order);
        out := Reply(ConfirmedText);
      } else if command == "REDO" {
        out := order.FindNearbyMeals(order.address.value, now, catalog);
        if out.Thrown? {
          return;
        }
        drafts.Save(order);
      } else {
        out := Reply(RespondText);
      }
    }
  }
}
