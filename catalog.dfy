/**
 * The read-only catalog the conversation engine consults: menu items, menus with an
 * hour window, provider locations, the answer of the nearby-provider search, and the
 * selection of the locations whose provider has a menu open now.
 */
module Catalog {
  import opened Wrappers

  /** A menu item; the price is kept in integer cents. */
  datatype Item = Item(id: nat, name: string, price: int)

  /** A menu open from startHour:00 to endHour:00, with its items in catalog order. */
  datatype Menu = Menu(startHour: int, endHour: int, items: seq<Item>)

  /** A street address; line2 may be absent (null) or empty. */
  datatype Address = Address(line1: string, line2: Option<string>)

  /** A provider location together with the menus of its provider, in catalog order. */
  datatype Location = Location(id: nat, name: string, address: Address, menus: seq<Menu>)

  /** The nearby-provider search: the locations found, or the geocoder's failure message. */
  datatype Nearby = Found(locations: seq<Location>) | GeoFailure(message: string)

  /**
   * Exceptions the search lets escape: LocalTime.of rejects an hour outside 0..23, and
   * asking an empty menu for its first item fails.
   */
  datatype Fault = InvalidHour(hour: int) | NoMenuItems

  // A time of day at LocalTime's resolution: nanoseconds since midnight.
  const NanosPerHour: int := 3_600_000_000_000
  const NanosPerDay: int := 24 * NanosPerHour
  type TimeOfDay = t: int | 0 <= t < NanosPerDay

  /** LocalTime.MIN and LocalTime.MAX. */
  const Midnight: TimeOfDay := 0
  const LastInstant: TimeOfDay := NanosPerDay - 1

  /** LocalTime.of(hour, 0). */
  function HourStart(hour: int): TimeOfDay
    requires 0 <= hour <= 23
  {
    hour * NanosPerHour
  }

  predicate ValidHours(menu: Menu)
  {
    0 <= menu.startHour <= 23 && 0 <= menu.endHour <= 23
  }

  /**
   * Whether a menu is open at `now`.  A window with start before end is a same-day window;
   * any other window wraps past midnight and is compared against LocalTime.MIN and MAX.
   * Every comparison is strict.
   */
  function IsCurrent(menu: Menu, now: TimeOfDay): (r: Result<bool, Fault>)
    ensures r.Err? <==> !ValidHours(menu)
  {
    if !(0 <= menu.startHour <= 23) then Err(InvalidHour(menu.startHour))
    else if !(0 <= menu.endHour <= 23) then Err(InvalidHour(menu.endHour))
    else
      var start, end := HourStart(menu.startHour), HourStart(menu.endHour);
      if start < end then Ok(start < now && now < end)
      else Ok((start < now && now < LastInstant) || (Midnight < now && now < end))
  }

  /** A same-day window is open strictly between its two hours. */
  lemma SameDayWindow(menu: Menu, now: TimeOfDay)
    requires ValidHours(menu) && menu.startHour < menu.endHour
    ensures IsCurrent(menu, now) == Ok(HourStart(menu.startHour) < now < HourStart(menu.endHour))
  {
  }

  /**
   * A window whose end hour is before its start hour is open outside the closed interval
   * [end, start], except at midnight itself and at the last instant of the day.
   */
  lemma WrappingWindow(menu: Menu, now: TimeOfDay)
    requires ValidHours(menu) && menu.endHour < menu.startHour
    ensures IsCurrent(menu, now)
         == Ok(!(HourStart(menu.endHour) <= now <= HourStart(menu.startHour)) && now != Midnight && now != LastInstant)
  {
  }

  /** A window whose start and end hours coincide is open at every instant but three. */
  lemma EqualHoursWindow(menu: Menu, now: TimeOfDay)
    requires ValidHours(menu) && menu.startHour == menu.endHour
    ensures IsCurrent(menu, now)
         == Ok(now != HourStart(menu.startHour) && now != Midnight && now != LastInstant)
  {
  }

  /** Because the bounds are strict, no menu is ever open at exactly midnight or at its start hour. */
  lemma BoundaryInstantsClosed(menu: Menu)
    requires ValidHours(menu)
    ensures IsCurrent(menu, Midnight) == Ok(false)
    ensures IsCurrent(menu, HourStart(menu.startHour)) == Ok(false)
  {
  }

  /** The 06-12 and 22-04 windows at a few hours of the day. */
  lemma WindowExamples()
    ensures IsCurrent(Menu(6, 12, []), HourStart(9)) == Ok(true)
    ensures IsCurrent(Menu(6, 12, []), HourStart(13)) == Ok(false)
    ensures IsCurrent(Menu(22, 4, []), HourStart(23)) == Ok(true)
    ensures IsCurrent(Menu(22, 4, []), HourStart(2)) == Ok(true)
    ensures IsCurrent(Menu(22, 4, []), HourStart(12)) == Ok(false)
  {
  }

  /**
   * The first menu of a provider that is open now, scanning in catalog order and stopping
   * at the first open one; an invalid hour met before that escapes as a fault.
   */
  function FirstCurrentMenu(menus: seq<Menu>, now: TimeOfDay): (r: Result<Option<Menu>, Fault>)
    ensures r.Ok? && r.value.Some? ==> r.value.value in menus && IsCurrent(r.value.value, now) == Ok(true)
    ensures r == Ok(None) ==> forall k :: 0 <= k < |menus| ==> IsCurrent(menus[k], now) == Ok(false)
    ensures r.Err? ==> exists k :: 0 <= k < |menus| && IsCurrent(menus[k], now) == Err(r.error)
  {
    if menus == [] then Ok(None)
    else
      match IsCurrent(menus[0], now)
      case Err(f) => Err(f)
      case Ok(open) =>
        if open then Ok(Some(menus[0]))
        else
          var rest := FirstCurrentMenu(menus[1..], now);
          assert rest.Err? ==> exists k :: 1 <= k < |menus| && IsCurrent(menus[k], now) == Err(rest.error) by {
            if rest.Err? {
              var k :| 0 <= k < |menus[1..]| && IsCurrent(menus[1..][k], now) == Err(rest.error);
              assert menus[k + 1] == menus[1..][k];
            }
          }
          rest
  }

  /**
   * The scan stops at the first menu that is not closed: when every menu before index k is
   * valid and closed, menu k alone decides the result.
   */
  lemma {:induction false} FirstCurrentMenuStopsAt(menus: seq<Menu>, now: TimeOfDay, k: nat)
    requires k < |menus|
    requires forall j :: 0 <= j < k ==> IsCurrent(menus[j], now) == Ok(false)
    requires IsCurrent(menus[k], now) != Ok(false)
    ensures FirstCurrentMenu(menus, now)
         == (if IsCurrent(menus[k], now).Err? then Err(IsCurrent(menus[k], now).error) else Ok(Some(menus[k])))
  {
    if k > 0 {
      assert IsCurrent(menus[0], now) == Ok(false);
      FirstCurrentMenuStopsAt(menus[1..], now, k - 1);
    }
  }

  /**
   * What one location contributes to the search: the first item of its first open menu,
   * nothing if no menu is open, or the fault that escapes.
   */
  function Pick(location: Location, now: TimeOfDay): Result<Option<Item>, Fault>
  {
    match FirstCurrentMenu(location.menus, now)
    case Err(f) => Err(f)
    case Ok(found) =>
      if found.None? then Ok(None)
      else if found.value.items == [] then Err(NoMenuItems)
      else Ok(Some(found.value.items[0]))
  }

  /** The location has a menu open now, and that menu has an item to offer. */
  predicate Offers(location: Location, now: TimeOfDay)
  {
    Pick(location, now).Ok? && Pick(location, now).value.Some?
  }

  /**
   * What a location offers is the first item of an open menu; it offers nothing exactly
   * when every menu is valid and closed; a fault is NoMenuItems or the fault of one of its
   * menus. PickStopsAt below says which menu: the first one that is not closed.
   */
  lemma PickMeaning(location: Location, now: TimeOfDay)
    ensures var r := Pick(location, now);
            && (Offers(location, now) ==>
                  exists k :: 0 <= k < |location.menus| && IsCurrent(location.menus[k], now) == Ok(true)
                    && location.menus[k].items != [] && r.value.value == location.menus[k].items[0])
            && (r == Ok(None) <==> forall k :: 0 <= k < |location.menus| ==> IsCurrent(location.menus[k], now) == Ok(false))
            && (r.Err? ==> r.error == NoMenuItems
                           || exists k :: 0 <= k < |location.menus| && IsCurrent(location.menus[k], now) == Err(r.error))
  {
  }

  /**
   * The first menu that is not closed decides the pick: its fault escapes; if it is open,
   * an empty item list is a fault and otherwise its first item is offered.
   */
  lemma PickStopsAt(location: Location, now: TimeOfDay, k: nat)
    requires k < |location.menus|
    requires forall j :: 0 <= j < k ==> IsCurrent(location.menus[j], now) == Ok(false)
    requires IsCurrent(location.menus[k], now) != Ok(false)
    ensures Pick(location, now)
         == if IsCurrent(location.menus[k], now).Err? then Err(IsCurrent(location.menus[k], now).error)
            else if location.menus[k].items == [] then Err(NoMenuItems)
            else Ok(Some(location.menus[k].items[0]))
  {
    FirstCurrentMenuStopsAt(location.menus, now, k);
  }

  /** How many of the locations have a menu to offer now. */
  function CountOffering(locations: seq<Location>, now: TimeOfDay): nat
  {
    if locations == [] then 0
    else CountOffering(locations[..|locations| - 1], now) + (if Offers(locations[|locations| - 1], now) then 1 else 0)
  }

  /** No location is counted when none of them offers anything. */
  lemma {:induction false} CountOfferingNone(locations: seq<Location>, now: TimeOfDay)
    requires forall i :: 0 <= i < |locations| ==> !Offers(locations[i], now)
    ensures CountOffering(locations, now) == 0
  {
    if locations != [] {
      var prefix := locations[..|locations| - 1];
      assert forall i :: 0 <= i < |prefix| ==> prefix[i] == locations[i];
      CountOfferingNone(prefix, now);
    }
  }

  /** The two parallel lists offered for selection. */
  datatype Candidates = Candidates(locs: seq<Location>, items: seq<Item>)

  /**
   * The locations that have a menu open now, each paired with the first item of its first
   * open menu, in catalog order; any fault escapes and the first one wins.
   */
  function KeepCurrent(locations: seq<Location>, now: TimeOfDay): (r: Result<Candidates, Fault>)
    ensures r.Ok? <==> forall i :: 0 <= i < |locations| ==> Pick(locations[i], now).Ok?
    ensures r.Ok? ==> |r.value.locs| == |r.value.items| == CountOffering(locations, now)
    ensures r.Ok? ==> forall j :: 0 <= j < |r.value.locs| ==> Pick(r.value.locs[j], now) == Ok(Some(r.value.items[j]))
    ensures r.Ok? ==> forall i :: 0 <= i < |locations| && Offers(locations[i], now) ==> locations[i] in r.value.locs
  {
    if locations == [] then Ok(Candidates([], []))
    else
      var prefix := locations[..|locations| - 1];
      var last := locations[|locations| - 1];
      assert forall i :: 0 <= i < |prefix| ==> prefix[i] == locations[i];
      match KeepCurrent(prefix, now)
      case Err(f) => Err(f)
      case Ok(c) =>
        match Pick(last, now)
        case Err(f) => Err(f)
        case Ok(item) =>
          if item.None? then Ok(c)
          else Ok(Candidates(c.locs + [last], c.items + [item.value]))
  }

  /** Once a prefix of the locations has faulted, the whole search faults the same way. */
  lemma {:induction false} KeepCurrentFaultPersists(prefix: seq<Location>, rest: seq<Location>, now: TimeOfDay)
    requires KeepCurrent(prefix, now).Err?
    ensures KeepCurrent(prefix + rest, now) == KeepCurrent(prefix, now)
    decreases |rest|
  {
    if rest == [] {
      assert prefix + rest == prefix;
    } else {
      var shorter := rest[..|rest| - 1];
      KeepCurrentFaultPersists(prefix, shorter, now);
      assert (prefix + rest)[..|prefix + rest| - 1] == prefix + shorter;
    }
  }

  /** A fault among the first i + 1 locations is the outcome of the whole filter. */
  lemma KeepCurrentFaultStops(locations: seq<Location>, i: nat, now: TimeOfDay)
    requires i < |locations| && KeepCurrent(locations[..i + 1], now).Err?
    ensures KeepCurrent(locations, now) == KeepCurrent(locations[..i + 1], now)
  {
    KeepCurrentFaultPersists(locations[..i + 1], locations[i + 1..], now);
    assert locations[..i + 1] + locations[i + 1..] == locations;
  }

  /** One more location extends a successful filter by what that location offers. */
  lemma KeepCurrentStep(locations: seq<Location>, i: nat, now: TimeOfDay)
    requires i < |locations| && KeepCurrent(locations[..i], now).Ok?
    ensures var c := KeepCurrent(locations[..i], now).value;
            (KeepCurrent(locations[..i + 1], now)
             == match Pick(locations[i], now)
                case Err(f) => Err(f)
                case Ok(None) => Ok(c)
                case Ok(Some(item)) => Ok(Candidates(c.locs + [locations[i]], c.items + [item])))
  {
    assert locations[..i + 1][..i] == locations[..i];
  }

  /** The search stops at the first location that faults, and reports that fault. */
  lemma {:induction false} KeepCurrentFirstFault(locations: seq<Location>, now: TimeOfDay, i: nat)
    requires i < |locations| && Pick(locations[i], now).Err?
    requires forall j :: 0 <= j < i ==> Pick(locations[j], now).Ok?
    ensures KeepCurrent(locations, now) == Err(Pick(locations[i], now).error)
  {
    assert KeepCurrent(locations[..i], now).Ok? by {
      assert forall j :: 0 <= j < i ==> locations[..i][j] == locations[j];
    }
    assert KeepCurrent(locations[..i + 1], now) == Err(Pick(locations[i], now).error) by {
      KeepCurrentStep(locations, i, now);
    }
    KeepCurrentFaultStops(locations, i, now);
  }

  /** Greedy subsequence test: a is b with some elements left out, order kept. */
  predicate IsSubseq<T(==)>(a: seq<T>, b: seq<T>)
    decreases |b|
  {
    if a == [] then true
    else if b == [] then false
    else if a[|a| - 1] == b[|b| - 1] then IsSubseq(a[..|a| - 1], b[..|b| - 1])
    else IsSubseq(a, b[..|b| - 1])
  }

  lemma {:induction false} SubseqExtend<T>(a: seq<T>, b: seq<T>, x: T)
    requires IsSubseq(a, b)
    ensures IsSubseq(a, b + [x])
    decreases |b|, 1
  {
    var b' := b + [x];
    assert b'[..|b'| - 1] == b;
    if a != [] && a[|a| - 1] == x {
      SubseqDropLast(a, b);
    }
  }

  lemma {:induction false} SubseqDropLast<T>(a: seq<T>, b: seq<T>)
    requires a != [] && IsSubseq(a, b)
    ensures IsSubseq(a[..|a| - 1], b)
    decreases |b|, 0
  {
    var a', b' := a[..|a| - 1], b[..|b| - 1];
    assert b' + [b[|b| - 1]] == b;
    if a[|a| - 1] == b[|b| - 1] {
      SubseqExtend(a', b', b[|b| - 1]);
    } else {
      SubseqDropLast(a, b');
      SubseqExtend(a', b', b[|b| - 1]);
    }
  }

  /** The kept locations appear in the same order as the search returned them. */
  lemma {:induction false} KeepCurrentKeepsOrder(locations: seq<Location>, now: TimeOfDay)
    requires KeepCurrent(locations, now).Ok?
    ensures IsSubseq(KeepCurrent(locations, now).value.locs, locations)
  {
    if locations != [] {
      var prefix := locations[..|locations| - 1];
      var last := locations[|locations| - 1];
      assert prefix + [last] == locations;
      assert forall i :: 0 <= i < |prefix| ==> prefix[i] == locations[i];
      KeepCurrentKeepsOrder(prefix, now);
      var c := KeepCurrent(prefix, now).value;
      if Pick(last, now).value.None? {
        SubseqExtend(c.locs, prefix, last);
      } else {
        var kept := c.locs + [last];
        assert kept[..|kept| - 1] == c.locs;
      }
    }
  }
}
