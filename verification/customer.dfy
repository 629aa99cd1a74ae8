/** The customer dashboard (views/CustomerDashboard.tsx): the delivery fee,
    the restaurants open for ordering, the customer's order history, and
    the voice assistant's `placeOrder` tool with its busy guard.

    The voice handler is a closure created when the voice session starts, so
    it reads the state of that moment (`snapshot`) while the order it
    creates is appended to the current state (`live`). The trip distance
    (a haversine over the two locations), the random order id and the clock
    are inputs. */
module CustomerView {
  import opened Wrappers
  import opened Collections
  import opened Domain
  import opened Sorting
  import opened AudioSession

  // ---------------------------------------------------------------------------
  // Delivery fee

  /** `Math.ceil`. */
  function Ceil(x: real): (c: int)
    ensures x <= c as real < x + 1.0
  {
    -((-x).Floor)
  }

  /** Rs. 50 for each of `n` started kilometres. */
  function PerKm(n: int): real
  {
    50.0 * n as real
  }

  /** Rs. 150 up to 3 km, then Rs. 50 for every started kilometre beyond. */
  function DeliveryFee(km: real): (fee: real)
    ensures fee >= 150.0
    ensures km <= 3.0 <==> fee == 150.0
    ensures km > 3.0 ==> 150.0 + 50.0 * (km - 3.0) <= fee < 200.0 + 50.0 * (km - 3.0)
    ensures km > 3.0 ==> exists n: int :: n >= 1 && fee == 150.0 + PerKm(n)
  {
    if km <= 3.0 then 150.0
    else
      var n := Ceil(km - 3.0);
      assert 150.0 + (n as real) * 50.0 == 150.0 + PerKm(n);
      150.0 + (n as real) * 50.0
  }

  /** A longer trip never costs less. */
  lemma DeliveryFeeMonotone(a: real, b: real)
    requires a <= b
    ensures DeliveryFee(a) <= DeliveryFee(b)
  {
    if a > 3.0 {
      assert Ceil(a - 3.0) <= Ceil(b - 3.0);
    }
  }

  // ---------------------------------------------------------------------------
  // Restaurants and order history

  predicate IsActive(r: Restaurant)
  {
    r.status == Approved && |r.items| > 0
  }

  /** The approved restaurants that have at least one item, in order. */
  function ActiveRestaurants(rs: seq<Restaurant>): (r: seq<Restaurant>)
    ensures forall i :: 0 <= i < |r| ==> r[i] in rs && r[i].status == Approved && |r[i].items| > 0
    ensures forall i :: 0 <= i < |rs| && rs[i].status == Approved && |rs[i].items| > 0 ==> rs[i] in r
  {
    Filter(rs, IsActive)
  }

  function PlacedBy(id: Option<string>): Order -> bool
  {
    (o: Order) => Some(o.customerId) == id
  }

  /** `sortedOrders`: the logged-in customer's orders, newest first. */
  function SortedOrders(s: GlobalState): (r: seq<Order>)
    ensures multiset(r) == multiset(Filter(s.orders, PlacedBy(s.loggedInCustomerId)))
    ensures forall i :: 0 <= i < |r| ==> r[i] in s.orders && Some(r[i].customerId) == s.loggedInCustomerId
    ensures forall i, j :: 0 <= i < j < |r| ==> r[i].createdAt >= r[j].createdAt
  {
    var mine := Filter(s.orders, PlacedBy(s.loggedInCustomerId));
    var r := NewestFirst(mine);
    SameElementsIn(r, mine, s.orders, PlacedBy(s.loggedInCustomerId));
    r
  }

  /** Orders placed in the same millisecond keep the order in which they
      were placed. */
  lemma SortedOrdersStable(s: GlobalState, t: int)
    ensures Filter(SortedOrders(s), KeyIs(CreatedAt, t))
         == Filter(Filter(s.orders, PlacedBy(s.loggedInCustomerId)), KeyIs(CreatedAt, t))
  {
    NewestFirstStable(Filter(s.orders, PlacedBy(s.loggedInCustomerId)), t);
  }

  // ---------------------------------------------------------------------------
  // Item matching

  /** `toLowerCase` on the ASCII letters. */
  function LowerChar(c: char): char
  {
    if 'A' <= c <= 'Z' then (c as int + 32) as char else c
  }

  function Lower(s: string): (r: string)
    ensures |r| == |s|
    ensures forall i :: 0 <= i < |s| ==> r[i] == LowerChar(s[i])
  {
    seq(|s|, i requires 0 <= i < |s| => LowerChar(s[i]))
  }

  /** `needle` occurs in `hay` at position `i`. */
  predicate OccursAt(hay: string, needle: string, i: int)
  {
    0 <= i <= |hay| - |needle| && hay[i..i + |needle|] == needle
  }

  /** `hay.includes(needle)`: `needle` is a prefix of `hay` or of one of its
      suffixes. */
  function Contains(hay: string, needle: string): (b: bool)
    ensures needle <= hay ==> b
    ensures b ==> |needle| <= |hay|
    decreases |hay|
  {
    needle <= hay || (|hay| > |needle| && Contains(hay[1..], needle))
  }

  /** An occurrence past the first position is an occurrence in the tail. */
  lemma OccursShift(hay: string, needle: string, i: int)
    requires 0 < i && |hay| > 0
    ensures OccursAt(hay, needle, i) <==> OccursAt(hay[1..], needle, i - 1)
  {
    if 0 <= i <= |hay| - |needle| {
      assert hay[1..][i - 1..i - 1 + |needle|] == hay[i..i + |needle|];
    }
  }

  /** `Contains` holds exactly when the needle occurs at some position. */
  lemma {:induction false} ContainsIff(hay: string, needle: string)
    ensures Contains(hay, needle) <==> exists i :: OccursAt(hay, needle, i)
    decreases |hay|
  {
    if needle <= hay {
      assert OccursAt(hay, needle, 0);
    } else if |hay| > |needle| {
      ContainsIff(hay[1..], needle);
      if Contains(hay[1..], needle) {
        var i :| OccursAt(hay[1..], needle, i);
        OccursShift(hay, needle, i + 1);
      } else {
        forall i | OccursAt(hay, needle, i)
          ensures false
        {
          OccursShift(hay, needle, i);
        }
      }
    }
  }

  /** The item matches a requested name when its lower-cased name contains
      the lower-cased request. */
  function Matches(request: string): MenuItem -> bool
  {
    (i: MenuItem) => Contains(Lower(i.name), Lower(request))
  }

  /** The first menu item matching a requested name, if any. */
  function FirstMatch(menu: seq<MenuItem>, request: string): (r: Option<MenuItem>)
    ensures r.None? <==> forall k :: 0 <= k < |menu| ==> !Matches(request)(menu[k])
    ensures r.Some? ==>
      exists k :: 0 <= k < |menu| && menu[k] == r.value && Matches(request)(r.value)
        && forall m :: 0 <= m < k ==> !Matches(request)(menu[m])
  {
    Find(menu, Matches(request))
  }

  function MatchIn(menu: seq<MenuItem>): string -> Option<MenuItem>
  {
    (n: string) => FirstMatch(menu, n)
  }

  /** `itemNames.map(n => menu.find(…)).filter(Boolean)`: for each requested
      name in turn, its first matching item; names that match nothing are
      dropped. */
  function MatchItems(menu: seq<MenuItem>, names: seq<string>): (r: seq<MenuItem>)
    ensures |r| <= |names|
  {
    MapSome(names, MatchIn(menu))
  }

  /** Every matched item is a menu item answering some requested name. */
  lemma MatchItemsAnswer(menu: seq<MenuItem>, names: seq<string>)
    ensures forall k :: 0 <= k < |MatchItems(menu, names)| ==>
      var item := MatchItems(menu, names)[k];
      item in menu && exists j :: 0 <= j < |names| && Matches(names[j])(item)
  {
    var f := MatchIn(menu);
    MapSomeFrom(names, f);
    forall k | 0 <= k < |MatchItems(menu, names)|
      ensures MatchItems(menu, names)[k] in menu
      ensures exists j :: 0 <= j < |names| && Matches(names[j])(MatchItems(menu, names)[k])
    {
      var j :| 0 <= j < |names| && f(names[j]) == Some(MatchItems(menu, names)[k]);
    }
  }

  /** When every requested name matches, there is one item per name, in the
      order of the names, each the first item of the menu matching it. */
  lemma MatchItemsAllFound(menu: seq<MenuItem>, names: seq<string>)
    requires forall j :: 0 <= j < |names| ==> FirstMatch(menu, names[j]).Some?
    ensures |MatchItems(menu, names)| == |names|
    ensures forall j :: 0 <= j < |names| ==>
      var item := MatchItems(menu, names)[j];
      exists k :: 0 <= k < |menu| && menu[k] == item && Matches(names[j])(item)
        && forall m :: 0 <= m < k ==> !Matches(names[j])(menu[m])
  {
    MapSomeAll(names, MatchIn(menu));
  }

  /** Matching is done name by name: the items for a list of names are the
      items for its first part followed by those for the rest, and a single
      name yields its first matching item or nothing. */
  lemma MatchItemsAppend(menu: seq<MenuItem>, a: seq<string>, b: seq<string>)
    ensures MatchItems(menu, a + b) == MatchItems(menu, a) + MatchItems(menu, b)
  {
    MapSomeAppend(a, b, MatchIn(menu));
  }

  lemma MatchItemsOne(menu: seq<MenuItem>, name: string)
    ensures MatchItems(menu, [name]) == if FirstMatch(menu, name).Some? then [FirstMatch(menu, name).value] else []
  {
    MapSomeOne(name, MatchIn(menu));
  }

  /** When no requested name matches, nothing is ordered. */
  lemma MatchItemsNoneFound(menu: seq<MenuItem>, names: seq<string>)
    requires forall j :: 0 <= j < |names| ==> FirstMatch(menu, names[j]).None?
    ensures MatchItems(menu, names) == []
  {
    MapSomeNone(names, MatchIn(menu));
  }

  // ---------------------------------------------------------------------------
  // processOrder

  /** The nondeterministic parts of a new order: the random id and
      `Date.now()`. */
  datatype OrderStamp = OrderStamp(id: string, createdAt: int)

  /** Whether `processOrder` creates an order: a truthy logged-in customer id
      whose customer has a location, and a restaurant with that id that has a
      location, all looked up in the snapshot. */
  function CanProcess(snapshot: GlobalState, restaurantId: string): (b: bool)
    ensures b <==>
      && Truthy(snapshot.loggedInCustomerId)
      && (exists k :: 0 <= k < |snapshot.customers| && Some(snapshot.customers[k].id) == snapshot.loggedInCustomerId)
      && (exists k :: 0 <= k < |snapshot.restaurants| && snapshot.restaurants[k].id == restaurantId)
      && FirstCustomer(snapshot).value.location.Some?
      && FirstRestaurant(snapshot, restaurantId).value.location.Some?
  {
    && Truthy(snapshot.loggedInCustomerId)
    && FirstCustomer(snapshot).Some? && FirstCustomer(snapshot).value.location.Some?
    && FirstRestaurant(snapshot, restaurantId).Some? && FirstRestaurant(snapshot, restaurantId).value.location.Some?
  }

  function IsCustomer(id: Option<string>): Customer -> bool
  {
    (c: Customer) => Some(c.id) == id
  }

  function HasRestaurantId(id: string): Restaurant -> bool
  {
    (x: Restaurant) => x.id == id
  }

  /** `me`: the first customer with the logged-in id. */
  function FirstCustomer(snapshot: GlobalState): Option<Customer>
  {
    Find(snapshot.customers, IsCustomer(snapshot.loggedInCustomerId))
  }

  /** `state.restaurants.find(r => r.id === restaurantId)`. */
  function FirstRestaurant(snapshot: GlobalState, restaurantId: string): Option<Restaurant>
  {
    Find(snapshot.restaurants, HasRestaurantId(restaurantId))
  }

  /** `processOrder(restaurantId, items)`: when the snapshot allows it, one
      PLACED order is appended to the live orders, with fee
      `DeliveryFee(distance)` and total `sum of prices + fee`; otherwise
      nothing changes. */
  function ProcessOrder(snapshot: GlobalState, live: GlobalState, restaurantId: string, items: seq<MenuItem>,
                        stamp: OrderStamp, km: (LatLng, LatLng) -> real): (r: GlobalState)
    ensures !CanProcess(snapshot, restaurantId) ==> r == live
    ensures CanProcess(snapshot, restaurantId) ==>
      && |r.orders| == |live.orders| + 1
      && r == live.(orders := live.orders + [r.orders[|r.orders| - 1]])
      && var o := r.orders[|r.orders| - 1];
      && o.id == stamp.id && o.createdAt == stamp.createdAt
      && Some(o.customerId) == snapshot.loggedInCustomerId
      && o.restaurantId == restaurantId && o.items == items
      && o.status == Placed && o.riderId == None
      && o.distance == km(FirstCustomer(snapshot).value.location.value, FirstRestaurant(snapshot, restaurantId).value.location.value)
      && o.deliveryFee == DeliveryFee(o.distance)
      && o.total == Sum(items, Price) + o.deliveryFee
  {
    if !CanProcess(snapshot, restaurantId) then live
    else
      var me := FirstCustomer(snapshot).value;
      var rest := FirstRestaurant(snapshot, restaurantId).value;
      var dist := km(me.location.value, rest.location.value);
      var fee := DeliveryFee(dist);
      var o := Order(stamp.id, snapshot.loggedInCustomerId.value, restaurantId, items,
                     Sum(items, Price) + fee, fee, dist, Placed, None, stamp.createdAt);
      live.(orders := live.orders + [o])
  }

  // ---------------------------------------------------------------------------
  // The placeOrder tool

  /** `isOrderingRef`. */
  datatype Guard = Free | Held

  /** The handler's mutable context: the guard and the app state it
      updates. */
  datatype VoiceOrder = VoiceOrder(guard: Guard, live: GlobalState)

  /** The tool arguments; either may be missing from the model's call. */
  datatype PlaceOrderArgs = PlaceOrderArgs(restaurantId: Option<string>, itemNames: Option<seq<string>>)

  /** What the handler returns to the model. */
  datatype Reply =
    | Busy
    | RestaurantNotFound
    | NoMatchingItems
    | OrderPlaced(restaurantName: string, total: real)
    | UnknownCommand

  const PlaceOrderTool: string := "placeOrder"

  function HasId(id: Option<string>): Restaurant -> bool
  {
    (r: Restaurant) => Some(r.id) == id
  }

  /** The `onFunctionCall` of the customer's voice session. A missing
      `itemNames` makes `.map` throw after the guard was taken. */
  function PlaceOrderCall(snapshot: GlobalState, h: VoiceOrder, name: string, args: PlaceOrderArgs,
                          stamp: OrderStamp, km: (LatLng, LatLng) -> real): (r: HandlerStep<VoiceOrder, Reply>)
    ensures name != PlaceOrderTool ==> r == Returned(h, UnknownCommand)
    ensures name == PlaceOrderTool && h.guard == Held ==> r == Returned(h, Busy)
    ensures name == PlaceOrderTool && h.guard == Free ==>
      match Find(ActiveRestaurants(snapshot.restaurants), HasId(args.restaurantId))
      case None => r == Returned(h, RestaurantNotFound)
      case Some(rest) =>
        if args.itemNames.None? then r == Threw(h.(guard := Held))
        else if MatchItems(rest.items, args.itemNames.value) == [] then r == Returned(h, NoMatchingItems)
        else
          var items := MatchItems(rest.items, args.itemNames.value);
          r == Returned(VoiceOrder(Held, ProcessOrder(snapshot, h.live, rest.id, items, stamp, km)),
                        OrderPlaced(rest.name, Sum(items, Price)))
    ensures r.Returned? && !r.result.OrderPlaced? ==> r.state == h
    ensures r.Returned? && r.result.OrderPlaced? ==> r.state.guard == Held
    ensures r.Threw? ==> r.state.live == h.live
  {
    if name != PlaceOrderTool then Returned(h, UnknownCommand)
    else if h.guard.Held? then Returned(h, Busy)
    else
      var taken := h.(guard := Held);
      match Find(ActiveRestaurants(snapshot.restaurants), HasId(args.restaurantId))
      case None =>
        assert taken.(guard := Free) == h;
        Returned(taken.(guard := Free), RestaurantNotFound)
      case Some(rest) =>
        if args.itemNames.None? then Threw(taken)
        else
          var items := MatchItems(rest.items, args.itemNames.value);
          if |items| == 0 then
            assert taken.(guard := Free) == h;
            Returned(taken.(guard := Free), NoMatchingItems)
          else Returned(taken.(live := ProcessOrder(snapshot, h.live, rest.id, items, stamp, km)),
                        OrderPlaced(rest.name, Sum(items, Price)))
  }

  /** The handler as the session calls it. */
  function Handler(snapshot: GlobalState, stamp: OrderStamp, km: (LatLng, LatLng) -> real)
    : (VoiceOrder, string, PlaceOrderArgs) -> HandlerStep<VoiceOrder, Reply>
  {
    (h, name, args) => PlaceOrderCall(snapshot, h, name, args, stamp, km)
  }

  /** The 3000 ms timer set after a placed order. */
  function TimerFired(h: VoiceOrder): (r: VoiceOrder)
    ensures r.guard == Free && r.live == h.live
  {
    h.(guard := Free)
  }

  /** `handleVoiceOrder`: stop a running session; otherwise clear the
      transcript, free the guard and start a session. */
  function ToggleVoice(s: Session, h: VoiceOrder, hasApiKey: bool, micGranted: bool): (r: (Session, VoiceOrder))
    ensures s.active ==> r == (Stop(s), h)
    ensures !s.active ==> r.1 == h.(guard := Free) && r.0 == StartAsWritten(s.(transcript := []), hasApiKey, micGranted)
  {
    if s.active then (Stop(s), h)
    else (StartAsWritten(s.(transcript := []), hasApiKey, micGranted), h.(guard := Free))
  }

  // ---------------------------------------------------------------------------
  // Properties

  /** A call made while the guard is held, or one that fails, creates no
      order; only a placed order or a thrown call leaves the guard held. */
  lemma NoOrderUnlessPlaced(snapshot: GlobalState, h: VoiceOrder, name: string, args: PlaceOrderArgs,
                            stamp: OrderStamp, km: (LatLng, LatLng) -> real)
    ensures var r := PlaceOrderCall(snapshot, h, name, args, stamp, km);
      && (r.Returned? && !r.result.OrderPlaced? ==> r.state.live.orders == h.live.orders)
      && (h.guard == Free && r.state.guard == Held ==> r.Threw? || r.result.OrderPlaced?)
      && (r.Returned? && r.result.OrderPlaced? ==>
            |r.state.live.orders| <= |h.live.orders| + 1 && r.state.live.orders[..|h.live.orders|] == h.live.orders)
  {
    var r := PlaceOrderCall(snapshot, h, name, args, stamp, km);
    if r.Returned? && r.result.OrderPlaced? {
      var rest := Find(ActiveRestaurants(snapshot.restaurants), HasId(args.restaurantId)).value;
      var items := MatchItems(rest.items, args.itemNames.value);
      var live' := ProcessOrder(snapshot, h.live, rest.id, items, stamp, km);
      assert r.state.live == live';
      if CanProcess(snapshot, rest.id) {
        assert live'.orders[..|h.live.orders|] == h.live.orders;
      }
    }
  }

  /** The handler reports success even when `processOrder` does nothing: with
      no customer logged in at session start, a matched order is announced
      but no order is created. */
  lemma PlacedWithoutOrder(snapshot: GlobalState, h: VoiceOrder, args: PlaceOrderArgs,
                           stamp: OrderStamp, km: (LatLng, LatLng) -> real)
    requires h.guard == Free && snapshot.loggedInCustomerId == None
    requires Find(ActiveRestaurants(snapshot.restaurants), HasId(args.restaurantId)).Some?
    requires args.itemNames.Some?
    requires MatchItems(Find(ActiveRestaurants(snapshot.restaurants), HasId(args.restaurantId)).value.items, args.itemNames.value) != []
    ensures PlaceOrderCall(snapshot, h, PlaceOrderTool, args, stamp, km).Returned?
    ensures PlaceOrderCall(snapshot, h, PlaceOrderTool, args, stamp, km).result.OrderPlaced?
    ensures PlaceOrderCall(snapshot, h, PlaceOrderTool, args, stamp, km).state == VoiceOrder(Held, h.live)
  {
  }

  /** Two `placeOrder` calls in one tool-call message: when the first places
      its order, the second is answered "busy", whatever it asks for. */
  lemma SecondCallIsBusy(snapshot: GlobalState, h: VoiceOrder, c1: FunctionCall<PlaceOrderArgs>,
                         c2: FunctionCall<PlaceOrderArgs>, stamp: OrderStamp, km: (LatLng, LatLng) -> real)
    requires c1.name == PlaceOrderTool && c2.name == PlaceOrderTool
    requires PlaceOrderCall(snapshot, h, c1.name, c1.args, stamp, km).Returned?
    requires PlaceOrderCall(snapshot, h, c1.name, c1.args, stamp, km).result.OrderPlaced?
    ensures var d := Dispatch(h, [c1, c2], Handler(snapshot, stamp, km));
      && |d.responses| == 2 && !d.threw
      && d.responses[1] == ToolResponse(c2.id, c2.name, Busy)
  {
    var hd := Handler(snapshot, stamp, km);
    var s1 := PlaceOrderCall(snapshot, h, c1.name, c1.args, stamp, km);
    var held := s1.state;
    assert hd(h, c1.name, c1.args) == Returned(held, s1.result);
    assert hd(held, c2.name, c2.args) == Returned(held, Busy);
    assert [c1, c2][1..] == [c2];
    assert [c2][1..] == [];
    assert Dispatch(held, [c2], hd) == Dispatched(held, [ToolResponse(c2.id, c2.name, Busy)], false);
  }

  /** After the timer fires the guard no longer blocks: a call for an unknown
      restaurant gets the not-found answer instead of "busy". */
  lemma TimerUnblocks(snapshot: GlobalState, h: VoiceOrder, args: PlaceOrderArgs,
                      stamp: OrderStamp, km: (LatLng, LatLng) -> real)
    requires h.guard == Held
    requires Find(ActiveRestaurants(snapshot.restaurants), HasId(args.restaurantId)).None?
    ensures PlaceOrderCall(snapshot, h, PlaceOrderTool, args, stamp, km) == Returned(h, Busy)
    ensures PlaceOrderCall(snapshot, TimerFired(h), PlaceOrderTool, args, stamp, km)
         == Returned(TimerFired(h), RestaurantNotFound)
  {
  }
}
