/** The admin dashboard (views/AdminDashboard.tsx): commission per merchant,
    the daily settlement table, the platform totals, and the updaters that
    create, delete and edit restaurants and riders and change the admin
    password. `toLocaleDateString('en-CA')` is an input `dateOf`, and the
    random ids are inputs. */
module AdminView {
  import opened Wrappers
  import opened Collections
  import opened Domain
  import opened Sorting

  // ---------------------------------------------------------------------------
  // Commission per merchant

  /** Delivered orders of the restaurant with id `id`. */
  function DeliveredFor(id: string): Order -> bool
  {
    (o: Order) => o.restaurantId == id && o.status == Delivered
  }

  /** The platform's share of one order at percentage `pct`. */
  function ShareAt(pct: Option<real>): Order -> real
  {
    (o: Order) => CommissionOn(FoodSubtotal(o), pct)
  }

  /** `totalComm`: the commission over the restaurant's delivered orders,
      which is the restaurant's percentage of its delivered food sales. */
  function Commission(r: Restaurant, orders: seq<Order>): (c: real)
    ensures c == Rate(r.commissionPercentage) * Sum(Filter(orders, DeliveredFor(r.id)), FoodSubtotal)
  {
    SharesScale(Filter(orders, DeliveredFor(r.id)), r.commissionPercentage);
    Sum(Filter(orders, DeliveredFor(r.id)), ShareAt(r.commissionPercentage))
  }

  /** Without a percentage, or without delivered orders, the commission is
      0. */
  lemma {:induction false} CommissionZero(r: Restaurant, orders: seq<Order>)
    requires r.commissionPercentage.None? || forall i :: 0 <= i < |orders| ==> !DeliveredFor(r.id)(orders[i])
    ensures Commission(r, orders) == 0.0
  {
    if r.commissionPercentage.Some? {
      FilterNone(orders, DeliveredFor(r.id));
    }
  }

  lemma {:induction false} SharesScale(s: seq<Order>, pct: Option<real>)
    ensures Sum(s, ShareAt(pct)) == Rate(pct) * Sum(s, FoodSubtotal)
  {
    forall i | 0 <= i < |s|
      ensures ShareAt(pct)(s[i]) == Rate(pct) * FoodSubtotal(s[i])
    {
      ShareIsScaled(pct, s[i]);
    }
    SumScale(s, Rate(pct), FoodSubtotal, ShareAt(pct));
  }

  /** The percentage as a fraction. */
  function Rate(pct: Option<real>): real
  {
    Percent(pct) / 100.0
  }

  lemma {:induction false} ShareIsScaled(pct: Option<real>, o: Order)
    ensures ShareAt(pct)(o) == Rate(pct) * FoodSubtotal(o)
  {
  }

  function CommissionOf(orders: seq<Order>): Restaurant -> real
  {
    (r: Restaurant) => Commission(r, orders)
  }

  /** `merchantCommissions`: the restaurants' commissions by id, later
      entries overwriting earlier ones. Every listed restaurant id has an
      entry and no other id does; the entry of an id is the commission of
      the last restaurant with it. */
  function MerchantCommissions(restaurants: seq<Restaurant>, orders: seq<Order>): (m: map<string, real>)
    ensures forall k :: k in m ==> exists i :: 0 <= i < |restaurants| && restaurants[i].id == k
    ensures forall i :: 0 <= i < |restaurants| ==> restaurants[i].id in m
    ensures forall i :: 0 <= i < |restaurants| && (forall j :: i < j < |restaurants| ==> restaurants[j].id != restaurants[i].id) ==>
      m[restaurants[i].id] == Commission(restaurants[i], orders)
  {
    KeyedBySpec(restaurants, RestaurantIdOf, CommissionOf(orders));
    KeyedBy(restaurants, RestaurantIdOf, CommissionOf(orders))
  }

  // ---------------------------------------------------------------------------
  // Platform totals

  function Total(o: Order): real { o.total }
  function Fee(o: Order): real { o.deliveryFee }

  /** Gross revenue less delivery fees is the food sales of all orders. */
  lemma {:induction false} RevenueSplits(orders: seq<Order>)
    ensures Sum(orders, Total) - Sum(orders, Fee) == Sum(orders, FoodSubtotal)
  {
    SumPlus(orders, FoodSubtotal, Fee, Total);
  }

  // ---------------------------------------------------------------------------
  // Daily settlements

  datatype DailySummary = DailySummary(date: string, food: real, commission: real, payable: real)

  /** The commission of one order at the percentage of the first restaurant
      with its restaurant id (0 when there is none). */
  function OrderCommission(restaurants: seq<Restaurant>): Order -> real
  {
    (o: Order) =>
      var rest := Find(restaurants, (r: Restaurant) => r.id == o.restaurantId);
      CommissionOn(FoodSubtotal(o), if rest.Some? then rest.value.commissionPercentage else None)
  }

  function IsDelivered(o: Order): bool { o.status == Delivered }

  function OnDate(dateOf: int -> string, d: string): Order -> bool
  {
    (o: Order) => dateOf(o.createdAt) == d
  }

  function DateIs(d: string): DailySummary -> bool
  {
    (row: DailySummary) => row.date == d
  }

  /** A row with one more order added to its sums. */
  function AddOrder(row: DailySummary, o: Order, restaurants: seq<Restaurant>): DailySummary
  {
    var food := FoodSubtotal(o);
    var commission := OrderCommission(restaurants)(o);
    row.(food := row.food + food, commission := row.commission + commission,
         payable := row.payable + (food - commission))
  }

  /** One step of the `forEach`: the order is added to the row of its date,
      which is opened (with zero sums) when there is none. */
  function Accumulate(rows: seq<DailySummary>, o: Order, dateOf: int -> string, restaurants: seq<Restaurant>)
    : (r: seq<DailySummary>)
    ensures |rows| <= |r| <= |rows| + 1
    ensures forall i :: 0 <= i < |rows| ==>
      r[i] == if FindIndex(rows, DateIs(dateOf(o.createdAt))) == Some(i) then AddOrder(rows[i], o, restaurants) else rows[i]
    ensures |r| == |rows| + 1 <==> forall i :: 0 <= i < |rows| ==> rows[i].date != dateOf(o.createdAt)
    ensures |r| == |rows| + 1 ==> r[|rows|] == AddOrder(DailySummary(dateOf(o.createdAt), 0.0, 0.0, 0.0), o, restaurants)
  {
    var d := dateOf(o.createdAt);
    match FindIndex(rows, DateIs(d))
    case None => rows + [AddOrder(DailySummary(d, 0.0, 0.0, 0.0), o, restaurants)]
    case Some(k) => rows[k := AddOrder(rows[k], o, restaurants)]
  }

  /** The rows of the summary map, in the order their dates first occur. */
  function Summaries(orders: seq<Order>, dateOf: int -> string, restaurants: seq<Restaurant>): (r: seq<DailySummary>)
    ensures |r| <= |orders|
    decreases |orders|
  {
    if |orders| == 0 then []
    else Accumulate(Summaries(orders[..|orders| - 1], dateOf, restaurants), orders[|orders| - 1], dateOf, restaurants)
  }

  /** `a` sorts before `b` in code-point order: a proper prefix, or smaller
      at the first difference. */
  predicate LexLess(a: string, b: string)
    decreases |a|
  {
    |b| > 0 && (|a| == 0 || a[0] < b[0] || (a[0] == b[0] && LexLess(a[1..], b[1..])))
  }

  lemma {:induction false} LexLessIrreflexive(a: string)
    ensures !LexLess(a, a)
    decreases |a|
  {
    if |a| > 0 {
      LexLessIrreflexive(a[1..]);
    }
  }

  lemma {:induction false} LexLessTransitive(a: string, b: string, c: string)
    requires LexLess(a, b) && LexLess(b, c)
    ensures LexLess(a, c)
    decreases |a|
  {
    if |a| > 0 && a[0] == b[0] && b[0] == c[0] {
      LexLessTransitive(a[1..], b[1..], c[1..]);
    }
  }

  /** The comparator `(a, b) => b.date.localeCompare(a.date)`: the later
      date first. */
  function Later(a: string, b: string): bool { LexLess(b, a) }

  lemma {:induction false} LaterIsStrictOrder()
    ensures StrictOrder(Later)
  {
    forall a
      ensures !Later(a, a)
    {
      LexLessIrreflexive(a);
    }
    forall a, b, c | Later(a, b) && Later(b, c)
      ensures Later(a, c)
    {
      LexLessTransitive(c, b, a);
    }
  }

  function RowDate(row: DailySummary): string { row.date }

  /** `dailyFinancials`: one row per date with delivered orders, latest date
      first. */
  function DailyFinancials(orders: seq<Order>, dateOf: int -> string, restaurants: seq<Restaurant>)
    : (r: seq<DailySummary>)
    ensures multiset(r) == multiset(Summaries(Filter(orders, IsDelivered), dateOf, restaurants))
    ensures forall i, j :: 0 <= i < j < |r| ==> !LexLess(r[i].date, r[j].date)
  {
    LaterIsStrictOrder();
    var rows := Summaries(Filter(orders, IsDelivered), dateOf, restaurants);
    SortSorted(rows, RowDate, Later);
    Sort(rows, RowDate, Later)
  }

  // The row properties

  predicate DatesDistinct(rows: seq<DailySummary>)
  {
    forall i, j :: 0 <= i < j < |rows| ==> rows[i].date != rows[j].date
  }

  lemma {:induction false} SummariesDistinct(orders: seq<Order>, dateOf: int -> string, restaurants: seq<Restaurant>)
    ensures DatesDistinct(Summaries(orders, dateOf, restaurants))
    decreases |orders|
  {
    if |orders| > 0 {
      SummariesDistinct(orders[..|orders| - 1], dateOf, restaurants);
    }
  }

  /** Every row's commission and payable add up to its food sales. */
  predicate RowsBalance(rows: seq<DailySummary>)
  {
    forall i :: 0 <= i < |rows| ==> rows[i].food == rows[i].commission + rows[i].payable
  }

  lemma {:induction false} SummariesBalance(orders: seq<Order>, dateOf: int -> string, restaurants: seq<Restaurant>)
    ensures RowsBalance(Summaries(orders, dateOf, restaurants))
    decreases |orders|
  {
    if |orders| > 0 {
      SummariesBalance(orders[..|orders| - 1], dateOf, restaurants);
    }
  }

  /** The row of date `d`, if any, sums the orders of that date; it exists
      exactly when some order has that date. */
  ghost predicate DayOk(orders: seq<Order>, rows: seq<DailySummary>, dateOf: int -> string,
                        restaurants: seq<Restaurant>, d: string)
  {
    var m := FindIndex(rows, DateIs(d));
    && (m.Some? <==> Find(orders, OnDate(dateOf, d)).Some?)
    && (m.Some? ==>
          && rows[m.value].food == Sum(Filter(orders, OnDate(dateOf, d)), FoodSubtotal)
          && rows[m.value].commission == Sum(Filter(orders, OnDate(dateOf, d)), OrderCommission(restaurants)))
  }

  /** The dates of the rows already there are kept. */
  lemma {:induction false} AccumulateKeepsDates(rows: seq<DailySummary>, o: Order, dateOf: int -> string,
                                                restaurants: seq<Restaurant>, d: string)
    ensures var r := Accumulate(rows, o, dateOf, restaurants);
      forall i :: 0 <= i < |rows| ==> DateIs(d)(r[i]) == DateIs(d)(rows[i])
  {
    var r := Accumulate(rows, o, dateOf, restaurants);
    forall i | 0 <= i < |rows|
      ensures DateIs(d)(r[i]) == DateIs(d)(rows[i])
    {
      assert r[i].date == rows[i].date;
    }
  }

  /** An order of another date leaves the row of `d` and its orders alone. */
  lemma {:induction false} AccumulateOtherDay(init: seq<Order>, rows: seq<DailySummary>, o: Order, dateOf: int -> string,
                                              restaurants: seq<Restaurant>, d: string)
    requires DayOk(init, rows, dateOf, restaurants, d) && dateOf(o.createdAt) != d
    ensures DayOk(init + [o], Accumulate(rows, o, dateOf, restaurants), dateOf, restaurants, d)
  {
    var p := OnDate(dateOf, d);
    var r := Accumulate(rows, o, dateOf, restaurants);
    AccumulateKeepsDates(rows, o, dateOf, restaurants, d);
    FindIndexExtend(rows, r, DateIs(d));
    assert |r| > |rows| ==> !DateIs(d)(r[|rows|]);
    FindAppend(init, o, p);
    FilterAppend(init, [o], p);
    assert Filter([o], p) == [];
    assert Filter(init + [o], p) == Filter(init, p);
    var m := FindIndex(rows, DateIs(d));
    if m.Some? {
      assert rows[m.value].date != dateOf(o.createdAt);
      assert r[m.value] == rows[m.value];
    }
  }

  /** The orders of date `d` gain `o` when it has that date. */
  lemma {:induction false} SameDaySums(init: seq<Order>, o: Order, dateOf: int -> string,
                                       restaurants: seq<Restaurant>, d: string)
    requires dateOf(o.createdAt) == d
    ensures Filter(init + [o], OnDate(dateOf, d)) == Filter(init, OnDate(dateOf, d)) + [o]
    ensures Sum(Filter(init + [o], OnDate(dateOf, d)), FoodSubtotal)
         == Sum(Filter(init, OnDate(dateOf, d)), FoodSubtotal) + FoodSubtotal(o)
    ensures Sum(Filter(init + [o], OnDate(dateOf, d)), OrderCommission(restaurants))
         == Sum(Filter(init, OnDate(dateOf, d)), OrderCommission(restaurants)) + OrderCommission(restaurants)(o)
  {
    var p := OnDate(dateOf, d);
    FilterAppend(init, [o], p);
    assert Filter([o], p) == [o] by {
      assert [o][..0] == [];
    }
    var f := Filter(init, p);
    SumAppend(f, [o], FoodSubtotal);
    SumAppend(f, [o], OrderCommission(restaurants));
    assert [o][..0] == [];
  }

  /** An order of date `d` is added to the existing row of `d`. */
  lemma {:induction false} AccumulateSameDayRow(init: seq<Order>, rows: seq<DailySummary>, o: Order, dateOf: int -> string,
                                                restaurants: seq<Restaurant>, d: string)
    requires DayOk(init, rows, dateOf, restaurants, d) && dateOf(o.createdAt) == d
    requires FindIndex(rows, DateIs(d)).Some?
    ensures DayOk(init + [o], Accumulate(rows, o, dateOf, restaurants), dateOf, restaurants, d)
  {
    var p := OnDate(dateOf, d);
    var r := Accumulate(rows, o, dateOf, restaurants);
    var k := FindIndex(rows, DateIs(d)).value;
    RowOfDayGrows(rows, o, dateOf, restaurants, d);
    FindAppend(init, o, p);
    SameDaySums(init, o, dateOf, restaurants, d);
    assert rows[k].food == Sum(Filter(init, p), FoodSubtotal);
    assert r[k].food == Sum(Filter(init + [o], p), FoodSubtotal);
  }

  /** The row of the order's date keeps its place and gains the order. */
  lemma {:induction false} RowOfDayGrows(rows: seq<DailySummary>, o: Order, dateOf: int -> string,
                                         restaurants: seq<Restaurant>, d: string)
    requires dateOf(o.createdAt) == d && FindIndex(rows, DateIs(d)).Some?
    ensures var r := Accumulate(rows, o, dateOf, restaurants);
      var k := FindIndex(rows, DateIs(d)).value;
      && FindIndex(r, DateIs(d)) == Some(k)
      && r[k] == AddOrder(rows[k], o, restaurants)
  {
    var r := Accumulate(rows, o, dateOf, restaurants);
    AccumulateKeepsDates(rows, o, dateOf, restaurants, d);
    FindIndexExtend(rows, r, DateIs(d));
  }

  /** An order of date `d` opens the row of `d` when there is none. */
  lemma {:induction false} AccumulateSameDayNew(init: seq<Order>, rows: seq<DailySummary>, o: Order, dateOf: int -> string,
                                                restaurants: seq<Restaurant>, d: string)
    requires DayOk(init, rows, dateOf, restaurants, d) && dateOf(o.createdAt) == d
    requires FindIndex(rows, DateIs(d)).None?
    ensures DayOk(init + [o], Accumulate(rows, o, dateOf, restaurants), dateOf, restaurants, d)
  {
    var p := OnDate(dateOf, d);
    var r := Accumulate(rows, o, dateOf, restaurants);
    AccumulateKeepsDates(rows, o, dateOf, restaurants, d);
    FindIndexExtend(rows, r, DateIs(d));
    FindAppend(init, o, p);
    SameDaySums(init, o, dateOf, restaurants, d);
    FilterNone(init, p);
    assert r[|rows|].date == d;
  }

  lemma {:induction false} AccumulateDay(init: seq<Order>, rows: seq<DailySummary>, o: Order, dateOf: int -> string,
                                         restaurants: seq<Restaurant>, d: string)
    requires DayOk(init, rows, dateOf, restaurants, d)
    ensures DayOk(init + [o], Accumulate(rows, o, dateOf, restaurants), dateOf, restaurants, d)
  {
    if dateOf(o.createdAt) == d && FindIndex(rows, DateIs(d)).Some? {
      AccumulateSameDayRow(init, rows, o, dateOf, restaurants, d);
    } else if dateOf(o.createdAt) == d {
      AccumulateSameDayNew(init, rows, o, dateOf, restaurants, d);
    } else {
      AccumulateOtherDay(init, rows, o, dateOf, restaurants, d);
    }
  }

  lemma {:induction false} SummariesDay(orders: seq<Order>, dateOf: int -> string, restaurants: seq<Restaurant>, d: string)
    ensures DayOk(orders, Summaries(orders, dateOf, restaurants), dateOf, restaurants, d)
    decreases |orders|
  {
    if |orders| > 0 {
      var init := orders[..|orders| - 1];
      assert orders == init + [orders[|orders| - 1]];
      SummariesDay(init, dateOf, restaurants, d);
      AccumulateDay(init, Summaries(init, dateOf, restaurants), orders[|orders| - 1], dateOf, restaurants, d);
    }
  }

  /** A row with date `d`. */
  predicate HasDate(rows: seq<DailySummary>, d: string)
  {
    exists i :: 0 <= i < |rows| && rows[i].date == d
  }

  /** A delivered order of date `d`. */
  predicate DeliveredOn(orders: seq<Order>, dateOf: int -> string, d: string)
  {
    exists k :: 0 <= k < |orders| && orders[k].status == Delivered && dateOf(orders[k].createdAt) == d
  }

  /** The delivered orders of date `d`, in order. */
  function DayOrders(orders: seq<Order>, dateOf: int -> string, d: string): seq<Order>
  {
    Filter(Filter(orders, IsDelivered), OnDate(dateOf, d))
  }

  /** The row holds the food sales and commission of the delivered orders of
      its date, and the shop's payable is the rest. */
  predicate RowSums(row: DailySummary, orders: seq<Order>, dateOf: int -> string, restaurants: seq<Restaurant>)
  {
    && row.food == Sum(DayOrders(orders, dateOf, row.date), FoodSubtotal)
    && row.commission == Sum(DayOrders(orders, dateOf, row.date), OrderCommission(restaurants))
    && row.payable == row.food - row.commission
  }

  /** What the settlement table promises about date `d`: a row of that date
      exists exactly when a delivered order has it, and such a row sums the
      delivered orders of that date. */
  predicate DayRow(orders: seq<Order>, rows: seq<DailySummary>, dateOf: int -> string,
                   restaurants: seq<Restaurant>, d: string)
  {
    && (HasDate(rows, d) <==> DeliveredOn(orders, dateOf, d))
    && (forall i :: 0 <= i < |rows| && rows[i].date == d ==> RowSums(rows[i], orders, dateOf, restaurants))
  }

  lemma {:induction false} DeliveredOnIff(orders: seq<Order>, dateOf: int -> string, d: string)
    ensures DeliveredOn(orders, dateOf, d) <==> Find(Filter(orders, IsDelivered), OnDate(dateOf, d)).Some?
  {
    var delivered := Filter(orders, IsDelivered);
    if DeliveredOn(orders, dateOf, d) {
      var k :| 0 <= k < |orders| && orders[k].status == Delivered && dateOf(orders[k].createdAt) == d;
      assert IsDelivered(orders[k]);
      var j :| 0 <= j < |delivered| && delivered[j] == orders[k];
      assert OnDate(dateOf, d)(delivered[j]);
    }
    if Find(delivered, OnDate(dateOf, d)).Some? {
      var j :| 0 <= j < |delivered| && OnDate(dateOf, d)(delivered[j]);
      var k :| 0 <= k < |orders| && orders[k] == delivered[j];
    }
  }

  lemma {:induction false} HasDateIff(rows: seq<DailySummary>, d: string)
    ensures HasDate(rows, d) <==> FindIndex(rows, DateIs(d)).Some?
  {
    if HasDate(rows, d) {
      var i :| 0 <= i < |rows| && rows[i].date == d;
      assert DateIs(d)(rows[i]);
    }
  }

  lemma {:induction false} DayRowOf(orders: seq<Order>, rows: seq<DailySummary>, dateOf: int -> string,
                                    restaurants: seq<Restaurant>, d: string)
    requires var delivered := Filter(orders, IsDelivered);
      DatesDistinct(rows) && RowsBalance(rows) && DayOk(delivered, rows, dateOf, restaurants, d)
    ensures DayRow(orders, rows, dateOf, restaurants, d)
  {
    var delivered := Filter(orders, IsDelivered);
    var m := FindIndex(rows, DateIs(d));
    DeliveredOnIff(orders, dateOf, d);
    HasDateIff(rows, d);
    forall i | 0 <= i < |rows| && rows[i].date == d
      ensures RowSums(rows[i], orders, dateOf, restaurants)
    {
      assert DateIs(d)(rows[i]);
      assert i == m.value;
    }
  }

  /** Sorting moves rows but keeps their contents, so the day property
      carries over to the sorted rows. */
  lemma {:induction false} SortedDayRow(orders: seq<Order>, rows: seq<DailySummary>, dateOf: int -> string,
                                        restaurants: seq<Restaurant>, d: string)
    requires DayRow(orders, rows, dateOf, restaurants, d)
    ensures DayRow(orders, Sort(rows, RowDate, Later), dateOf, restaurants, d)
  {
    var sorted := Sort(rows, RowDate, Later);
    forall i | 0 <= i < |sorted| && sorted[i].date == d
      ensures RowSums(sorted[i], orders, dateOf, restaurants)
    {
      assert sorted[i] in multiset(rows);
      var j :| 0 <= j < |rows| && rows[j] == sorted[i];
    }
    if HasDate(rows, d) {
      var j :| 0 <= j < |rows| && rows[j].date == d;
      assert rows[j] in multiset(sorted);
      var i :| 0 <= i < |sorted| && sorted[i] == rows[j];
    }
    if HasDate(sorted, d) {
      var i :| 0 <= i < |sorted| && sorted[i].date == d;
      assert sorted[i] in multiset(rows);
      var j :| 0 <= j < |rows| && rows[j] == sorted[i];
    }
  }

  /** The settlement table: dates are distinct and in descending order, and
      for every date the row sums the delivered orders of that date. */
  lemma {:induction false} DailyFinancialsSpec(orders: seq<Order>, dateOf: int -> string, restaurants: seq<Restaurant>, d: string)
    ensures var r := DailyFinancials(orders, dateOf, restaurants);
      && DatesDistinct(r)
      && DayRow(orders, r, dateOf, restaurants, d)
  {
    var delivered := Filter(orders, IsDelivered);
    var rows := Summaries(delivered, dateOf, restaurants);
    SummariesDistinct(delivered, dateOf, restaurants);
    SummariesBalance(delivered, dateOf, restaurants);
    SummariesDay(delivered, dateOf, restaurants, d);
    DayRowOf(orders, rows, dateOf, restaurants, d);
    SortedDayRow(orders, rows, dateOf, restaurants, d);
    SortKeysDistinct(rows, RowDate, Later);
  }

  // ---------------------------------------------------------------------------
  // Network updaters

  /** `handleCreateRestaurant`: an approved restaurant with no items, the
      default location, 10 percent commission and empty contact fields is
      appended. */
  function CreateRestaurant(s: GlobalState, id: string, name: string, user: string, pass: string): (r: GlobalState)
    ensures |r.restaurants| == |s.restaurants| + 1 && r.restaurants[..|s.restaurants|] == s.restaurants
    ensures r.(restaurants := s.restaurants) == s
    ensures var n := r.restaurants[|s.restaurants|];
      && n.id == id && n.name == name && n.status == Approved && n.items == []
      && n.username == Some(user) && n.password == Some(pass)
      && n.profileImageUrl == Some(AvatarBase + user)
      && n.location == Some(DefaultLocation) && n.commissionPercentage == Some(10.0)
      && n.mobile == Some("") && n.address == Some("") && n.categories.None?
  {
    var n := Restaurant(id, name, "owner-current", Approved, [], None, Some(user), Some(pass),
                        Some(AvatarBase + user), Some(DefaultLocation), Some(""), Some(""), Some(10.0));
    s.(restaurants := s.restaurants + [n])
  }

  /** `handleCreateRider`: an approved rider is appended. */
  function CreateRider(s: GlobalState, id: string, name: string, user: string, pass: string, mobile: string): (r: GlobalState)
    ensures |r.riders| == |s.riders| + 1 && r.riders[..|s.riders|] == s.riders
    ensures r.(riders := s.riders) == s
    ensures var n := r.riders[|s.riders|];
      && n.id == id && n.name == name && n.status == Approved
      && n.username == Some(user) && n.password == Some(pass) && n.mobile == Some(mobile)
      && n.profileImageUrl == Some(AvatarBase + user)
      && n.currentOrderId.None? && n.location.None?
  {
    var n := Rider(id, name, Approved, None, Some(user), Some(pass), Some(mobile), Some(AvatarBase + user), None);
    s.(riders := s.riders + [n])
  }

  /** `handleAdminPassUpdate`: an empty password is ignored. */
  function AdminPassUpdate(s: GlobalState, pass: string): (r: GlobalState)
    ensures pass == "" ==> r == s
    ensures pass != "" ==> r == s.(adminPassword := Some(pass))
  {
    if pass == "" then s else s.(adminPassword := Some(pass))
  }

  /** `deleteRestaurant`, when confirmed: every restaurant with that id goes,
      all others stay. */
  function DeleteRestaurant(s: GlobalState, id: string, confirmed: bool): (r: GlobalState)
    ensures !confirmed ==> r == s
    ensures r.(restaurants := s.restaurants) == s
    ensures confirmed ==>
      && (forall i :: 0 <= i < |r.restaurants| ==> r.restaurants[i].id != id)
      && (forall i :: 0 <= i < |s.restaurants| && s.restaurants[i].id != id ==> s.restaurants[i] in r.restaurants)
      && (forall x :: x in r.restaurants ==> x in s.restaurants)
  {
    if confirmed then s.(restaurants := RemoveById(s.restaurants, RestaurantIdOf, id)) else s
  }

  /** `deleteRider`, when confirmed. */
  function DeleteRider(s: GlobalState, id: string, confirmed: bool): (r: GlobalState)
    ensures !confirmed ==> r == s
    ensures r.(riders := s.riders) == s
    ensures confirmed ==>
      && (forall i :: 0 <= i < |r.riders| ==> r.riders[i].id != id)
      && (forall i :: 0 <= i < |s.riders| && s.riders[i].id != id ==> s.riders[i] in r.riders)
      && (forall x :: x in r.riders ==> x in s.riders)
  {
    if confirmed then s.(riders := RemoveById(s.riders, RiderIdOf, id)) else s
  }

  /** `saveEditedRestaurant`: the edited copy replaces every restaurant with
      its id; without one in edit nothing happens. */
  function SaveEditedRestaurant(s: GlobalState, editing: Option<Restaurant>): (r: GlobalState)
    ensures editing.None? ==> r == s
    ensures r.(restaurants := s.restaurants) == s
    ensures |r.restaurants| == |s.restaurants|
    ensures editing.Some? ==> forall i :: 0 <= i < |s.restaurants| ==>
      r.restaurants[i] == if s.restaurants[i].id == editing.value.id then editing.value else s.restaurants[i]
  {
    match editing
    case None => s
    case Some(e) => s.(restaurants := UpdateById(s.restaurants, RestaurantIdOf, e.id, (_: Restaurant) => e))
  }

  /** `saveEditedRider`. */
  function SaveEditedRider(s: GlobalState, editing: Option<Rider>): (r: GlobalState)
    ensures editing.None? ==> r == s
    ensures r.(riders := s.riders) == s
    ensures |r.riders| == |s.riders|
    ensures editing.Some? ==> forall i :: 0 <= i < |s.riders| ==>
      r.riders[i] == if s.riders[i].id == editing.value.id then editing.value else s.riders[i]
  {
    match editing
    case None => s
    case Some(e) => s.(riders := UpdateById(s.riders, RiderIdOf, e.id, (_: Rider) => e))
  }

  /** Saving the unchanged restaurant of a list with distinct ids changes
      nothing. */
  lemma {:induction false} SaveUnchangedRestaurant(s: GlobalState, i: nat)
    requires i < |s.restaurants|
    requires forall j :: 0 <= j < |s.restaurants| && j != i ==> s.restaurants[j].id != s.restaurants[i].id
    ensures SaveEditedRestaurant(s, Some(s.restaurants[i])) == s
  {
    var r := SaveEditedRestaurant(s, Some(s.restaurants[i]));
    assert r.restaurants == s.restaurants;
  }
}
