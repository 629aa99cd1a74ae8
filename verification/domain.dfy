/** The records and enumerations of types.ts, and the collection updates
    every dashboard is built from. Optional fields (`x?: T`) are `Option`s;
    `number` is an exact `real`, except `createdAt`, a millisecond count. */
module Domain {
  import opened Wrappers
  import opened Collections
  import opened Sorting

  datatype UserRole = AdminRole | RestaurantRole | RiderRole | CustomerRole

  datatype EntityStatus = Pending | Approved | Rejected

  datatype LatLng = LatLng(lat: real, lng: real)

  datatype MenuItem = MenuItem(
    id: string,
    name: string,
    price: real,
    description: string,
    category: string,
    imageUrl: Option<string>)

  datatype Restaurant = Restaurant(
    id: string,
    name: string,
    ownerId: string,
    status: EntityStatus,
    items: seq<MenuItem>,
    categories: Option<seq<string>>,
    username: Option<string>,
    password: Option<string>,
    profileImageUrl: Option<string>,
    location: Option<LatLng>,
    mobile: Option<string>,
    address: Option<string>,
    commissionPercentage: Option<real>)

  datatype Customer = Customer(
    id: string,
    name: string,
    mobile: string,
    whatsapp: string,
    address: string,
    username: string,
    password: string,
    profileImageUrl: Option<string>,
    location: Option<LatLng>)

  datatype Rider = Rider(
    id: string,
    name: string,
    status: EntityStatus,
    currentOrderId: Option<string>,
    username: Option<string>,
    password: Option<string>,
    mobile: Option<string>,
    profileImageUrl: Option<string>,
    location: Option<LatLng>)

  /** The order lifecycle, in the order the statuses are reached. */
  datatype OrderStatus = Placed | Confirmed | Preparing | Ready | OutForDelivery | Delivered

  datatype Order = Order(
    id: string,
    customerId: string,
    restaurantId: string,
    items: seq<MenuItem>,
    total: real,
    deliveryFee: real,
    distance: real,
    status: OrderStatus,
    riderId: Option<string>,
    createdAt: int)

  /** `isAdminLoggedIn?: boolean` is only ever read for its truth, so an absent
      flag is `false`. */
  datatype GlobalState = GlobalState(
    restaurants: seq<Restaurant>,
    customers: seq<Customer>,
    riders: seq<Rider>,
    orders: seq<Order>,
    currentUserRole: UserRole,
    loggedInRestaurantId: Option<string>,
    loggedInRiderId: Option<string>,
    loggedInCustomerId: Option<string>,
    adminPassword: Option<string>,
    isAdminLoggedIn: bool)

  /** The location new restaurants and customers get when none is known. */
  const DefaultLocation: LatLng := LatLng(6.9271, 79.8612)

  /** Generated avatars: this prefix followed by a seed. */
  const AvatarBase: string := "https://i.pravatar.cc/150?u="

  // ---------------------------------------------------------------------------
  // JavaScript truthiness of optional strings

  /** An optional string is truthy when present and non-empty. */
  predicate Truthy(o: Option<string>)
  {
    o.Some? && o.value != ""
  }

  /** `o || d` on an optional string. */
  function OrElse(o: Option<string>, d: string): (r: string)
    ensures Truthy(o) ==> r == o.value
    ensures !Truthy(o) ==> r == d
  {
    if o.Some? && o.value != "" then o.value else d
  }

  /** `pct || 0` on an optional percentage (0 and absence agree). */
  function Percent(pct: Option<real>): real
  {
    pct.GetOr(0.0)
  }

  // ---------------------------------------------------------------------------
  // Money

  /** The food part of an order: its total without the delivery fee. */
  function FoodSubtotal(o: Order): real
  {
    o.total - o.deliveryFee
  }

  /** The platform's share `subtotal * (pct / 100)`. */
  function CommissionOn(subtotal: real, pct: Option<real>): real
  {
    subtotal * (Percent(pct) / 100.0)
  }

  function Price(i: MenuItem): real { i.price }

  // ---------------------------------------------------------------------------
  // Collection updates: replace-by-id and filter-by-id

  function OrderId(o: Order): string { o.id }
  function RestaurantIdOf(r: Restaurant): string { r.id }
  function RiderIdOf(r: Rider): string { r.id }
  function MenuItemId(i: MenuItem): string { i.id }

  /** The elements whose id is `id`. */
  function IdIs<T>(idOf: T -> string, id: string): T -> bool
  {
    x => idOf(x) == id
  }

  /** The elements whose id is not `id`. */
  function IdIsNot<T>(idOf: T -> string, id: string): T -> bool
  {
    x => idOf(x) != id
  }

  /** `s.map(x => x.id === id ? f(x) : x)`: the entries with that id are
      updated in place, every other entry is kept as it is. */
  function UpdateById<T>(s: seq<T>, idOf: T -> string, id: string, f: T -> T): (r: seq<T>)
    ensures |r| == |s|
    ensures forall i :: 0 <= i < |s| && idOf(s[i]) == id ==> r[i] == f(s[i])
    ensures forall i :: 0 <= i < |s| && idOf(s[i]) != id ==> r[i] == s[i]
  {
    MapWhere(s, IdIs(idOf, id), f)
  }

  /** `s.filter(x => x.id !== id)`: exactly the entries with that id go, and
      every entry with another id stays. */
  function RemoveById<T>(s: seq<T>, idOf: T -> string, id: string): (r: seq<T>)
    ensures forall i :: 0 <= i < |r| ==> idOf(r[i]) != id
    ensures forall i :: 0 <= i < |s| && idOf(s[i]) != id ==> s[i] in r
    ensures forall x :: x in r ==> x in s
  {
    Filter(s, IdIsNot(idOf, id))
  }

  /** Removing by id shortens the list by the number of entries with that id,
      and the entries kept are those of the other ids, in their order. */
  lemma RemoveByIdCount<T>(s: seq<T>, idOf: T -> string, id: string)
    ensures |RemoveById(s, idOf, id)| + |Filter(s, IdIs(idOf, id))| == |s|
    ensures RemoveById(s, idOf, id) == s ==> |Filter(s, IdIs(idOf, id))| == 0
  {
    FilterSplit(s, IdIsNot(idOf, id));
    assert forall x :: !IdIsNot(idOf, id)(x) == IdIs(idOf, id)(x);
    FilterSameAs(s, x => !IdIsNot(idOf, id)(x), IdIs(idOf, id));
  }

  /** Removing by id keeps the order of what stays: it works piecewise on a
      concatenation, and keeps a single entry exactly when its id differs. */
  lemma {:induction false} RemoveByIdKeepsOrder<T>(a: seq<T>, b: seq<T>, idOf: T -> string, id: string)
    ensures RemoveById(a + b, idOf, id) == RemoveById(a, idOf, id) + RemoveById(b, idOf, id)
    ensures forall x :: RemoveById([x], idOf, id) == if idOf(x) != id then [x] else []
  {
    FilterAppend(a, b, IdIsNot(idOf, id));
    forall x
      ensures RemoveById([x], idOf, id) == if idOf(x) != id then [x] else []
    {
      assert [x][..0] == [];
    }
  }

  /** The status setter shared by the restaurant buttons and the rider's
      `handleUpdateStatus`: only the status of the orders with that id
      changes. */
  function SetStatus(orders: seq<Order>, id: string, next: OrderStatus): (r: seq<Order>)
    ensures |r| == |orders|
    ensures forall i :: 0 <= i < |orders| ==>
      if orders[i].id == id then r[i] == orders[i].(status := next) else r[i] == orders[i]
  {
    UpdateById(orders, OrderId, id, (o: Order) => o.(status := next))
  }

  // ---------------------------------------------------------------------------
  // Newest first

  function CreatedAt(o: Order): int { o.createdAt }

  /** The comparator `(a, b) => b.createdAt - a.createdAt` ranks the larger
      timestamp first. */
  function Newer(a: int, b: int): bool { a > b }

  lemma NewerIsStrictOrder()
    ensures StrictOrder(Newer)
  {
  }

  /** `orders.sort((a, b) => b.createdAt - a.createdAt)`: the same orders,
      newest first. */
  function NewestFirst(orders: seq<Order>): (r: seq<Order>)
    ensures multiset(r) == multiset(orders)
    ensures forall i, j :: 0 <= i < j < |r| ==> r[i].createdAt >= r[j].createdAt
  {
    NewerIsStrictOrder();
    SortSorted(orders, CreatedAt, Newer);
    Sort(orders, CreatedAt, Newer)
  }

  /** Orders with the same timestamp keep their relative order. */
  lemma NewestFirstStable(orders: seq<Order>, t: int)
    ensures Filter(NewestFirst(orders), KeyIs(CreatedAt, t)) == Filter(orders, KeyIs(CreatedAt, t))
  {
    NewerIsStrictOrder();
    SortStable(orders, CreatedAt, Newer, t);
  }
}
