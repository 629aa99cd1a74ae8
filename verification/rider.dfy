/** The rider dashboard (views/RiderDashboard.tsx): the rider's three order
    lists, accepting an order from the pool, the status buttons, the
    earnings figure and the approval gate. */
module RiderView {
  import opened Wrappers
  import opened Collections
  import opened Domain
  import opened Lifecycle

  /** The logged-in rider, looked up by id. */
  function Me(s: GlobalState): (r: Option<Rider>)
    ensures r.Some? ==> r.value in s.riders && Some(r.value.id) == s.loggedInRiderId
    ensures r.None? ==> forall i :: 0 <= i < |s.riders| ==> Some(s.riders[i].id) != s.loggedInRiderId
  {
    Find(s.riders, (x: Rider) => Some(x.id) == s.loggedInRiderId)
  }

  // ---------------------------------------------------------------------------
  // The three lists

  /** Taken by rider `me`. */
  function RiderIs(me: string): Order -> bool
  {
    (o: Order) => o.riderId == Some(me)
  }

  /** Taken by rider `me` and not yet delivered. */
  function AssignedTo(me: string): Order -> bool
  {
    (o: Order) => o.riderId == Some(me) && o.status != Delivered
  }

  /** Delivered by rider `me`. */
  function CompletedBy(me: string): Order -> bool
  {
    (o: Order) => o.riderId == Some(me) && o.status == Delivered
  }

  /** Waiting for a rider: confirmed, preparing or ready, and without a
      (truthy) rider id. */
  predicate Unclaimed(o: Order)
  {
    (o.status == Confirmed || o.status == Preparing || o.status == Ready) && !Truthy(o.riderId)
  }

  function Assigned(orders: seq<Order>, me: string): (r: seq<Order>)
    ensures forall i :: 0 <= i < |r| ==> r[i] in orders && r[i].riderId == Some(me) && r[i].status != Delivered
    ensures forall i :: 0 <= i < |orders| && orders[i].riderId == Some(me) && orders[i].status != Delivered ==> orders[i] in r
  {
    Filter(orders, AssignedTo(me))
  }

  function Completed(orders: seq<Order>, me: string): (r: seq<Order>)
    ensures forall i :: 0 <= i < |r| ==> r[i] in orders && r[i].riderId == Some(me) && r[i].status == Delivered
    ensures forall i :: 0 <= i < |orders| && orders[i].riderId == Some(me) && orders[i].status == Delivered ==> orders[i] in r
  {
    Filter(orders, CompletedBy(me))
  }

  function Pool(orders: seq<Order>): (r: seq<Order>)
    ensures forall i :: 0 <= i < |r| ==> r[i] in orders && Unclaimed(r[i])
    ensures forall i :: 0 <= i < |orders| && Unclaimed(orders[i]) ==> orders[i] in r
  {
    Filter(orders, Unclaimed)
  }

  /** For a rider with a non-empty id no order is in two lists, and the
      rider's own orders split into the assigned and the completed ones. */
  lemma ListsDisjoint(orders: seq<Order>, me: string)
    requires me != ""
    ensures forall o :: !(AssignedTo(me)(o) && CompletedBy(me)(o))
    ensures forall o :: AssignedTo(me)(o) || CompletedBy(me)(o) ==> !Unclaimed(o)
    ensures |Assigned(orders, me)| + |Completed(orders, me)| == |Filter(orders, RiderIs(me))|
  {
    FilterPartition(orders, RiderIs(me), AssignedTo(me), CompletedBy(me));
  }

  // ---------------------------------------------------------------------------
  // Updates

  /** `handleAcceptOrder`: the orders with that id get the rider; nothing
      else changes. */
  function AcceptOrder(orders: seq<Order>, me: string, id: string): (r: seq<Order>)
    ensures |r| == |orders|
    ensures forall i :: 0 <= i < |orders| ==>
      r[i] == if orders[i].id == id then orders[i].(riderId := Some(me)) else orders[i]
  {
    UpdateById(orders, OrderId, id, (o: Order) => o.(riderId := Some(me)))
  }

  /** Accepting moves an unclaimed order out of the pool into the rider's
      assigned list, and leaves every other order in the lists it was in. */
  lemma AcceptMovesOrder(orders: seq<Order>, me: string, id: string)
    requires me != ""
    ensures var r := AcceptOrder(orders, me, id);
      forall i :: 0 <= i < |orders| ==>
        if orders[i].id == id && Unclaimed(orders[i])
        then !Unclaimed(r[i]) && AssignedTo(me)(r[i])
        else if orders[i].id != id
        then Unclaimed(r[i]) == Unclaimed(orders[i]) && AssignedTo(me)(r[i]) == AssignedTo(me)(orders[i])
        else true
  {
  }

  /** `handleUpdateStatus`. */
  function UpdateStatus(orders: seq<Order>, id: string, next: OrderStatus): (r: seq<Order>)
    ensures |r| == |orders|
    ensures forall i :: 0 <= i < |orders| ==>
      r[i] == if orders[i].id == id then orders[i].(status := next) else orders[i]
  {
    SetStatus(orders, id, next)
  }

  /** A button on an assigned order's card: "Confirm Pickup" on a ready
      order, "Complete Delivery" on one out for delivery, none otherwise. */
  function PressRiderButton(orders: seq<Order>, shown: Order): (r: seq<Order>)
    ensures RiderNext(shown.status).None? ==> r == orders
    ensures shown.status == Ready ==> r == UpdateStatus(orders, shown.id, OutForDelivery)
    ensures shown.status == OutForDelivery ==> r == UpdateStatus(orders, shown.id, Delivered)
  {
    match RiderNext(shown.status)
    case None => orders
    case Some(next) => UpdateStatus(orders, shown.id, next)
  }

  // ---------------------------------------------------------------------------
  // Earnings

  function Fee(o: Order): real { o.deliveryFee }

  /** An order's fee where it is delivered by `me`, 0 elsewhere. */
  function CompletedFee(me: string): Order -> real
  {
    (o: Order) => if CompletedBy(me)(o) then o.deliveryFee else 0.0
  }

  /** `completedOrders.reduce((a, b) => a + b.deliveryFee, 0)`: the fees of
      the rider's delivered orders, i.e. the fee of each order counted where
      it is delivered by `me`. */
  function Earnings(orders: seq<Order>, me: string): (e: real)
    ensures e == Sum(orders, CompletedFee(me))
  {
    SumFilter(orders, CompletedBy(me), Fee, CompletedFee(me));
    Sum(Completed(orders, me), Fee)
  }

  /** The fee of an order that a press of "Complete Delivery" hands to `me`. */
  function FeeEarnedBy(me: string, id: string): Order -> real
  {
    (o: Order) => if o.id == id && AssignedTo(me)(o) then o.deliveryFee else 0.0
  }

  /** Completing a delivery adds the fees of the rider's undelivered orders
      with that id to the earnings, and nothing else. */
  lemma CompletingAddsFee(orders: seq<Order>, me: string, id: string)
    ensures Earnings(UpdateStatus(orders, id, Delivered), me)
         == Earnings(orders, me) + Sum(orders, FeeEarnedBy(me, id))
  {
    var after := UpdateStatus(orders, id, Delivered);
    forall i | 0 <= i < |orders|
      ensures CompletedFee(me)(after[i]) == CompletedFee(me)(orders[i]) + FeeEarnedBy(me, id)(orders[i])
    {
      var o := orders[i];
      assert CompletedBy(me)(o) == (o.riderId == Some(me) && o.status == Delivered);
      assert AssignedTo(me)(o) == (o.riderId == Some(me) && o.status != Delivered);
      assert CompletedBy(me)(after[i]) == (after[i].riderId == Some(me) && after[i].status == Delivered);
      if o.id == id {
        assert after[i] == o.(status := Delivered);
      } else {
        assert after[i] == o;
      }
    }
    SumAlong(orders, after, CompletedFee(me), CompletedFee(me), FeeEarnedBy(me, id));
  }

  /** With non-negative fees the earnings are non-negative. */
  lemma EarningsNonNegative(orders: seq<Order>, me: string)
    requires forall i :: 0 <= i < |orders| ==> orders[i].deliveryFee >= 0.0
    ensures Earnings(orders, me) >= 0.0
  {
    SumNonNegative(Completed(orders, me), Fee);
  }

  // ---------------------------------------------------------------------------
  // What the dashboard shows

  datatype Screen =
    | NoScreen
    | PendingNotice
    | Tasks(active: seq<Order>, completed: seq<Order>, pool: seq<Order>, earnings: real)

  /** Nothing without a rider, the "Registration Pending" notice for a rider
      that is not approved, the lists and earnings otherwise. */
  function RiderScreen(s: GlobalState): (r: Screen)
    ensures r.NoScreen? <==> Me(s).None?
    ensures r.PendingNotice? <==> Me(s).Some? && Me(s).value.status != Approved
    ensures r.Tasks? ==>
      && r.active == Assigned(s.orders, Me(s).value.id)
      && r.completed == Completed(s.orders, Me(s).value.id)
      && r.pool == Pool(s.orders)
      && r.earnings == Earnings(s.orders, Me(s).value.id)
  {
    match Me(s)
    case None => NoScreen
    case Some(me) =>
      if me.status != Approved then PendingNotice
      else Tasks(Assigned(s.orders, me.id), Completed(s.orders, me.id), Pool(s.orders), Earnings(s.orders, me.id))
  }
}
