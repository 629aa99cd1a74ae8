/** The order lifecycle of types.ts, PLACED to DELIVERED. Its transitions
    are split between two views: the restaurant moves an order up to READY,
    the rider takes it from READY to DELIVERED. Each view offers at most one
    button per order, for the next status. */
module Lifecycle {
  import opened Wrappers
  import opened Domain

  /** Position of a status in the lifecycle. */
  function Rank(s: OrderStatus): nat
  {
    match s
    case Placed => 0
    case Confirmed => 1
    case Preparing => 2
    case Ready => 3
    case OutForDelivery => 4
    case Delivered => 5
  }

  /** The button the restaurant sees on an order: Confirm, Prepare or Mark
      Ready. */
  function RestaurantNext(s: OrderStatus): (r: Option<OrderStatus>)
    ensures r.Some? <==> Rank(s) < 3
    ensures r.Some? ==> Rank(r.value) == Rank(s) + 1
  {
    match s
    case Placed => Some(Confirmed)
    case Confirmed => Some(Preparing)
    case Preparing => Some(Ready)
    case _ => None
  }

  /** The button the rider sees on an assigned order: Confirm Pickup or
      Complete Delivery; CONFIRMED and PREPARING only show a waiting note. */
  function RiderNext(s: OrderStatus): (r: Option<OrderStatus>)
    ensures r.Some? <==> 3 <= Rank(s) < 5
    ensures r.Some? ==> Rank(r.value) == Rank(s) + 1
  {
    match s
    case Ready => Some(OutForDelivery)
    case OutForDelivery => Some(Delivered)
    case _ => None
  }

  /** The next status, whoever offers it. */
  function Advance(s: OrderStatus): Option<OrderStatus>
  {
    if RestaurantNext(s).Some? then RestaurantNext(s) else RiderNext(s)
  }

  /** Every status but DELIVERED is advanced by exactly one of the two
      views, to the status ranked next; DELIVERED is final. */
  lemma ExactlyOneActor(s: OrderStatus)
    ensures !(RestaurantNext(s).Some? && RiderNext(s).Some?)
    ensures s != Delivered <==> Advance(s).Some?
    ensures Advance(s).Some? ==> Rank(Advance(s).value) == Rank(s) + 1
  {
  }

  /** Following the offered buttons `n` times from `s`. */
  function AdvanceN(s: OrderStatus, n: nat): Option<OrderStatus>
    decreases n
  {
    if n == 0 then Some(s)
    else match Advance(s)
      case None => None
      case Some(t) => AdvanceN(t, n - 1)
  }

  /** The offered buttons lead an order from any status to DELIVERED in
      exactly as many steps as it has left, and no further. */
  lemma {:induction false} AdvanceReachesDelivered(s: OrderStatus)
    ensures AdvanceN(s, 5 - Rank(s)) == Some(Delivered)
    ensures AdvanceN(s, 6 - Rank(s)) == None
    decreases 5 - Rank(s)
  {
    if s != Delivered {
      var t := Advance(s).value;
      AdvanceReachesDelivered(t);
    }
  }
}
