/** The order handlers after creation: who may read an order, the per-user
    and all-orders listings, the owner's cancel and the administrator's
    "set status". The handlers guard the cancel, but "set status" accepts any
    enumerated status from any current status. */
module Lifecycle {
  import opened Basics
  import opened OrderSchema
  import opened Failures

  datatype Role = Customer | Admin

  /** The authenticated caller, as the authentication middleware supplies it. */
  datatype Caller = Caller(id: UserId, role: Role)

  /** Reading an order is allowed to its owner and to an administrator. */
  predicate MayRead(o: Order, c: Caller)
  {
    o.user == c.id || c.role == Admin
  }

  /** GET of one order; orders are addressed by their position in the store. */
  function ReadOrder(orders: seq<Order>, id: nat, c: Caller): (r: Result<Order, Failure>)
    ensures r.Ok? <==> id < |orders| && (orders[id].user == c.id || c.role == Admin)
    ensures r.Ok? ==> r.value == orders[id]
    ensures r.Err? ==> (r.error == OrderNotFound <==> id >= |orders|)
    ensures r.Err? ==> r.error == OrderNotFound || r.error == NotAuthorized
  {
    if id >= |orders| then Err(OrderNotFound)
    else if !MayRead(orders[id], c) then Err(NotAuthorized)
    else Ok(orders[id])
  }

  /** Positions of the orders placed by `user`, newest first. */
  function OrdersOf(orders: seq<Order>, user: UserId): (r: seq<nat>)
    ensures forall k: int :: k in r <==> 0 <= k < |orders| && orders[k].user == user
    ensures forall i, j :: 0 <= i < j < |r| ==> r[i] > r[j]
  {
    if orders == [] then []
    else
      var n := |orders| - 1;
      var older := OrdersOf(orders[..n], user);
      assert forall k: int :: k in older <==> 0 <= k < n && orders[k].user == user;
      assert forall j :: 0 <= j < |older| ==> older[j] < n by {
        forall j | 0 <= j < |older| ensures older[j] < n {
          assert older[j] in older;
        }
      }
      (if orders[n].user == user then [n] else []) + older
  }

  /** GET of every order, newest first: administrators only. */
  function AllOrders(orders: seq<Order>, c: Caller): (r: Result<seq<nat>, Failure>)
    ensures r.Err? <==> c.role != Admin
    ensures r.Err? ==> r.error == NotAuthorized
    ensures r.Ok? ==> |r.value| == |orders| && forall i :: 0 <= i < |orders| ==> r.value[i] == |orders| - 1 - i
  {
    if c.role != Admin then Err(NotAuthorized)
    else Ok(seq(|orders|, i requires 0 <= i < |orders| => |orders| - 1 - i))
  }

  /** Reading agrees with the listings: a customer can read exactly the
      orders of their own listing, an administrator exactly those of the
      all-orders listing. */
  lemma ReadMatchesListings(orders: seq<Order>, c: Caller, k: nat)
    ensures c.role == Customer ==> (ReadOrder(orders, k, c).Ok? <==> k in OrdersOf(orders, c.id))
    ensures c.role == Admin ==>
      (ReadOrder(orders, k, c).Ok? <==> AllOrders(orders, c).Ok? && k in AllOrders(orders, c).value)
  {
    if c.role == Admin && k < |orders| {
      var all := AllOrders(orders, c).value;
      assert all[|orders| - 1 - k] == k;
    }
  }

  /** The owner's cancel: a non-owner is refused (403), a delivered or an
      already cancelled order is refused (400); otherwise only the status
      becomes cancelled. */
  function Cancel(o: Order, c: Caller): (r: Result<Order, Failure>)
    ensures r.Ok? <==> o.user == c.id && !IsTerminal(o.status)
    ensures r.Ok? ==> r.value == o.(status := Cancelled)
    ensures o.user != c.id ==> r == Err(NotAuthorized)
    ensures o.user == c.id && o.status == Delivered ==> r == Err(CannotCancelDelivered)
    ensures o.user == c.id && o.status == Cancelled ==> r == Err(AlreadyCancelled)
  {
    if o.user != c.id then Err(NotAuthorized)
    else if o.status == Delivered then Err(CannotCancelDelivered)
    else if o.status == Cancelled then Err(AlreadyCancelled)
    else Ok(o.(status := Cancelled))
  }

  /** A second cancel always fails. */
  lemma CancelTwiceFails(o: Order, c: Caller, c2: Caller)
    requires Cancel(o, c).Ok?
    ensures Cancel(Cancel(o, c).value, c2).Err?
    ensures c2.id == c.id ==> Cancel(Cancel(o, c).value, c2) == Err(AlreadyCancelled)
  {
  }

  /** The administrator's "set status". The text is stored as given; a text
      outside the enumeration is refused when the document is saved, and
      nothing is stored. The tracking note changes only when one is
      supplied. Setting "delivered" raises `isDelivered` and stamps the
      time; no other status lowers the flag. The current status is not
      consulted. */
  function SetStatus(o: Order, statusText: string, tracking: Option<string>, now: int)
    : (r: Result<Order, Failure>)
    ensures r.Err? <==> ParseStatus(statusText).None?
    ensures r.Err? ==> r.error == InvalidStatus
    ensures r.Ok? ==> StatusName(r.value.status) == statusText
    ensures r.Ok? ==> r.value.trackingDetails == (if tracking.Some? then tracking.value else o.trackingDetails)
    ensures r.Ok? ==> r.value.isDelivered == (o.isDelivered || r.value.status == Delivered)
    ensures r.Ok? ==> r.value.deliveredAt == (if r.value.status == Delivered then Some(now) else o.deliveredAt)
    ensures r.Ok? ==> r.value.(status := o.status, trackingDetails := o.trackingDetails,
                               isDelivered := o.isDelivered, deliveredAt := o.deliveredAt) == o
  {
    match ParseStatus(statusText)
    case None => Err(InvalidStatus)
    case Some(s) =>
      var t := if tracking.Some? then o.(status := s, trackingDetails := tracking.value) else o.(status := s);
      if s == Delivered then Ok(t.(isDelivered := true, deliveredAt := Some(now))) else Ok(t)
  }

  /** The link between the delivery flag and the status that the handlers
      do not maintain: a delivered flag only on a delivered order. */
  predicate DeliveryConsistent(o: Order)
  {
    o.isDelivered ==> o.status == Delivered
  }

  /** An administrator can take an order out of a terminal status: a
      cancelled order can be set back to pending. */
  lemma AdminReopensCancelled(o: Order, now: int)
    requires o.status == Cancelled
    ensures SetStatus(o, "pending", None, now).Ok?
    ensures SetStatus(o, "pending", None, now).value.status == Pending
  {
  }

  /** "isDelivered implies delivered" is not kept: setting "delivered" and
      then "processing" leaves the flag raised on a processing order, and that
      order can then be cancelled by its owner with the flag still raised. */
  lemma DeliveredFlagOutlivesStatus(o: Order, now: int)
    requires DeliveryConsistent(o)
    ensures var d := SetStatus(o, "delivered", None, now).value;
      var p := SetStatus(d, "processing", None, now + 1).value;
      && DeliveryConsistent(d)
      && p.isDelivered && p.status == Processing && !DeliveryConsistent(p)
      && Cancel(p, Caller(o.user, Customer)).Ok?
      && Cancel(p, Caller(o.user, Customer)).value.isDelivered
  {
    assert ParseStatus("delivered") == Some(Delivered);
    assert ParseStatus("processing") == Some(Processing);
  }

  /** Once an order is delivered its owner can no longer cancel it. */
  lemma DeliveredCannotBeCancelled(o: Order, c: Caller, now: int, tracking: Option<string>)
    requires SetStatus(o, "delivered", tracking, now).Ok?
    ensures SetStatus(o, "delivered", tracking, now).value.isDelivered
    ensures Cancel(SetStatus(o, "delivered", tracking, now).value, c).Err?
  {
    assert ParseStatus("delivered") == Some(Delivered);
  }

  /** Neither transition touches what the schema and the creation invariant
      constrain (items, total, address). */
  lemma TransitionsKeepWellFormed(o: Order, c: Caller, statusText: string,
                                  tracking: Option<string>, now: int)
    requires WellFormedOrder(o)
    ensures Cancel(o, c).Ok? ==> WellFormedOrder(Cancel(o, c).value)
    ensures SetStatus(o, statusText, tracking, now).Ok? ==>
              WellFormedOrder(SetStatus(o, statusText, tracking, now).value)
  {
  }
}
