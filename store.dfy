/** The server's mutable state and the handlers that change it in place: the
    create-order loop that decrements stock book by book, the
    administrator's status update, the owner's cancel and the payment
    settlement. Each handler is proved against the pure description of the
    same handler in Reservation, Lifecycle and Payment. */
module Store {
  import opened Basics
  import opened BookSchema
  import opened OrderSchema
  import opened Failures
  import opened Reservation
  import opened Lifecycle
  import opened Payment

  class Store {
    /** The book collection, by id. */
    var books: map<BookId, Book>
    /** The order collection; an order's id is its position. */
    var orders: seq<Order>

    /** What the schemas guarantee of every stored document, together with
        the creation invariant on order totals. */
    ghost predicate Valid()
      reads this
    {
      && ValidCatalog(books)
      && forall i :: 0 <= i < |orders| ==> WellFormedOrder(orders[i])
    }

    constructor(initial: map<BookId, Book>)
      requires ValidCatalog(initial)
      ensures Valid()
      ensures books == initial && orders == []
    {
      books := initial;
      orders := [];
    }

    /** The create handler's loop. Each requested book is looked up in the
        table as it now stands; the loop stops at the first missing book or
        short stock, and otherwise snapshots the line, adds to the total and
        lowers the stock in place. The outcome, including the table, is
        exactly `Run` of the requests from the table the loop started with. */
    method Reserve(reqs: seq<Request>) returns (items: seq<LineItem>, total: int, failed: Option<Failure>)
      requires ValidCatalog(books)
      modifies this
      ensures Run(old(books), reqs) == Progress(books, items, total, failed)
      ensures ValidCatalog(books)
      ensures orders == old(orders)
    {
      ghost var books0 := books;
      RunKeepsCatalogValid(books0, reqs);
      items, total, failed := [], 0, None;
      var i := 0;
      while i < |reqs|
        invariant 0 <= i <= |reqs|
        invariant Run(books0, reqs[..i]) == Progress(books, items, total, None)
        invariant orders == old(orders)
      {
        var req := reqs[i];
        assert reqs[..i + 1][..i] == reqs[..i];
        if req.book !in books {
          failed := Some(BookNotFound(req.book));
          FailureSticks(books0, reqs, i + 1);
          return;
        }
        var b := books[req.book];
        if b.stock < req.quantity {
          failed := Some(InsufficientStock(req.book));
          FailureSticks(books0, reqs, i + 1);
          return;
        }
        total := total + b.price * req.quantity;
        items := items + [Snapshot(b, req)];
        books := books[req.book := b.(stock := b.stock - req.quantity)];
        i := i + 1;
      }
      assert reqs[..i] == reqs;
    }

    /** POST of a new order: the route's validation, the reservation loop,
        then the schema's validation of the new document. The book table
        afterwards and the answer are exactly those of `Place`; a created
        order is appended and its id returned. */
    method PlaceOrder(user: UserId, reqs: seq<Request>, addr: Address, pmText: string, now: int)
      returns (r: Result<nat, Failure>)
      requires Valid()
      modifies this
      ensures Valid()
      ensures var out := Place(old(books), user, reqs, addr, pmText, now);
        && books == out.books
        && (out.result.Ok? ==> r == Ok(|old(orders)|) && orders == old(orders) + [out.result.value])
        && (out.result.Err? ==> r == Err(out.result.error) && orders == old(orders))
    {
      var invalid := ValidateRequest(reqs, addr, pmText);
      if invalid.Some? {
        return Err(invalid.value);
      }
      ghost var books0 := books;
      var items, total, failed := Reserve(reqs);
      if failed.Some? {
        return Err(failed.value);
      }
      var checked := ValidateOrder(items, total, addr, pmText);
      if checked.Err? {
        return Err(OrderRejected(checked.error));
      }
      PlacedOrder(books0, user, reqs, addr, pmText, now);
      orders := orders + [NewOrder(user, items, total, addr, checked.value, now)];
      r := Ok(|orders| - 1);
    }

    /** PUT of an order's status, behind the administrator check: a
        non-administrator is refused before the order is looked up, a
        missing order is 404, otherwise `SetStatus` decides. The books are
        never touched. */
    method UpdateStatus(c: Caller, id: nat, statusText: string, tracking: Option<string>, now: int)
      returns (r: Result<Order, Failure>)
      requires Valid()
      modifies this
      ensures Valid()
      ensures books == old(books)
      ensures c.role != Admin ==> r == Err(NotAuthorized)
      ensures c.role == Admin && id >= |old(orders)| ==> r == Err(OrderNotFound)
      ensures c.role == Admin && id < |old(orders)| ==>
                r == SetStatus(old(orders)[id], statusText, tracking, now)
      ensures orders == (if r.Ok? then old(orders)[id := r.value] else old(orders))
    {
      if c.role != Admin {
        return Err(NotAuthorized);
      }
      if id >= |orders| {
        return Err(OrderNotFound);
      }
      r := SetStatus(orders[id], statusText, tracking, now);
      if r.Ok? {
        TransitionsKeepWellFormed(orders[id], c, statusText, tracking, now);
        orders := orders[id := r.value];
      }
    }

    /** PUT of an owner's cancel: 404 for a missing order, otherwise `Cancel`
        decides. Stock taken by the order is not given back. */
    method CancelOrder(c: Caller, id: nat) returns (r: Result<Order, Failure>)
      requires Valid()
      modifies this
      ensures Valid()
      ensures books == old(books)
      ensures id >= |old(orders)| ==> r == Err(OrderNotFound)
      ensures id < |old(orders)| ==> r == Cancel(old(orders)[id], c)
      ensures orders == (if r.Ok? then old(orders)[id := r.value] else old(orders))
    {
      if id >= |orders| {
        return Err(OrderNotFound);
      }
      r := Cancel(orders[id], c);
      if r.Ok? {
        TransitionsKeepWellFormed(orders[id], c, "", None, 0);
        orders := orders[id := r.value];
      }
    }

    /** POST of a payment. The outcome of the simulated gateway, the two
        clock readings and the random suffix are parameters. A declined
        payment is answered 400 without looking the order up; otherwise a
        missing order is 404 and a found one is settled, whoever the caller
        and whatever the order's status or earlier payment. */
    method ProcessPayment(id: nat, pmText: string, succeeded: bool,
                          paidAt: int, clock: nat, rand: nat)
      returns (r: Result<Order, Failure>)
      requires rand < 10000
      requires Valid()
      modifies this
      ensures Valid()
      ensures books == old(books)
      ensures !succeeded ==> r == Err(PaymentDeclined) && orders == old(orders)
      ensures succeeded && id >= |old(orders)| ==> r == Err(OrderNotFound) && orders == old(orders)
      ensures succeeded && id < |old(orders)| ==>
        && r == Ok(Settle(old(orders)[id], pmText, TransactionId(clock, rand), paidAt))
        && orders == old(orders)[id := r.value]
    {
      if !succeeded {
        return Err(PaymentDeclined);
      }
      if id >= |orders| {
        return Err(OrderNotFound);
      }
      var settled := Settle(orders[id], pmText, TransactionId(clock, rand), paidAt);
      SettleKeepsOrder(orders[id], pmText, TransactionId(clock, rand), paidAt);
      orders := orders[id := settled];
      r := Ok(settled);
    }
  }

  /** A whole scenario on a fresh store: the order for the last copy of a
      book is created, an administrator marks it delivered, its owner's
      cancel is then refused, and the stock stays at zero because nothing
      restores it. */
  method DeliveredOrderScenario(a: Book, addr: Address)
    returns (placed: Result<nat, Failure>, cancelled: Result<Order, Failure>, stockAfter: int)
    requires ValidBook(a) && a.stock == 1 && CompleteAddress(addr)
    ensures placed == Ok(0)
    ensures cancelled == Err(CannotCancelDelivered) && HttpStatus(cancelled.error) == 400
    ensures stockAfter == 0
  {
    var s := new Store(map["a" := a]);
    placed := s.PlaceOrder("u", [Request("a", 1)], addr, "COD", 0);
    LastCopySoldOnce(a, addr);
    var admin := Caller("root", Admin);
    var delivered := s.UpdateStatus(admin, 0, "delivered", None, 5);
    assert ParseStatus("delivered") == Some(Delivered);
    cancelled := s.CancelOrder(Caller("u", Customer), 0);
    stockAfter := s.books["a"].stock;
  }
}
