/** Order placement as the create handler performs it: validate the request
    body, walk the requested items in order against the catalogue (look the
    book up, check its stock, add to the running total, copy title and price,
    decrement the stock), then let the order schema accept or refuse the new
    document. A failure part-way through leaves the decrements already made:
    there is no rollback. */
module Reservation {
  import opened Basics
  import opened BookSchema
  import opened OrderSchema
  import opened Failures

  /** One requested line: a book id and the quantity asked for. The request
      body is not checked for positive quantities. */
  datatype Request = Request(book: BookId, quantity: int)

  /** The state of the handler's loop: the book table as it now stands, the
      line items and total so far, and the failure that ended the loop, if any. */
  datatype Progress = Progress(
    books: map<BookId, Book>,
    items: seq<LineItem>,
    total: int,
    failed: Option<Failure>)

  function Snapshot(b: Book, r: Request): LineItem
  {
    LineItem(r.book, b.title, b.price, r.quantity)
  }

  /** One iteration of the loop; once it has failed nothing more happens. */
  function Step(p: Progress, r: Request): (q: Progress)
  {
    if p.failed.Some? then p
    else if r.book !in p.books then p.(failed := Some(BookNotFound(r.book)))
    else
      var b := p.books[r.book];
      if b.stock < r.quantity then p.(failed := Some(InsufficientStock(r.book)))
      else Progress(p.books[r.book := b.(stock := b.stock - r.quantity)],
                    p.items + [Snapshot(b, r)],
                    p.total + b.price * r.quantity,
                    None)
  }

  /** The loop run over `reqs`, starting from `books`. What it computes is
      stated by RunPrefix, CompletedRunTable, CompletedRunLines, RunTotal and
      RunSucceedsIffFeasible below. */
  function Run(books: map<BookId, Book>, reqs: seq<Request>): (p: Progress)
    ensures |p.items| <= |reqs|
  {
    if reqs == [] then Progress(books, [], 0, None)
    else Step(Run(books, reqs[..|reqs| - 1]), reqs[|reqs| - 1])
  }

  /** One iteration either grants the request (the book is there with
      enough stock: the line is snapshotted, the total grows by the line's
      price times quantity, the stock drops by the quantity) or refuses it
      and changes nothing but the failure; after a failure it does nothing. */
  lemma StepOutcome(p: Progress, r: Request)
    ensures p.failed.Some? ==> Step(p, r) == p
    ensures Step(p, r).books.Keys == p.books.Keys
    ensures Step(p, r).failed.None? <==>
              p.failed.None? && r.book in p.books && r.quantity <= p.books[r.book].stock
    ensures Step(p, r).failed.Some? ==>
              Step(p, r).books == p.books && Step(p, r).items == p.items && Step(p, r).total == p.total
    ensures Step(p, r).failed.None? ==>
              && Step(p, r).items == p.items + [Snapshot(p.books[r.book], r)]
              && Step(p, r).total == p.total + p.books[r.book].price * r.quantity
              && Step(p, r).books == p.books[r.book := p.books[r.book].(stock := p.books[r.book].stock - r.quantity)]
  {
  }

  /** Total quantity the requests ask of book `id`. */
  function Requested(reqs: seq<Request>, id: BookId): int
  {
    if reqs == [] then 0
    else Requested(reqs[..|reqs| - 1], id)
         + (if reqs[|reqs| - 1].book == id then reqs[|reqs| - 1].quantity else 0)
  }

  /** The table after the first `n` requests were granted: each book's stock
      is lowered by what those requests asked of it, and nothing else moves. */
  predicate DecrementedBy(books: map<BookId, Book>, after: map<BookId, Book>, done: seq<Request>)
  {
    && after.Keys == books.Keys
    && forall id :: id in books ==>
         after[id] == books[id].(stock := books[id].stock - Requested(done, id))
  }

  /** A request list the loop gets through: each line names a book whose
      stock, less what the earlier lines took, still covers the line. */
  predicate Feasible(books: map<BookId, Book>, reqs: seq<Request>)
  {
    forall k :: 0 <= k < |reqs| ==>
      reqs[k].book in books
      && Requested(reqs[..k], reqs[k].book) + reqs[k].quantity <= books[reqs[k].book].stock
  }

  /** Why the loop stops at request `r` against the table as it then stands. */
  function StepFailure(books: map<BookId, Book>, r: Request): Failure
  {
    if r.book !in books then BookNotFound(r.book) else InsufficientStock(r.book)
  }

  /** A run either completes, or stops at request `n` (the number of items
      granted so far) with everything granted before it kept, for the reason
      the table gives at that point. */
  lemma {:induction false} RunPrefix(books: map<BookId, Book>, reqs: seq<Request>)
    ensures var p := Run(books, reqs); var n := |p.items|;
      && n <= |reqs|
      && (p.failed.None? <==> n == |reqs|)
      && Run(books, reqs[..n]) == p.(failed := None)
      && (p.failed.Some? ==>
            && p.failed == Some(StepFailure(p.books, reqs[n]))
            && (reqs[n].book in p.books ==> p.books[reqs[n].book].stock < reqs[n].quantity))
  {
    if reqs == [] {
      assert reqs[..0] == [];
    } else {
      var init := reqs[..|reqs| - 1];
      RunPrefix(books, init);
      var q := Run(books, init);
      var m := |q.items|;
      assert init[..m] == reqs[..m];
      if q.failed.None? {
        assert reqs[..m] == init;
        if Run(books, reqs).failed.None? {
          assert reqs[..|reqs|] == reqs;
        }
      } else {
        assert init[m] == reqs[m];
      }
    }
  }

  /** Once the loop has failed, later requests are not looked at. */
  lemma {:induction false} FailureSticks(books: map<BookId, Book>, reqs: seq<Request>, k: nat)
    requires k <= |reqs|
    requires Run(books, reqs[..k]).failed.Some?
    ensures Run(books, reqs) == Run(books, reqs[..k])
  {
    if k < |reqs| {
      assert reqs[..|reqs| - 1][..k] == reqs[..k];
      FailureSticks(books, reqs[..|reqs| - 1], k);
    } else {
      assert reqs[..k] == reqs;
    }
  }

  /** A completed run granted every request: each line's book was there with
      enough stock left, and each book's stock is lowered by exactly what the
      requests asked of it. */
  lemma CompletedRunTable(books: map<BookId, Book>, reqs: seq<Request>)
    requires Run(books, reqs).failed.None?
    ensures |Run(books, reqs).items| == |reqs|
    ensures Feasible(books, reqs)
    ensures DecrementedBy(books, Run(books, reqs).books, reqs)
  {
    CompletedRunBooks(books, reqs);
    CompletedRunFeasible(books, reqs);
  }

  /** The table half of CompletedRunTable. */
  lemma {:induction false} CompletedRunBooks(books: map<BookId, Book>, reqs: seq<Request>)
    requires Run(books, reqs).failed.None?
    ensures |Run(books, reqs).items| == |reqs|
    ensures DecrementedBy(books, Run(books, reqs).books, reqs)
  {
    if reqs != [] {
      var init := reqs[..|reqs| - 1];
      var last := reqs[|reqs| - 1];
      CompletedRunBooks(books, init);
      var q := Run(books, init);
      var p := Run(books, reqs);
      assert last.book in q.books && q.books[last.book].stock >= last.quantity;
      assert p.books == q.books[last.book := q.books[last.book].(stock := q.books[last.book].stock - last.quantity)];
      forall id | id in books
        ensures p.books[id] == books[id].(stock := books[id].stock - Requested(reqs, id))
      {
      }
    }
  }

  /** The feasibility half of CompletedRunTable. */
  lemma {:induction false} CompletedRunFeasible(books: map<BookId, Book>, reqs: seq<Request>)
    requires Run(books, reqs).failed.None?
    ensures Feasible(books, reqs)
  {
    if reqs != [] {
      var init := reqs[..|reqs| - 1];
      var last := reqs[|reqs| - 1];
      CompletedRunFeasible(books, init);
      CompletedRunBooks(books, init);
      var q := Run(books, init);
      assert last.book in q.books && q.books[last.book].stock >= last.quantity;
      forall k | 0 <= k < |reqs|
        ensures reqs[k].book in books
          && Requested(reqs[..k], reqs[k].book) + reqs[k].quantity <= books[reqs[k].book].stock
      {
        if k < |init| {
          assert reqs[..k] == init[..k];
          assert reqs[k] == init[k];
        } else {
          assert reqs[..k] == init;
        }
      }
    }
  }

  /** The running total is always the sum of the line totals so far. */
  lemma {:induction false} RunTotal(books: map<BookId, Book>, reqs: seq<Request>)
    ensures Run(books, reqs).total == LinesTotal(Run(books, reqs).items)
  {
    if reqs != [] {
      var init := reqs[..|reqs| - 1];
      RunTotal(books, init);
      var q := Run(books, init);
      var p := Run(books, reqs);
      var last := reqs[|reqs| - 1];
      if q.failed.None? && last.book in q.books && q.books[last.book].stock >= last.quantity {
        var line := Snapshot(q.books[last.book], last);
        assert p.items == q.items + [line];
        LinesTotalAppend(q.items, [line]);
        assert LinesTotal([line]) == line.price * line.quantity by {
          assert [line][..0] == [];
        }
      }
    }
  }

  /** Line `k` copies the title and price that book had in the table the
      run started from: the loop only ever changes stock. */
  lemma {:induction false} CompletedRunLines(books: map<BookId, Book>, reqs: seq<Request>)
    requires Run(books, reqs).failed.None?
    ensures |Run(books, reqs).items| == |reqs|
    ensures forall k :: 0 <= k < |reqs| ==>
      reqs[k].book in books && Run(books, reqs).items[k] == Snapshot(books[reqs[k].book], reqs[k])
  {
    if reqs != [] {
      var init := reqs[..|reqs| - 1];
      var last := reqs[|reqs| - 1];
      CompletedRunLines(books, init);
      CompletedRunBooks(books, init);
      var q := Run(books, init);
      var p := Run(books, reqs);
      assert p.items == q.items + [Snapshot(q.books[last.book], last)];
      forall k | 0 <= k < |reqs|
        ensures reqs[k].book in books && p.items[k] == Snapshot(books[reqs[k].book], reqs[k])
      {
        if k < |init| {
          assert reqs[k] == init[k];
        }
      }
    }
  }

  /** The loop completes exactly for the feasible request lists. */
  lemma RunSucceedsIffFeasible(books: map<BookId, Book>, reqs: seq<Request>)
    ensures Run(books, reqs).failed.None? <==> Feasible(books, reqs)
  {
    var p := Run(books, reqs);
    if p.failed.None? {
      CompletedRunTable(books, reqs);
    } else {
      RunPrefix(books, reqs);
      var n := |p.items|;
      var q := Run(books, reqs[..n]);
      CompletedRunTable(books, reqs[..n]);
      assert !(reqs[n].book in books
               && Requested(reqs[..n], reqs[n].book) + reqs[n].quantity <= books[reqs[n].book].stock);
    }
  }

  /** Stock never goes negative and no other field of a book moves, whatever
      the quantities: a request that would overdraw a book fails instead. */
  lemma RunKeepsCatalogValid(books: map<BookId, Book>, reqs: seq<Request>)
    requires ValidCatalog(books)
    ensures ValidCatalog(Run(books, reqs).books)
    ensures DecrementedBy(books, Run(books, reqs).books, reqs[..|Run(books, reqs).items|])
  {
    RunPrefix(books, reqs);
    var p := Run(books, reqs);
    var n := |p.items|;
    CompletedRunTable(books, reqs[..n]);
    forall id | id in p.books
      ensures ValidBook(p.books[id])
    {
      RequestedWithinStock(books, reqs[..n], id);
    }
  }

  /** Along a feasible list, what is asked of a book never exceeds its stock. */
  lemma {:induction false} RequestedWithinStock(books: map<BookId, Book>, reqs: seq<Request>, id: BookId)
    requires Feasible(books, reqs) && id in books
    requires ValidBook(books[id])
    ensures Requested(reqs, id) <= books[id].stock
  {
    if reqs != [] {
      var init := reqs[..|reqs| - 1];
      assert Feasible(books, init) by {
        forall k | 0 <= k < |init|
          ensures init[k].book in books
            && Requested(init[..k], init[k].book) + init[k].quantity <= books[init[k].book].stock
        {
          assert init[..k] == reqs[..k];
        }
      }
      var k := |reqs| - 1;
      assert reqs[..k] == init;
      if reqs[k].book != id {
        RequestedWithinStock(books, init, id);
      }
    }
  }

  /** The route's own checks of the request body: at least one item, every
      address field present, a payment method present. */
  function ValidateRequest(reqs: seq<Request>, addr: Address, pmText: string): (r: Option<Failure>)
    ensures r.None? <==> |reqs| >= 1 && CompleteAddress(addr) && pmText != ""
    ensures r.Some? ==> r.value == InvalidRequest
  {
    if |reqs| >= 1 && CompleteAddress(addr) && pmText != "" then None else Some(InvalidRequest)
  }

  /** The outcome of one placement: the book table afterwards, and the new
      order or the failure reported. */
  datatype Placement = Placement(books: map<BookId, Book>, result: Result<Order, Failure>)

  /** The create handler from request to response. */
  function Place(books: map<BookId, Book>, user: UserId, reqs: seq<Request>,
                 addr: Address, pmText: string, now: int): (out: Placement)
    ensures out.result.Ok? ==> ValidateRequest(reqs, addr, pmText).None? && Run(books, reqs).failed.None?
    ensures out.result.Ok? ==> out.result.value.user == user && out.result.value.status == Pending
    ensures Run(books, reqs).failed.Some? ==> out.result.Err?
    ensures out.books == books || out.books == Run(books, reqs).books
  {
    match ValidateRequest(reqs, addr, pmText)
    case Some(f) => Placement(books, Err(f))
    case None =>
      var p := Run(books, reqs);
      if p.failed.Some? then Placement(p.books, Err(p.failed.value))
      else match ValidateOrder(p.items, p.total, addr, pmText)
        case Err(e) => Placement(p.books, Err(OrderRejected(e)))
        case Ok(m) => Placement(p.books, Ok(NewOrder(user, p.items, p.total, addr, m, now)))
  }

  /** A body that fails the route's validation is answered 400 before any
      book is looked at. */
  lemma InvalidRequestTouchesNothing(books: map<BookId, Book>, user: UserId, reqs: seq<Request>,
                                     addr: Address, pmText: string, now: int)
    requires |reqs| == 0 || !CompleteAddress(addr) || pmText == ""
    ensures Place(books, user, reqs, addr, pmText, now) == Placement(books, Err(InvalidRequest))
    ensures HttpStatus(InvalidRequest) == 400
  {
  }

  /** A created order: one line per request, each carrying the book's title
      and price as they stood, a total equal to the sum of the line totals,
      the schema's defaults, and every requested book's stock lowered by
      exactly the quantity requested of it, all other books unchanged. */
  lemma PlacedOrder(books: map<BookId, Book>, user: UserId, reqs: seq<Request>,
                    addr: Address, pmText: string, now: int)
    requires ValidCatalog(books)
    requires Place(books, user, reqs, addr, pmText, now).result.Ok?
    ensures var out := Place(books, user, reqs, addr, pmText, now); var o := out.result.value;
      && |o.items| == |reqs|
      && (forall k :: 0 <= k < |reqs| ==>
            reqs[k].book in books && o.items[k] == Snapshot(books[reqs[k].book], reqs[k]))
      && o.totalAmount == LinesTotal(o.items)
      && WellFormedOrder(o)
      && o.user == user && o.status == Pending && !o.isPaid && !o.isDelivered
      && o.trackingDetails == "" && o.paymentDetails.None? && o.paidAt.None? && o.deliveredAt.None?
      && o.shippingAddress == addr && o.createdAt == now
      && PaymentMethodName(o.paymentMethod) == pmText
      && DecrementedBy(books, out.books, reqs)
      && ValidCatalog(out.books)
  {
    CompletedRunTable(books, reqs);
    CompletedRunLines(books, reqs);
    RunTotal(books, reqs);
    RunKeepsCatalogValid(books, reqs);
  }

  /** Reservation is not all-or-nothing: when item `n` fails, the books of
      items 0..n-1 keep their decrements, no order is created, and the stock
      still never goes negative. */
  lemma FailedPlacementKeepsDecrements(books: map<BookId, Book>, user: UserId, reqs: seq<Request>,
                                       addr: Address, pmText: string, now: int)
    requires ValidCatalog(books)
    requires ValidateRequest(reqs, addr, pmText).None?
    requires Run(books, reqs).failed.Some?
    ensures var n := |Run(books, reqs).items|; var out := Place(books, user, reqs, addr, pmText, now);
      && n < |reqs|
      && out.result == Err(Run(books, reqs).failed.value)
      && DecrementedBy(books, out.books, reqs[..n])
      && ValidCatalog(out.books)
  {
    RunPrefix(books, reqs);
    var n := |Run(books, reqs).items|;
    CompletedRunTable(books, reqs[..n]);
    RunKeepsCatalogValid(books, reqs);
  }

  /** An order is created exactly when the body passes the route's checks,
      the loop grants every request, every quantity is at least 1 and the
      payment method is one the schema enumerates. */
  lemma PlaceSucceedsIff(books: map<BookId, Book>, user: UserId, reqs: seq<Request>,
                         addr: Address, pmText: string, now: int)
    requires ValidCatalog(books)
    ensures Place(books, user, reqs, addr, pmText, now).result.Ok? <==>
      && ValidateRequest(reqs, addr, pmText).None?
      && Feasible(books, reqs)
      && (forall k :: 0 <= k < |reqs| ==> reqs[k].quantity >= 1)
      && ParsePaymentMethod(pmText).Some?
  {
    RunSucceedsIffFeasible(books, reqs);
    var p := Run(books, reqs);
    if ValidateRequest(reqs, addr, pmText).None? && p.failed.None? {
      CompletedRunLines(books, reqs);
      RunTotal(books, reqs);
      assert forall k :: 0 <= k < |reqs| ==> p.items[k].quantity == reqs[k].quantity;
      if forall k :: 0 <= k < |reqs| ==> reqs[k].quantity >= 1 {
        forall i | 0 <= i < |p.items|
          ensures p.items[i].price >= 0 && p.items[i].quantity >= 1
        {
          assert ValidBook(books[reqs[i].book]);
        }
        LinesTotalNonNegative(p.items);
      }
    }
  }

  /** When the loop grants every request but the schema then refuses the
      document (a quantity below 1, or a method outside the enumeration),
      the answer is 500 and the table keeps every decrement of the loop. */
  lemma SchemaRefusalKeepsDecrements(books: map<BookId, Book>, user: UserId, reqs: seq<Request>,
                                     addr: Address, pmText: string, now: int)
    requires ValidateRequest(reqs, addr, pmText).None? && Feasible(books, reqs)
    requires (exists k :: 0 <= k < |reqs| && reqs[k].quantity < 1) || ParsePaymentMethod(pmText).None?
    ensures var out := Place(books, user, reqs, addr, pmText, now);
      && out.result.Err? && out.result.error.OrderRejected?
      && HttpStatus(out.result.error) == 500
      && DecrementedBy(books, out.books, reqs)
  {
    RunSucceedsIffFeasible(books, reqs);
    CompletedRunTable(books, reqs);
    CompletedRunLines(books, reqs);
    var p := Run(books, reqs);
    assert forall k :: 0 <= k < |reqs| ==> p.items[k].quantity == reqs[k].quantity;
  }

  /** Concrete instance: the first line takes the last copy of "a", the
      second names a book that does not exist; the answer is 404 and "a" is
      left with no stock. */
  lemma PartialReservationExample(a: Book)
    requires ValidBook(a) && a.stock == 1
    ensures var books := map["a" := a];
      var out := Place(books, "u", [Request("a", 1), Request("z", 1)],
                       Address("street", "city", "000", "IN"), "COD", 0);
      && out.result == Err(BookNotFound("z"))
      && "a" in out.books && out.books["a"].stock == 0
  {
    var books := map["a" := a];
    var reqs := [Request("a", 1), Request("z", 1)];
    assert reqs[..1] == [Request("a", 1)] && reqs[..1][..0] == [];
    var r0 := Run(books, []);
    assert r0 == Progress(books, [], 0, None);
    var r1 := Run(books, reqs[..1]);
    assert r1 == Step(r0, Request("a", 1));
    assert r1.books == map["a" := a.(stock := 0)] && r1.failed.None?;
    assert Run(books, reqs) == r1.(failed := Some(BookNotFound("z")));
  }

  /** The quantity bound is checked only by the schema, after the stock loop:
      a line asking for -2 copies passes the stock check, raises the stock by
      2, and then the order is refused with a server error. */
  lemma NegativeQuantityRaisesStock(a: Book)
    requires ValidBook(a)
    ensures var books := map["a" := a];
      var out := Place(books, "u", [Request("a", -2)],
                       Address("street", "city", "000", "IN"), "COD", 0);
      && out.result == Err(OrderRejected(BadQuantity))
      && HttpStatus(out.result.error) == 500
      && "a" in out.books && out.books["a"].stock == a.stock + 2
  {
    var books := map["a" := a];
    var reqs := [Request("a", -2)];
    assert reqs[..0] == [];
    var r0 := Run(books, []);
    assert r0 == Progress(books, [], 0, None);
    var p := Run(books, reqs);
    assert p == Step(r0, reqs[0]);
    assert p.books == map["a" := a.(stock := a.stock + 2)];
    assert p.items == [Snapshot(a, reqs[0])];
    assert !QuantitiesPositive(p.items) by {
      assert p.items[0].quantity == -2;
    }
  }

  /** The payment method is checked against the enumeration only by the
      schema: an unknown method is refused after the stock was taken. */
  lemma UnknownMethodKeepsDecrements(a: Book)
    requires ValidBook(a) && a.stock >= 1
    ensures var books := map["a" := a];
      var out := Place(books, "u", [Request("a", 1)],
                       Address("street", "city", "000", "IN"), "Cash", 0);
      && out.result == Err(OrderRejected(UnknownPaymentMethod))
      && "a" in out.books && out.books["a"].stock == a.stock - 1
  {
    var books := map["a" := a];
    var reqs := [Request("a", 1)];
    assert reqs[..0] == [];
    var r0 := Run(books, []);
    assert r0 == Progress(books, [], 0, None);
    var p := Run(books, reqs);
    assert p == Step(r0, reqs[0]);
    assert p.books == map["a" := a.(stock := a.stock - 1)];
    assert p.items == [Snapshot(a, Request("a", 1))];
    assert QuantitiesPositive(p.items);
    assert p.total == a.price by {
      RunTotal(books, reqs);
      assert p.items[..0] == [];
    }
  }

  /** Two orders, one after the other, each for the last copy of a book: the
      first is created, the second is refused for stock, and the stock ends
      at zero. */
  lemma LastCopySoldOnce(a: Book, addr: Address)
    requires ValidBook(a) && a.stock == 1 && CompleteAddress(addr)
    ensures var first := Place(map["a" := a], "u1", [Request("a", 1)], addr, "COD", 0);
      var second := Place(first.books, "u2", [Request("a", 1)], addr, "COD", 1);
      && first.result.Ok?
      && "a" in first.books && first.books["a"].stock == 0
      && second.result == Err(InsufficientStock("a"))
      && "a" in second.books && second.books["a"].stock == 0
  {
    var books := map["a" := a];
    var reqs := [Request("a", 1)];
    assert reqs[..0] == [];
    var r0 := Run(books, []);
    assert r0 == Progress(books, [], 0, None);
    var p := Run(books, reqs);
    assert p == Step(r0, reqs[0]);
    assert p.books == map["a" := a.(stock := 0)];
    assert p.items == [Snapshot(a, Request("a", 1))];
    assert QuantitiesPositive(p.items);
    assert p.total == a.price by {
      RunTotal(books, reqs);
      assert p.items[..0] == [];
    }
    var q0 := Run(p.books, []);
    assert q0 == Progress(p.books, [], 0, None);
    var p2 := Run(p.books, reqs);
    assert p2 == Step(q0, reqs[0]);
    assert p2 == Progress(p.books, [], 0, Some(InsufficientStock("a")));
  }

  /** Two lines at prices 200 and 150 for 2 and 1 copies total 550. */
  lemma TwoLineTotal(x: Book, y: Book, addr: Address)
    requires x.price == 200 && y.price == 150 && x.stock >= 2 && y.stock >= 1
    requires CompleteAddress(addr)
    ensures var out := Place(map["x" := x, "y" := y], "u", [Request("x", 2), Request("y", 1)], addr, "UPI", 0);
      out.result.Ok? && out.result.value.totalAmount == 550
  {
    var books := map["x" := x, "y" := y];
    var reqs := [Request("x", 2), Request("y", 1)];
    assert reqs[..1] == [Request("x", 2)] && reqs[..1][..0] == [];
    var r0 := Run(books, []);
    assert r0 == Progress(books, [], 0, None);
    var r1 := Run(books, reqs[..1]);
    assert r1 == Step(r0, Request("x", 2));
    assert r1.books == books["x" := x.(stock := x.stock - 2)] && r1.total == 400;
    assert r1.items == [Snapshot(x, reqs[0])];
    var p := Run(books, reqs);
    assert p == Step(r1, Request("y", 1));
    assert "y" in r1.books && r1.books["y"] == y;
    assert p.items == [Snapshot(x, reqs[0]), Snapshot(y, reqs[1])];
    assert p.total == 550;
    assert QuantitiesPositive(p.items);
  }
}
