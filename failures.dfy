/** The ways a request to the order and payment handlers can fail, and the
    HTTP status each one is answered with. */
module Failures {
  import opened BookSchema
  import opened OrderSchema

  datatype Failure =
    | InvalidRequest                            // request-body validation
    | BookNotFound(book: BookId)                // a line item names no book
    | InsufficientStock(book: BookId)           // a line item asks for more than is left
    | OrderRejected(reason: SchemaError)        // Order.create refused the document
    | OrderNotFound
    | NotAuthorized
    | CannotCancelDelivered
    | AlreadyCancelled
    | InvalidStatus                             // saving an unknown status is refused
    | PaymentDeclined                           // the simulated settlement failed

  function HttpStatus(f: Failure): (code: int)
    ensures code in {400, 403, 404, 500}
    ensures code == 404 <==> f.BookNotFound? || f.OrderNotFound?
    ensures code == 403 <==> f.NotAuthorized?
    ensures code == 500 <==> f.OrderRejected? || f.InvalidStatus?
  {
    match f
    case InvalidRequest => 400
    case BookNotFound(_) => 404
    case InsufficientStock(_) => 400
    case OrderRejected(_) => 500
    case OrderNotFound => 404
    case NotAuthorized => 403
    case CannotCancelDelivered => 400
    case AlreadyCancelled => 400
    case InvalidStatus => 500
    case PaymentDeclined => 400
  }
}
