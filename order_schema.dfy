/** The order document: line items, shipping address, the status and
    payment-method enumerations, the payment and delivery fields, and the
    defaults and bounds the schema applies when an order is created. */
module OrderSchema {
  import opened Basics
  import opened BookSchema

  type UserId = string

  datatype Status = Pending | Processing | Shipped | Delivered | Cancelled

  function StatusName(s: Status): string
  {
    match s
    case Pending => "pending"
    case Processing => "processing"
    case Shipped => "shipped"
    case Delivered => "delivered"
    case Cancelled => "cancelled"
  }

  /** The status enum validator. */
  function ParseStatus(s: string): (r: Option<Status>)
    ensures r.Some? ==> StatusName(r.value) == s
  {
    if s == "pending" then Some(Pending)
    else if s == "processing" then Some(Processing)
    else if s == "shipped" then Some(Shipped)
    else if s == "delivered" then Some(Delivered)
    else if s == "cancelled" then Some(Cancelled)
    else None
  }

  lemma ParseStatusName(s: Status)
    ensures ParseStatus(StatusName(s)) == Some(s)
  {
  }

  /** A status the cancel handler refuses to leave: delivered or cancelled. */
  predicate IsTerminal(s: Status) { s == Delivered || s == Cancelled }

  datatype PaymentMethod = COD | Card | UPI | NetBanking

  function PaymentMethodName(m: PaymentMethod): string
  {
    match m
    case COD => "COD"
    case Card => "Card"
    case UPI => "UPI"
    case NetBanking => "NetBanking"
  }

  /** The payment-method enum validator. */
  function ParsePaymentMethod(s: string): (r: Option<PaymentMethod>)
    ensures r.Some? ==> PaymentMethodName(r.value) == s
  {
    if s == "COD" then Some(COD)
    else if s == "Card" then Some(Card)
    else if s == "UPI" then Some(UPI)
    else if s == "NetBanking" then Some(NetBanking)
    else None
  }

  lemma ParsePaymentMethodName(m: PaymentMethod)
    ensures ParsePaymentMethod(PaymentMethodName(m)) == Some(m)
  {
  }

  /** One line of an order: the book it refers to, with the title and unit
      price copied from the catalogue when the order was placed. */
  datatype LineItem = LineItem(book: BookId, title: string, price: int, quantity: int)

  datatype Address = Address(address: string, city: string, postalCode: string, country: string)

  /** All four address fields are required. */
  predicate CompleteAddress(a: Address)
  {
    a.address != "" && a.city != "" && a.postalCode != "" && a.country != ""
  }

  /** What a settlement records; the method is the text the client sent. */
  datatype PaymentDetails = PaymentDetails(transactionId: string, paymentMethod: string, status: string)

  datatype Order = Order(
    user: UserId,
    items: seq<LineItem>,
    totalAmount: int,
    status: Status,
    shippingAddress: Address,
    paymentMethod: PaymentMethod,
    isPaid: bool,
    paidAt: Option<int>,
    paymentDetails: Option<PaymentDetails>,
    isDelivered: bool,
    deliveredAt: Option<int>,
    trackingDetails: string,
    createdAt: int)

  /** Sum of price times quantity over the line items. */
  function LinesTotal(items: seq<LineItem>): int
  {
    if items == [] then 0
    else LinesTotal(items[..|items| - 1]) + items[|items| - 1].price * items[|items| - 1].quantity
  }

  lemma {:induction false} LinesTotalAppend(a: seq<LineItem>, b: seq<LineItem>)
    ensures LinesTotal(a + b) == LinesTotal(a) + LinesTotal(b)
  {
    if b == [] {
      assert a + b == a;
    } else {
      assert (a + b)[..|a + b| - 1] == a + b[..|b| - 1];
      LinesTotalAppend(a, b[..|b| - 1]);
    }
  }

  /** With non-negative prices and positive quantities the total is non-negative. */
  lemma {:induction false} LinesTotalNonNegative(items: seq<LineItem>)
    requires forall i :: 0 <= i < |items| ==> items[i].price >= 0 && items[i].quantity >= 1
    ensures LinesTotal(items) >= 0
  {
    if items != [] {
      LinesTotalNonNegative(items[..|items| - 1]);
    }
  }

  /** The schema's per-item bound: every line item asks for at least one copy. */
  predicate QuantitiesPositive(items: seq<LineItem>)
  {
    forall i :: 0 <= i < |items| ==> items[i].quantity >= 1
  }

  /** What the schema enforces on a stored order (quantities >= 1, a
      non-negative total, a complete address) together with the creation
      invariant that the total is the sum of the line totals. */
  predicate WellFormedOrder(o: Order)
  {
    && QuantitiesPositive(o.items)
    && o.totalAmount >= 0
    && o.totalAmount == LinesTotal(o.items)
    && CompleteAddress(o.shippingAddress)
  }

  /** A freshly created order: the schema's defaults are pending, unpaid,
      undelivered and an empty tracking note. */
  function NewOrder(user: UserId, items: seq<LineItem>, total: int, addr: Address,
                    pm: PaymentMethod, now: int): (o: Order)
    ensures o.status == Pending && !o.isPaid && !o.isDelivered && o.trackingDetails == ""
    ensures o.paidAt.None? && o.paymentDetails.None? && o.deliveredAt.None?
    ensures o.user == user && o.items == items && o.totalAmount == total
    ensures o.shippingAddress == addr && o.paymentMethod == pm && o.createdAt == now
  {
    Order(user, items, total, Pending, addr, pm, false, None, None, false, None, "", now)
  }

  datatype SchemaError = BadQuantity | NegativeTotal | MissingAddressField | UnknownPaymentMethod

  /** The validation `Order.create` runs: the first violated rule, if any,
      otherwise the payment method the text names. */
  function ValidateOrder(items: seq<LineItem>, total: int, addr: Address, pmText: string)
    : (r: Result<PaymentMethod, SchemaError>)
    ensures r.Ok? <==> (QuantitiesPositive(items) && total >= 0 && CompleteAddress(addr)
                        && ParsePaymentMethod(pmText).Some?)
    ensures r.Ok? ==> PaymentMethodName(r.value) == pmText
  {
    if !QuantitiesPositive(items) then Err(BadQuantity)
    else if total < 0 then Err(NegativeTotal)
    else if !CompleteAddress(addr) then Err(MissingAddressField)
    else match ParsePaymentMethod(pmText)
      case None => Err(UnknownPaymentMethod)
      case Some(m) => Ok(m)
  }
}
