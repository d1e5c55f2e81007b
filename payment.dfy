/** The simulated payment handlers: settling an order and the card check.
    The random outcome, the clock and the random suffix of the transaction
    id are parameters. */
module Payment {
  import opened Basics
  import opened OrderSchema

  /** The digit character for 0..9. */
  function DigitChar(d: nat): char
    requires d < 10
  {
    ['0', '1', '2', '3', '4', '5', '6', '7', '8', '9'][d]
  }

  /** How a template literal renders a non-negative integer: its decimal
      digits without leading zeros. */
  function Decimal(n: nat): (r: string)
    ensures |r| >= 1 && AllDigits(r)
    ensures r[0] == '0' <==> n == 0
    ensures n < 10 <==> |r| == 1
  {
    if n < 10 then [DigitChar(n)] else Decimal(n / 10) + [DigitChar(n % 10)]
  }

  /** The number a string of digits denotes. */
  function DigitsValue(s: string): nat
    requires AllDigits(s)
  {
    if s == [] then 0
    else DigitsValue(s[..|s| - 1]) * 10 + (s[|s| - 1] as int - '0' as int)
  }

  /** Reading the rendered digits back gives the number. */
  lemma {:induction false} DecimalValue(n: nat)
    ensures DigitsValue(Decimal(n)) == n
  {
    if n >= 10 {
      DecimalValue(n / 10);
      var r := Decimal(n);
      assert r[..|r| - 1] == Decimal(n / 10);
    }
  }

  /** Different numbers render differently. */
  lemma DecimalInjective(a: nat, b: nat)
    requires Decimal(a) == Decimal(b)
    ensures a == b
  {
    DecimalValue(a);
    DecimalValue(b);
  }

  /** The transaction id: "TXN", the clock in milliseconds, then a random
      integer below 10000, with no separator and no padding. */
  function TransactionId(clock: nat, rand: nat): (id: string)
    requires rand < 10000
    ensures |id| >= 5 && id[..3] == "TXN" && AllDigits(id[3..])
  {
    "TXN" + Decimal(clock) + Decimal(rand)
  }

  /** While the clock keeps the same number of digits, distinct (clock, random)
      pairs give distinct transaction ids. */
  lemma TransactionIdInjective(c1: nat, r1: nat, c2: nat, r2: nat)
    requires r1 < 10000 && r2 < 10000
    requires |Decimal(c1)| == |Decimal(c2)|
    requires TransactionId(c1, r1) == TransactionId(c2, r2)
    ensures c1 == c2 && r1 == r2
  {
    var id := TransactionId(c1, r1);
    var k := 3 + |Decimal(c1)|;
    assert id[3..k] == Decimal(c1);
    assert id[3..k] == Decimal(c2);
    DecimalInjective(c1, c2);
    assert id[k..] == Decimal(r1);
    assert id[k..] == Decimal(r2);
    DecimalInjective(r1, r2);
  }

  /** Without padding the id is ambiguous across clock widths: clock 1 with
      suffix 23 and clock 12 with suffix 3 both give "TXN123". */
  lemma TransactionIdAmbiguous()
    ensures TransactionId(1, 23) == TransactionId(12, 3) == "TXN123"
  {
    assert Decimal(1) == "1" && Decimal(3) == "3";
    assert Decimal(2) == "2";
    assert Decimal(23) == Decimal(2) + "3";
    assert Decimal(12) == Decimal(1) + "2";
  }

  /** A successful settlement: the order is marked paid at `paidAt` and the
      payment details record the transaction id, the method text the client
      sent and "success". Nothing else changes: neither the status, nor the
      order's own payment method, nor a previous settlement is consulted. */
  function Settle(o: Order, pmText: string, txnId: string, paidAt: int): (r: Order)
    ensures r.isPaid && r.paidAt == Some(paidAt)
    ensures r.paymentDetails == Some(PaymentDetails(txnId, pmText, "success"))
    ensures r.(isPaid := o.isPaid, paidAt := o.paidAt, paymentDetails := o.paymentDetails) == o
  {
    o.(isPaid := true, paidAt := Some(paidAt),
       paymentDetails := Some(PaymentDetails(txnId, pmText, "success")))
  }

  /** Paying twice is accepted; the second settlement replaces the first. */
  lemma SecondSettlementOverwrites(o: Order, pm1: string, id1: string, t1: int,
                                   pm2: string, id2: string, t2: int)
    ensures Settle(Settle(o, pm1, id1, t1), pm2, id2, t2) == Settle(o, pm2, id2, t2)
  {
  }

  /** A settlement keeps what the creation invariant and the lifecycle
      depend on: a cancelled or delivered order can still be paid. */
  lemma SettleKeepsOrder(o: Order, pmText: string, txnId: string, paidAt: int)
    ensures WellFormedOrder(o) ==> WellFormedOrder(Settle(o, pmText, txnId, paidAt))
    ensures Settle(o, pmText, txnId, paidAt).status == o.status
    ensures Settle(o, pmText, txnId, paidAt).items == o.items
    ensures Settle(o, pmText, txnId, paidAt).totalAmount == o.totalAmount
  {
  }

  /** The method recorded with the payment need not be the order's method. */
  lemma RecordedMethodMayDiffer(o: Order, txnId: string, paidAt: int)
    requires o.paymentMethod == COD
    ensures Settle(o, "Card", txnId, paidAt).paymentDetails.value.paymentMethod
            != PaymentMethodName(Settle(o, "Card", txnId, paidAt).paymentMethod)
  {
  }

  /** The mock card check. An absent field and an empty string are both
      falsy; lengths count every character, spaces included. */
  function ValidateCard(cardNumber: Option<string>, cvv: Option<string>, expiry: Option<string>)
    : (valid: bool)
    ensures valid <==> && cardNumber.Some? && |cardNumber.value| >= 16
                       && cvv.Some? && |cvv.value| == 3
                       && expiry.Some? && expiry.value != ""
  {
    match (cardNumber, cvv, expiry)
    case (Some(n), Some(c), Some(e)) => n != "" && |n| >= 16 && c != "" && |c| == 3 && e != ""
    case _ => false
  }
}
