/**
 * Checkout and the order history. The program keeps one process-wide history
 * of checked-out orders and one order-number counter; an `OrderBook` object
 * holds that state, and its methods are `processOrder` and `viewOrders`.
 */
module Orders {
  import opened Store
  import opened Payments
  import Validators

  /** The checkout loop: add up price times quantity over the lines, first to last. */
  method ComputeTotal(items: seq<CartLine>) returns (total: real)
    ensures total == Total(items)
  {
    total := 0.0;
    for i := 0 to |items|
      invariant total == Total(items[..i])
    {
      assert items[..i + 1][..i] == items[..i];
      total := total + Subtotal(items[i]);
    }
    assert items[..|items|] == items;
  }

  /** What a call to processOrder comes to. */
  datatype Checkout =
    | NothingToCheckout
      /** the order got its number and its total, and the payment prompt is still waiting */
    | AwaitingPayment(orderId: int, total: real)
    | Paid(orderId: int, total: real, payment: Receipt)

  /** One past order as `viewOrders` shows it: its display number, its lines and their total. */
  datatype OrderSummary = OrderSummary(number: nat, lines: seq<CartLine>, total: real)

  class OrderBook {
    /** The orders checked out so far, oldest first; each is a copy of the lines paid for. */
    var history: seq<seq<CartLine>>
    /** The number the next order gets. */
    var nextId: int

    /**
     * Every recorded order has lines, and every one of them used up an order
     * number (numbers are also used up by orders whose payment is pending).
     */
    ghost predicate Valid()
      reads this
    {
      && nextId >= |history| + 1
      && forall k :: 0 <= k < |history| ==> history[k] != []
    }

    /** At program start: no orders, and the first order will be number 1. */
    constructor ()
      ensures Valid() && history == [] && nextId == 1
    {
      history := [];
      nextId := 1;
    }

    /**
     * processOrder: with no lines, nothing happens. Otherwise the order takes
     * the next number, its total is computed, and it is paid for with the
     * typed lines `tenders`; once paid, a copy of the lines is appended to
     * the history.
     */
    method ProcessOrder(items: seq<CartLine>, tenders: seq<string>) returns (outcome: Checkout)
      requires Valid()
      modifies this
      ensures Valid()
      ensures items == [] ==> outcome == NothingToCheckout && history == old(history) && nextId == old(nextId)
      ensures items != [] ==> nextId == old(nextId) + 1 && !outcome.NothingToCheckout?
      ensures items != [] ==> outcome.orderId == old(nextId) && outcome.total == Total(items)
      ensures outcome.Paid? ==> history == old(history) + [items]
      ensures outcome.Paid? ==> FirstAccepted(tenders, Total(items), outcome.payment)
      ensures outcome.Paid? ==> outcome.payment.change == outcome.payment.paid - Total(items) >= 0.0
      ensures outcome.AwaitingPayment? ==> history == old(history) && NoneAccepted(tenders, Total(items))
      ensures items != [] ==> (outcome.Paid? <==> !NoneAccepted(tenders, Total(items)))
    {
      if items == [] {
        return NothingToCheckout;
      }
      var orderId := nextId;
      nextId := nextId + 1;
      var total := ComputeTotal(items);
      var payment := ProcessPayment(total, tenders);
      if payment.None? {
        return AwaitingPayment(orderId, total);
      }
      history := history + [items];
      return Paid(orderId, total, payment.value);
    }

    /**
     * viewOrders: every recorded order in the order it was checked out,
     * numbered from 1, with its total recomputed from its stored lines. No
     * orders gives an empty listing.
     */
    method ViewOrders() returns (summaries: seq<OrderSummary>)
      requires Valid()
      ensures |summaries| == |history|
      ensures forall k :: 0 <= k < |history| ==>
                summaries[k] == OrderSummary(k + 1, history[k], Total(history[k]))
    {
      summaries := [];
      var number := 1;
      for k := 0 to |history|
        invariant number == k + 1
        invariant |summaries| == k
        invariant forall j :: 0 <= j < k ==> summaries[j] == OrderSummary(j + 1, history[j], Total(history[j]))
      {
        var total := ComputeTotal(history[k]);
        summaries := summaries + [OrderSummary(number, history[k], total)];
        number := number + 1;
      }
    }
  }

  /** The worked example: 24 x 1 plus 57 x 2 is 138 due; 150 tendered leaves 12 change. */
  lemma TwoLineCheckoutExample()
    ensures Total([CartLine(Catalog[0], 1), CartLine(Catalog[1], 2)]) == 138.0
    ensures TenderFor("150", 138.0) == Accepted(150.0, 12.0)
  {
    var lines := [CartLine(Catalog[0], 1), CartLine(Catalog[1], 2)];
    assert lines[..1] == [CartLine(Catalog[0], 1)];
    TotalSingle(CartLine(Catalog[0], 1));
    Validators.PaymentWholeRoundTrip(150);
    assert Validators.NatText(150) == "150" by {
      assert Validators.NatText(150) == Validators.NatText(15) + [Validators.DigitChar(0)];
      assert Validators.NatText(15) == Validators.NatText(1) + [Validators.DigitChar(5)];
    }
  }
}
