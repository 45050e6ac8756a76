/**
 * Cash payment at checkout. Each line the customer types is either malformed,
 * a well-formed amount below what is due, or an accepted amount with its
 * change; the prompt repeats until a line is accepted.
 */
module Payments {
  import opened Wrappers
  import opened Validators

  /** The decision the payment prompt takes on one typed line. */
  datatype Tender = Malformed | Insufficient(paid: real) | Accepted(paid: real, change: real)

  /**
   * One pass of the payment prompt: a line that is not a valid amount is
   * refused; a valid amount below `due` is refused as insufficient; any other
   * amount is accepted and the change is what was paid minus what was due.
   */
  function TenderFor(input: string, due: real): (t: Tender)
    ensures t.Malformed? <==> !IsValidPayment(input)
    ensures t.Accepted? <==> IsValidPayment(input) && PaymentValue(input) >= due
    ensures !t.Malformed? ==> t.paid == PaymentValue(input)
    ensures t.Insufficient? ==> t.paid < due
    ensures t.Accepted? ==> t.change >= 0.0 && t.paid == due + t.change
  {
    if !IsValidPayment(input) then Malformed
    else
      var paid := PaymentValue(input);
      if paid < due then Insufficient(paid) else Accepted(paid, paid - due)
  }

  /** A settled payment: how many lines were read, the amount paid and the change given. */
  datatype Receipt = Receipt(linesRead: nat, paid: real, change: real)

  /**
   * `r` records the first line of `inputs` that settles `due`: every earlier
   * line was malformed or insufficient.
   */
  ghost predicate FirstAccepted(inputs: seq<string>, due: real, r: Receipt) {
    && 0 < r.linesRead <= |inputs|
    && TenderFor(inputs[r.linesRead - 1], due) == Accepted(r.paid, r.change)
    && forall k :: 0 <= k < r.linesRead - 1 ==> !TenderFor(inputs[k], due).Accepted?
  }

  /** No line of `inputs` settles `due`. */
  ghost predicate NoneAccepted(inputs: seq<string>, due: real) {
    forall k :: 0 <= k < |inputs| ==> !TenderFor(inputs[k], due).Accepted?
  }

  /**
   * processPayment over the lines the customer types, in order: the first
   * accepted line settles the payment. When no line is accepted the program
   * is still waiting at the prompt, shown here as `None`.
   */
  method ProcessPayment(due: real, inputs: seq<string>) returns (r: Option<Receipt>)
    ensures r.Some? ==> FirstAccepted(inputs, due, r.value)
    ensures r.Some? ==> r.value.change >= 0.0 && r.value.change == r.value.paid - due
    ensures r.None? <==> NoneAccepted(inputs, due)
  {
    var i := 0;
    while i < |inputs|
      invariant 0 <= i <= |inputs|
      invariant forall k :: 0 <= k < i ==> !TenderFor(inputs[k], due).Accepted?
    {
      var input := inputs[i];
      i := i + 1;
      if !IsValidPayment(input) {
        continue;
      }
      var paid := PaymentValue(input);
      if paid >= due {
        return Some(Receipt(i, paid, paid - due));
      }
    }
    return None;
  }

  /** Nothing due: every well-formed amount that is not negative settles the payment. */
  lemma ZeroDueAcceptsNonNegative(input: string)
    requires IsValidPayment(input) && PaymentValue(input) >= 0.0
    ensures TenderFor(input, 0.0) == Accepted(PaymentValue(input), PaymentValue(input))
  {
  }

  /** With 50 due: 40 is refused as insufficient, 50 is accepted with no change, 60 with 10 change. */
  lemma FiftyDueExamples()
    ensures TenderFor("40", 50.0) == Insufficient(40.0)
    ensures TenderFor("50", 50.0) == Accepted(50.0, 0.0)
    ensures TenderFor("60", 50.0) == Accepted(60.0, 10.0)
    ensures TenderFor("fifty", 50.0) == Malformed
  {
    PaymentWholeRoundTrip(40);
    assert NatText(40) == "40" by { assert NatText(40) == NatText(4) + [DigitChar(0)]; }
    PaymentWholeRoundTrip(50);
    assert NatText(50) == "50" by { assert NatText(50) == NatText(5) + [DigitChar(0)]; }
    PaymentWholeRoundTrip(60);
    assert NatText(60) == "60" by { assert NatText(60) == NatText(6) + [DigitChar(0)]; }
    assert DigitsEnd("fifty", 0) == 0;
  }
}
