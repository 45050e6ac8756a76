/**
 * The shopping cart: an ordered list of (product, quantity) lines with at
 * most one line per product id. Adding a product bumps its line or appends a
 * new one; viewing the cart may check it out; checking out empties it.
 */
module Cart {
  import opened Wrappers
  import opened Validators
  import opened Store
  import opened Payments
  import opened Orders

  /** The position of the first line whose product has id `id`, if any. */
  function IndexOfId(lines: seq<CartLine>, id: int): (r: Option<nat>)
    ensures r.None? <==> forall j :: 0 <= j < |lines| ==> lines[j].product.id != id
    ensures r.Some? ==> r.value < |lines| && lines[r.value].product.id == id
    ensures r.Some? ==> forall j :: 0 <= j < r.value ==> lines[j].product.id != id
  {
    if lines == [] then None
    else if lines[0].product.id == id then Some(0)
    else match IndexOfId(lines[1..], id)
      case Some(k) => Some(k + 1)
      case None => None
  }

  /** The cart invariant: no two lines share a product id, and every quantity is at least 1. */
  ghost predicate WellFormed(lines: seq<CartLine>) {
    && (forall i, j :: 0 <= i < j < |lines| ==> lines[i].product.id != lines[j].product.id)
    && (forall k :: 0 <= k < |lines| ==> lines[k].quantity >= 1)
  }

  /** A line with one more of its product. */
  function Bumped(line: CartLine): CartLine {
    line.(quantity := line.quantity + 1)
  }

  /**
   * The cart after addProduct(p): the line for p's id gets one more unit
   * (keeping the product it already holds), or, when there is none,
   * (p, 1) is appended at the end.
   */
  function AddedTo(lines: seq<CartLine>, p: Product): seq<CartLine> {
    match IndexOfId(lines, p.id)
    case Some(k) => lines[k := Bumped(lines[k])]
    case None => lines + [CartLine(p, 1)]
  }

  /** How many units of product `id` the lines hold, counted over every line. */
  function QuantityOf(lines: seq<CartLine>, id: int): int {
    if lines == [] then 0
    else QuantityOf(lines[..|lines| - 1], id) + (if lines[|lines| - 1].product.id == id then lines[|lines| - 1].quantity else 0)
  }

  /** Adding keeps the cart invariant: the ids stay distinct and quantities stay positive. */
  lemma AddKeepsWellFormed(lines: seq<CartLine>, p: Product)
    requires WellFormed(lines)
    ensures WellFormed(AddedTo(lines, p))
  {
  }

  /** Adding never reorders or drops a line: the cart keeps its length or grows by one line at the end. */
  lemma AddShape(lines: seq<CartLine>, p: Product)
    ensures |AddedTo(lines, p)| == |lines| + (if IndexOfId(lines, p.id).None? then 1 else 0)
    ensures forall j :: 0 <= j < |lines| ==> AddedTo(lines, p)[j].product == lines[j].product
    ensures forall j :: 0 <= j < |lines| && lines[j].product.id != p.id ==> AddedTo(lines, p)[j] == lines[j]
  {
  }

  lemma {:induction false} QuantityOfAppend(lines: seq<CartLine>, line: CartLine, id: int)
    ensures QuantityOf(lines + [line], id) == QuantityOf(lines, id) + (if line.product.id == id then line.quantity else 0)
  {
    assert (lines + [line])[..|lines|] == lines;
  }

  lemma {:induction false} QuantityOfUpdate(lines: seq<CartLine>, k: nat, line: CartLine, id: int)
    requires k < |lines|
    ensures QuantityOf(lines[k := line], id)
         == QuantityOf(lines, id)
            - (if lines[k].product.id == id then lines[k].quantity else 0)
            + (if line.product.id == id then line.quantity else 0)
    decreases |lines|
  {
    var n := |lines| - 1;
    var u := lines[k := line];
    assert u[..n] == if k == n then lines[..n] else lines[..n][k := line];
    if k < n {
      QuantityOfUpdate(lines[..n], k, line, id);
    }
  }

  /** Adding p puts exactly one more unit of p's id in the cart and leaves every other id's count alone. */
  lemma AddCountsOneUnit(lines: seq<CartLine>, p: Product, id: int)
    ensures QuantityOf(AddedTo(lines, p), id) == QuantityOf(lines, id) + (if id == p.id then 1 else 0)
  {
    match IndexOfId(lines, p.id)
    case Some(k) =>
      QuantityOfUpdate(lines, k, Bumped(lines[k]), id);
    case None =>
      QuantityOfAppend(lines, CartLine(p, 1), id);
  }

  /** One more unit of a line costs one more unit price. */
  lemma SubtotalBumped(line: CartLine)
    ensures Subtotal(Bumped(line)) == Subtotal(line) + line.product.price
  {
    var q := line.quantity as real;
    assert (line.quantity + 1) as real == q + 1.0;
    assert line.product.price * (q + 1.0) == line.product.price * q + line.product.price;
  }

  /**
   * Adding p raises the cart total by p's price, provided any line already
   * holding p's id is priced like p (as it is when both come from the catalog).
   */
  lemma AddRaisesTotalByPrice(lines: seq<CartLine>, p: Product)
    requires forall j :: 0 <= j < |lines| && lines[j].product.id == p.id ==> lines[j].product.price == p.price
    ensures Total(AddedTo(lines, p)) == Total(lines) + p.price
  {
    match IndexOfId(lines, p.id)
    case Some(k) =>
      TotalUpdate(lines, k, Bumped(lines[k]));
      SubtotalBumped(lines[k]);
    case None =>
      TotalAppend(lines, [CartLine(p, 1)]);
      TotalSingle(CartLine(p, 1));
  }

  /** Adding the same new product twice gives one line with quantity 2, never two lines. */
  lemma AddTwiceMakesOneLine(lines: seq<CartLine>, p: Product)
    requires IndexOfId(lines, p.id).None?
    ensures AddedTo(AddedTo(lines, p), p) == lines + [CartLine(p, 2)]
  {
    var once := lines + [CartLine(p, 1)];
    var r := IndexOfId(once, p.id);
    assert once[|lines|].product.id == p.id;
    assert r.Some? && r.value < |once|;
    assert r.value == |lines|;
  }

  /** `answers[k]` is the first valid y/n answer typed. */
  ghost predicate FirstAnswerAt(answers: seq<string>, k: nat) {
    k < |answers| && IsValidChoice(answers[k]) && forall j :: 0 <= j < k ==> !IsValidChoice(answers[j])
  }

  /** No valid y/n answer has been typed. */
  ghost predicate NoAnswer(answers: seq<string>) {
    forall j :: 0 <= j < |answers| ==> !IsValidChoice(answers[j])
  }

  /** The checkout prompt: the position of the first line that is a valid y/n answer, if any. */
  method ReadChoice(answers: seq<string>) returns (r: Option<nat>)
    ensures r.Some? ==> FirstAnswerAt(answers, r.value)
    ensures r.None? <==> NoAnswer(answers)
  {
    var i := 0;
    while i < |answers|
      invariant 0 <= i <= |answers|
      invariant forall j :: 0 <= j < i ==> !IsValidChoice(answers[j])
    {
      if IsValidChoice(answers[i]) {
        return Some(i);
      }
      i := i + 1;
    }
    return None;
  }

  /** What viewing the cart came to. */
  datatype CartView =
    | EmptyCart
      /** no valid y/n answer has been typed yet */
    | AwaitingAnswer
    | Declined
    | CheckedOut(checkout: Checkout)

  class ShoppingCart {
    /** The cart's lines, in the order their products were first added. */
    var lines: seq<CartLine>

    ghost predicate Valid()
      reads this
    {
      WellFormed(lines)
    }

    /** A new session's cart is empty. */
    constructor ()
      ensures Valid() && lines == []
    {
      lines := [];
    }

    /**
     * addProduct: search the lines for p's id; bump the matching line and
     * stop, or append (p, 1) when the search finds nothing.
     */
    method AddProduct(p: Product)
      requires Valid()
      modifies this
      ensures Valid()
      ensures lines == AddedTo(old(lines), p)
    {
      AddKeepsWellFormed(lines, p);
      var i := 0;
      while i < |lines|
        invariant 0 <= i <= |lines|
        invariant lines == old(lines)
        invariant forall j :: 0 <= j < i ==> lines[j].product.id != p.id
      {
        if lines[i].product.id == p.id {
          lines := lines[i := lines[i].(quantity := lines[i].quantity + 1)];
          return;
        }
        i := i + 1;
      }
      lines := lines + [CartLine(p, 1)];
    }

    /** clearCart: the cart holds no lines afterwards. */
    method ClearCart()
      modifies this
      ensures Valid() && lines == []
    {
      lines := [];
    }

    /**
     * viewCart: an empty cart only reports that it is empty. Otherwise the
     * customer is asked to confirm; "Y" or "y" checks the lines out with
     * `book.ProcessOrder` and, once paid, empties the cart; "N" or "n"
     * leaves everything as it was.
     */
    method ViewCart(answers: seq<string>, tenders: seq<string>, book: OrderBook) returns (view: CartView)
      requires Valid() && book.Valid()
      modifies this, book
      ensures Valid() && book.Valid()
      ensures old(lines) == [] ==> view == EmptyCart
      ensures !view.CheckedOut? ==> lines == old(lines) && book.history == old(book.history) && book.nextId == old(book.nextId)
      ensures view.AwaitingAnswer? <==> old(lines) != [] && NoAnswer(answers)
      ensures view.CheckedOut? <==> old(lines) != [] && exists k: nat :: FirstAnswerAt(answers, k) && IsConfirmation(answers[k])
      ensures view.Declined? <==> old(lines) != [] && exists k: nat :: FirstAnswerAt(answers, k) && !IsConfirmation(answers[k])
      ensures view.CheckedOut? ==> book.nextId == old(book.nextId) + 1 && !view.checkout.NothingToCheckout?
      ensures view.CheckedOut? ==> view.checkout.orderId == old(book.nextId) && view.checkout.total == Total(old(lines))
      ensures view.CheckedOut? ==> (view.checkout.Paid? <==> !NoneAccepted(tenders, Total(old(lines))))
      ensures view.CheckedOut? && view.checkout.Paid? ==> FirstAccepted(tenders, Total(old(lines)), view.checkout.payment)
      ensures view.CheckedOut? && view.checkout.Paid? ==> lines == [] && book.history == old(book.history) + [old(lines)]
      ensures view.CheckedOut? && view.checkout.AwaitingPayment? ==> lines == old(lines) && book.history == old(book.history)
    {
      if lines == [] {
        return EmptyCart;
      }
      var answer := ReadChoice(answers);
      if answer.None? {
        return AwaitingAnswer;
      }
      if IsConfirmation(answers[answer.value]) {
        var checkout := book.ProcessOrder(lines, tenders);
        if checkout.Paid? {
          ClearCart();
        }
        return CheckedOut(checkout);
      }
      return Declined;
    }
  }

  /** The menu's "add a product" step on one typed id. */
  datatype Selection = NotANumber | UnknownId | Added(product: Product)

  /**
   * One pass of the product prompt: the typed text must be a whole integer,
   * that id must be in `products`, and the first product with it goes into
   * the cart; otherwise the cart is left alone.
   */
  method SelectProduct(cart: ShoppingCart, products: seq<Product>, input: string) returns (s: Selection)
    requires cart.Valid()
    modifies cart
    ensures cart.Valid()
    ensures s.NotANumber? <==> IsValidInteger(input).None?
    ensures s.UnknownId? <==> IsValidInteger(input).Some? && forall k :: 0 <= k < |products| ==> products[k].id != IsValidInteger(input).value
    ensures s.Added? ==> s.product in products && Some(s.product.id) == IsValidInteger(input)
    ensures s.Added? ==> exists k :: 0 <= k < |products| && products[k] == s.product
                                     && forall j :: 0 <= j < k ==> products[j].id != s.product.id
    ensures s.Added? ==> cart.lines == AddedTo(old(cart.lines), s.product)
    ensures !s.Added? ==> cart.lines == old(cart.lines)
  {
    var id := IsValidInteger(input);
    if id.None? {
      return NotANumber;
    }
    var found := FindProduct(products, id.value);
    if found.None? {
      return UnknownId;
    }
    cart.AddProduct(found.value);
    return Added(found.value);
  }

  /**
   * A whole session on the store's catalog: add product 1 once and product 2
   * twice, confirm with "Y" and pay 150 for the 138 due; the order is number
   * 1, the change is 12, the history holds that one order and the cart is empty.
   */
  method CheckoutSession() returns (view: CartView, history: seq<seq<CartLine>>, left: seq<CartLine>)
    ensures view == CheckedOut(Paid(1, 138.0, Receipt(1, 150.0, 12.0)))
    ensures history == [[CartLine(Catalog[0], 1), CartLine(Catalog[1], 2)]]
    ensures left == []
  {
    var cart := new ShoppingCart();
    var book := new OrderBook();
    cart.AddProduct(Catalog[0]);
    cart.AddProduct(Catalog[1]);
    assert cart.lines == [CartLine(Catalog[0], 1), CartLine(Catalog[1], 1)];
    cart.AddProduct(Catalog[1]);
    assert IndexOfId([CartLine(Catalog[0], 1), CartLine(Catalog[1], 1)], 2) == Some(1);
    assert cart.lines == [CartLine(Catalog[0], 1), CartLine(Catalog[1], 2)];
    TwoLineCheckoutExample();
    assert IsValidChoice("Y") && IsConfirmation("Y");
    assert FirstAnswerAt(["Y"], 0);
    view := cart.ViewCart(["Y"], ["150"], book);
    assert view.CheckedOut?;
    assert TenderFor(["150"][0], 138.0).Accepted?;
    assert view.checkout.Paid?;
    assert view.checkout.payment == Receipt(1, 150.0, 12.0);
    history := book.history;
    left := cart.lines;
  }
}
