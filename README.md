# Sari-sari store checkout, modelled in Dafny

This project models a console ordering program for a small store. The customer browses a fixed catalog of five drinks and adds products to a shopping cart by id. Viewing the cart offers a checkout. Checking out numbers the order, totals it and takes a cash payment until the amount is enough. The change is reported, and a copy of the order goes into a process-wide order history that can be listed again.

The model covers the four input validators, the products and the catalog lookup, the cart, the order history with its order counter, and the payment rule. Prices and amounts are exact `real` numbers, not doubles.

Modules:

- `Wrappers` holds `Option`.
- `Validators` holds the pure validators:
  - `stoi` and `isValidInteger`, with the C-locale blank skipping, the optional sign, the digit run and the 32-bit range check;
  - `isValidMenuNumber`;
  - `isValidPayment`, a hand-written recogniser for `^-?\d*\.?\d+$` proved equal to the pattern's meaning;
  - `isValidChoice`.
- `Store` holds `Product`, the cart/order line, the total of a list of lines, the catalog and the lookup loop by id.
- `Payments` holds the decision taken on one typed amount, and the payment loop over the typed lines.
- `Orders` holds the class `OrderBook`. It is the process-wide history and the order counter, with `processOrder` and `viewOrders`, and one total-accumulating loop that both share.
- `Cart` holds the class `ShoppingCart` (`addProduct`, `clearCart`, `viewCart`), the function `AddedTo` that specifies `addProduct`, and lemmas about it. It also holds the "add a product by typed id" step of the menu.

Console input is modelled as a finite sequence of the lines the user types. Each prompt loop reads the lines in order and stops at the first line it accepts. If no line is accepted, the program is still waiting at that prompt. The model reports this as an explicit outcome (`AwaitingAnswer`, `AwaitingPayment`, `None`).

In these places the code does something other than the obvious reading of its intent, and the model follows the code:

- Menu numbers: the code refuses only the space character. It does not refuse all whitespace. `stoi` skips leading blanks, so a tab before the number is accepted (`MenuNumberAcceptsLeadingTab`).
- Integer parsing: `stoi` also accepts leading blanks and a leading `+`.
- `viewCart` reaches `clearCart` only after `processOrder` returns. That happens only once the payment is settled, so in the model the cart is emptied only on a paid checkout.
- The order counter is taken and incremented before the payment prompt. An order still waiting for payment has used its number but is not in the history. So the counter is at least one more than the history length, not exactly one more.

## Model

| member | source | states |
|---|---|---|
| `Validators.Stoi` | Sahagun-class-diagram-implementation.cpp:15 | on success at least one character was consumed, the last consumed character is a digit and the next one is not, and the value fits in a 32-bit int; text without any digit is `invalid_argument` |
| `Validators.IsValidInteger` | Sahagun-class-diagram-implementation.cpp:12-23 | an accepted string ends in a digit, holds only blanks, signs and digits, and its value fits in a 32-bit int |
| `Validators.IntegerTextAccepted` | Sahagun-class-diagram-implementation.cpp:12-23 | every string made of blanks, an optional sign and digits is accepted exactly when its value is within the int range, and the result is that value |
| `Validators.AcceptedIsIntegerText` | Sahagun-class-diagram-implementation.cpp:12-23 | every accepted string is blanks, an optional sign and digits, and the result is its value (the converse of IntegerTextAccepted) |
| `Validators.IntegerNeedsDigit` | Sahagun-class-diagram-implementation.cpp:19-21 | text with no digit is refused (the caught `invalid_argument`), the empty string included |
| `Validators.TrailingCharacterRejected` | Sahagun-class-diagram-implementation.cpp:16-22 | appending any non-digit character to an accepted integer makes the parse partial, so it is refused |
| `Validators.IntTextRoundTrip` | Sahagun-class-diagram-implementation.cpp:12-23 | parsing the decimal text of any int gives that int back |
| `Validators.LeadingBlankAccepted` | Sahagun-class-diagram-implementation.cpp:15 | a blank before the number is skipped and the number is still accepted |
| `Validators.IntegerOverflowRejected` | Sahagun-class-diagram-implementation.cpp:19-21 | the digits of any number above 2147483647 are refused (the caught `out_of_range`) |
| `Validators.IntegerExamples` | Sahagun-class-diagram-implementation.cpp:12-23 | "42" gives 42, "-7" gives -7, " 5" gives 5, and "5 " is refused |
| `Validators.IntegerRejectionExamples` | Sahagun-class-diagram-implementation.cpp:12-23 | "", "abc" and "12abc" are refused |
| `Validators.IsValidMenuNumber` | Sahagun-class-diagram-implementation.cpp:26-32 | any input containing ' ' is refused whatever its digits; otherwise the result is exactly the whole-string integer when it lies in [min, max], and nothing else |
| `Validators.MenuNumberAcceptsLeadingTab` | Sahagun-class-diagram-implementation.cpp:27-28 | only ' ' is refused: a tab before an in-range number is accepted |
| `Validators.IsValidPayment` | Sahagun-class-diagram-implementation.cpp:35-38 | every accepted amount is non-empty and ends in a digit |
| `Validators.PaymentRecogniserCorrect` | Sahagun-class-diagram-implementation.cpp:36-37 | the recogniser accepts a string if and only if it splits as optional '-', digits, optional '.', one or more digits: the meaning of `^-?\d*\.?\d+$` |
| `Validators.PaymentAcceptedExamples` | Sahagun-class-diagram-implementation.cpp:35-38 | "12", "12.5", "-3.0" and ".5" are accepted |
| `Validators.PaymentRefusedExamples` | Sahagun-class-diagram-implementation.cpp:35-38 | "", "-", ".", "12.", "12.5.3", "abc" and "+5" are refused |
| `Validators.DecimalPayment` | Sahagun-class-diagram-implementation.cpp:74 | digits, '.', digits is an accepted amount worth the whole part plus the fraction |
| `Validators.PaymentWholeRoundTrip` | Sahagun-class-diagram-implementation.cpp:74 | the decimal text of a whole number, with or without '-', is accepted and read back as that number |
| `Validators.PaymentCentsRoundTrip` | Sahagun-class-diagram-implementation.cpp:74 | "n.cc" is accepted and read as n + cc/100 |
| `Validators.PaymentValue` | Sahagun-class-diagram-implementation.cpp:74 | the amount read from an accepted string (stod, taken exactly) is never positive when it starts with '-' and never negative otherwise |
| `Validators.PaymentValueOfSplit` | Sahagun-class-diagram-implementation.cpp:74 | for every way a string matches `^-?\d*\.?\d+$`, its amount is the value of its digits when there is no '.', or the whole digits plus the fraction after the '.', negated exactly when it starts with '-' |
| `Validators.NegativeDecimalPayment` | Sahagun-class-diagram-implementation.cpp:74 | '-', digits, '.', digits is an accepted amount worth minus the whole part plus the fraction |
| `Validators.NegativeWholeWithFraction` | Sahagun-class-diagram-implementation.cpp:74 | "-3.0" is accepted and read as -3 |
| `Validators.NegativeDecimalExample` | Sahagun-class-diagram-implementation.cpp:74 | "-12.5" is accepted and read as -12.5 |
| `Validators.UnsignedPaymentNonNegative` | Sahagun-class-diagram-implementation.cpp:74 | an accepted amount without a leading '-' is never negative |
| `Validators.IsValidChoice` | Sahagun-class-diagram-implementation.cpp:41-43 | accepted if and only if the input is one character among y, Y, n, N |
| `Validators.IsConfirmation` | Sahagun-class-diagram-implementation.cpp:218 | the checkout is confirmed exactly by the one-character answers "y" and "Y", each of them a valid y/n answer |
| `Validators.ChoiceExamples` | Sahagun-class-diagram-implementation.cpp:41-43 | "y" and "N" are accepted; "yes", "Yes", "" and " y" are refused |
| `Store.TotalAppend` | Sahagun-class-diagram-implementation.cpp:110-117 | the total of two lists put together is the sum of their totals |
| `Store.TotalSingle` | Sahagun-class-diagram-implementation.cpp:116 | one line costs price times quantity |
| `Store.TotalUpdate` | Sahagun-class-diagram-implementation.cpp:110-117 | replacing one line changes the total by exactly the difference of the two lines' subtotals |
| `Store.TotalNonNegative` | Sahagun-class-diagram-implementation.cpp:110-117 | lines with non-negative prices and quantities have a non-negative total |
| `Store.CatalogWellFormed` | Sahagun-class-diagram-implementation.cpp:248-254 | the store's `Catalog` constant, the five drinks listed there, has ids 1 to 5 in order, all distinct, and every price is a non-negative whole number |
| `Store.FindProduct` | Sahagun-class-diagram-implementation.cpp:288-293 | the lookup returns the first product in list order with the requested id, and returns nothing exactly when no product has that id |
| `Store.FindInCatalog` | Sahagun-class-diagram-implementation.cpp:288-293 | in the store's catalog, ids 1 to 5 find product number id, and every other id finds nothing |
| `Payments.TenderFor` | Sahagun-class-diagram-implementation.cpp:69-80 | a typed line is malformed exactly when it fails the payment pattern, and accepted exactly when it is well-formed and at least the amount due; the change of an accepted line is paid minus due, never negative; an insufficient amount is below what is due |
| `Payments.ProcessPayment` | Sahagun-class-diagram-implementation.cpp:61-85 | the payment is settled by the first accepted line, after refusing every earlier one, with change = paid - due >= 0; it stays unsettled exactly when no typed line is accepted |
| `Payments.ZeroDueAcceptsNonNegative` | Sahagun-class-diagram-implementation.cpp:77-80 | with nothing due, any well-formed non-negative amount is accepted and all of it is change |
| `Payments.FiftyDueExamples` | Sahagun-class-diagram-implementation.cpp:77-84 | with 50 due: 40 is insufficient, 50 is accepted with 0 change, 60 with 10 change, and "fifty" is malformed |
| `Orders.ComputeTotal` | Sahagun-class-diagram-implementation.cpp:102-117 | the accumulating loop yields the total: sum of price times quantity over the lines |
| `Orders.OrderBook.constructor` | Sahagun-class-diagram-implementation.cpp:101 | the program starts with an empty history and the first order numbered 1 |
| `Orders.OrderBook.ProcessOrder` | Sahagun-class-diagram-implementation.cpp:95-126 | no lines: no effect on the history or the counter, and no payment. Otherwise: the order gets the old counter value and the counter rises by exactly 1; the total is the sum over the lines. Once paid, exactly one entry, equal to the lines, is appended after the unchanged earlier entries, and the payment was settled by the first sufficient tender. While payment is pending, the history is unchanged. The history invariant is kept |
| `Orders.OrderBook.ViewOrders` | Sahagun-class-diagram-implementation.cpp:129-156 | one summary per past order, in insertion order, numbered from 1, each with its stored lines and their recomputed total; empty history gives an empty listing |
| `Orders.TwoLineCheckoutExample` | Sahagun-class-diagram-implementation.cpp:110-122 | one Kopiko (24) and two Nescafé (57) total 138; tendering 150 is accepted with change 12 |
| `Cart.IndexOfId` | Sahagun-class-diagram-implementation.cpp:172-173 | the position found is the first line with the id; nothing is found exactly when no line has it |
| `Cart.AddKeepsWellFormed` | Sahagun-class-diagram-implementation.cpp:170-182 | adding keeps the cart's product ids pairwise distinct and every quantity at least 1 |
| `Cart.AddShape` | Sahagun-class-diagram-implementation.cpp:170-182 | adding grows the cart by one line exactly when the id is new; every existing line keeps its product and position, and lines with other ids are unchanged |
| `Cart.AddCountsOneUnit` | Sahagun-class-diagram-implementation.cpp:170-182 | after adding p, the cart holds exactly one more unit of p's id and the same count of every other id |
| `Cart.SubtotalBumped` | Sahagun-class-diagram-implementation.cpp:174 | one more unit of a line costs exactly one more unit price |
| `Cart.AddRaisesTotalByPrice` | Sahagun-class-diagram-implementation.cpp:170-182 | adding p raises the cart total by exactly p's price, when the line already holding p's id (kept as it was) has p's price |
| `Cart.AddTwiceMakesOneLine` | Sahagun-class-diagram-implementation.cpp:170-182 | adding a new product twice gives one line with quantity 2 at the end, never two lines |
| `Cart.ReadChoice` | Sahagun-class-diagram-implementation.cpp:207-215 | the checkout prompt stops at the first valid y/n answer, and waits exactly when no typed line is a valid answer |
| `Cart.ShoppingCart.constructor` | Sahagun-class-diagram-implementation.cpp:256 | a new cart is empty |
| `Cart.ShoppingCart.AddProduct` | Sahagun-class-diagram-implementation.cpp:170-182 | the new cart is `AddedTo(old cart, p)`: the matching line is bumped by one, or (p, 1) is appended. The distinct-ids invariant is kept |
| `Cart.ShoppingCart.ClearCart` | Sahagun-class-diagram-implementation.cpp:225-227 | the cart is empty afterwards |
| `Cart.ShoppingCart.ViewCart` | Sahagun-class-diagram-implementation.cpp:185-222 | An empty cart changes nothing. Otherwise a first valid "Y"/"y" checks out the old lines under the next order number for their total. Once paid, the cart is empty and the history grew by exactly that order. A first valid "N"/"n", or no valid answer yet, leaves cart, history and counter unchanged |
| `Cart.SelectProduct` | Sahagun-class-diagram-implementation.cpp:287-297 | non-integer text and unknown ids leave the cart unchanged; a known id adds the first product in list order with that id, as `AddedTo` says |
| `Cart.CheckoutSession` | Sahagun-class-diagram-implementation.cpp:287-320 | add product 1, then product 2 twice, confirm with "Y" and pay "150": order 1 is paid with 12 change, the history holds exactly that order, and the cart is empty |

## Left out

- Console output: all messages, the `setw` tables and `displayProducts`. They are display only.
- The `main` menu loop: the dispatch on options 1 to 4 and the exit on "4". The decision on one typed menu line is `IsValidMenuNumber`. The decision on one typed product id is `SelectProduct`.
- Unbounded re-prompting: input is a finite sequence of typed lines. Running out of lines before one is accepted is reported as "still waiting". End of input, where `getline` returns an empty line forever, is not modelled separately.
- Floating point: `stod`, `price * qty`, the running total and the change are exact reals. Doubles would round. `stod` on an amount too large or too small for a double throws an uncaught `out_of_range`, which ends the program. The model reads every well-formed amount exactly.
- The uninitialised `paidAmount` read when the first typed amount is malformed. This is undefined behaviour. The model keeps prompting on malformed lines, which is the evident intent.
- Cart quantities are unbounded integers. The model does not capture the 32-bit overflow of `item.second++` after 2147483647 additions.
- The `int&` output parameter of `isValidInteger` and `isValidMenuNumber` is written even when they return false. No caller reads it then, so the model returns an `Option` instead.
- `Orders.OrderBook.ProcessOrder`: the receipt printing between taking the order number and the payment is not modelled.
