/**
 * The values the store works with: a catalog product, a line of a cart or an
 * order (a product with its quantity), the amount a list of lines costs, the
 * fixed catalog of the sari-sari store, and the lookup of a product by id.
 */
module Store {
  import opened Wrappers

  /** A product: id, display name and unit price (an exact amount of pesos). */
  datatype Product = Product(id: int, name: string, price: real)

  /** A (product, quantity) pair, as held in a cart and copied into an order. */
  datatype CartLine = CartLine(product: Product, quantity: int)

  /** What one line costs: unit price times quantity. */
  function Subtotal(line: CartLine): real {
    line.product.price * line.quantity as real
  }

  /**
   * The amount due for a list of lines: the subtotals added up from the first
   * line to the last, the order in which the checkout loop accumulates them.
   */
  function Total(lines: seq<CartLine>): real {
    if lines == [] then 0.0 else Total(lines[..|lines| - 1]) + Subtotal(lines[|lines| - 1])
  }

  /** The total of two lists put together is the sum of their totals. */
  lemma {:induction false} TotalAppend(a: seq<CartLine>, b: seq<CartLine>)
    ensures Total(a + b) == Total(a) + Total(b)
    decreases |b|
  {
    if b != [] {
      var b' := b[..|b| - 1];
      assert (a + b)[..|a + b| - 1] == a + b';
      TotalAppend(a, b');
    } else {
      assert a + b == a;
    }
  }

  /** A list of one line costs that line's subtotal. */
  lemma TotalSingle(line: CartLine)
    ensures Total([line]) == Subtotal(line)
  {
    assert [line][..0] == [];
  }

  /** Replacing one line changes the total by the difference of the two subtotals. */
  lemma TotalUpdate(lines: seq<CartLine>, k: nat, line: CartLine)
    requires k < |lines|
    ensures Total(lines[k := line]) == Total(lines) - Subtotal(lines[k]) + Subtotal(line)
  {
    assert lines == lines[..k] + [lines[k]] + lines[k + 1..];
    assert lines[k := line] == lines[..k] + [line] + lines[k + 1..];
    TotalAppend(lines[..k] + [lines[k]], lines[k + 1..]);
    TotalAppend(lines[..k], [lines[k]]);
    TotalAppend(lines[..k] + [line], lines[k + 1..]);
    TotalAppend(lines[..k], [line]);
    TotalSingle(lines[k]);
    TotalSingle(line);
  }

  /** Lines whose prices and quantities are never negative cost nothing negative. */
  lemma {:induction false} TotalNonNegative(lines: seq<CartLine>)
    requires forall k :: 0 <= k < |lines| ==> lines[k].product.price >= 0.0 && lines[k].quantity >= 0
    ensures Total(lines) >= 0.0
    decreases |lines|
  {
    if lines != [] {
      TotalNonNegative(lines[..|lines| - 1]);
    }
  }

  /** The products on sale, in menu order. */
  const Catalog: seq<Product> := [
    Product(1, "Kopiko Lucky Day", 24.0),
    Product(2, "Nescafé Black", 57.0),
    Product(3, "Minute Maid", 38.0),
    Product(4, "C2 Apple", 32.0),
    Product(5, "Pocari Sweat", 51.0)
  ]

  /** No two products of a list share an id. */
  predicate DistinctIds(products: seq<Product>) {
    forall i, j :: 0 <= i < j < |products| ==> products[i].id != products[j].id
  }

  /** The catalog's ids are 1 to 5, each once, and every price is a non-negative whole number. */
  lemma CatalogWellFormed()
    ensures DistinctIds(Catalog)
    ensures forall k :: 0 <= k < |Catalog| ==> Catalog[k].id == k + 1
    ensures forall k :: 0 <= k < |Catalog| ==> Catalog[k].price >= 0.0 && Catalog[k].price == Catalog[k].price.Floor as real
  {
  }

  /**
   * The menu's product lookup: scan the list in order and stop at the first
   * product whose id matches; no match means the id is unknown.
   */
  method FindProduct(products: seq<Product>, id: int) returns (found: Option<Product>)
    ensures found.Some? ==> found.value in products && found.value.id == id
    ensures found.Some? ==> exists k :: 0 <= k < |products| && products[k] == found.value
                                        && forall j :: 0 <= j < k ==> products[j].id != id
    ensures found.None? <==> forall k :: 0 <= k < |products| ==> products[k].id != id
  {
    found := None;
    var i := 0;
    while i < |products|
      invariant 0 <= i <= |products|
      invariant forall j :: 0 <= j < i ==> products[j].id != id
    {
      if products[i].id == id {
        found := Some(products[i]);
        return;
      }
      i := i + 1;
    }
  }

  /** Looking up an id in the store's catalog finds product `id` when 1 <= id <= 5, and nothing otherwise. */
  method FindInCatalog(id: int) returns (found: Option<Product>)
    ensures 1 <= id <= 5 ==> found == Some(Catalog[id - 1])
    ensures found.None? <==> !(1 <= id <= 5)
  {
    CatalogWellFormed();
    found := FindProduct(Catalog, id);
    if found.Some? {
      var k :| 0 <= k < |Catalog| && Catalog[k] == found.value && forall j :: 0 <= j < k ==> Catalog[j].id != id;
      assert k == id - 1;
    }
  }
}
