/**
 Specification of sale processing on the products table: which carts pass
 the stock check, the total they are charged, the line items recorded and
 the stock left afterwards. The handler itself, which writes the tables in
 place, is `PosStore.Store.ProcessSale`.
 */
module SaleProcessor {
  import opened Tables
  import Catalog

  /** A cart line passes validation when its product exists and the stored
      stock is at least the requested quantity. */
  predicate LineOk(products: map<int, Product>, line: CartLine) {
    line.productId in products && products[line.productId].stock >= line.quantity
  }

  predicate AllLinesOk(products: map<int, Product>, cart: seq<CartLine>) {
    forall i :: 0 <= i < |cart| ==> LineOk(products, cart[i])
  }

  /** Every line names an existing product. */
  predicate Known(products: map<int, Product>, cart: seq<CartLine>) {
    forall i :: 0 <= i < |cart| ==> cart[i].productId in products
  }

  /** No two lines name the same product. */
  predicate DistinctProducts(cart: seq<CartLine>) {
    forall i, j :: 0 <= i < j < |cart| ==> cart[i].productId != cart[j].productId
  }

  /** The index of the line at which validation stops: every earlier line
      passes, and the line there (if any) fails. `|cart|` when all pass. */
  function FirstRejected(products: map<int, Product>, cart: seq<CartLine>): (k: nat)
    ensures k <= |cart|
    ensures forall j :: 0 <= j < k ==> LineOk(products, cart[j])
    ensures k < |cart| ==> !LineOk(products, cart[k])
    ensures k == |cart| <==> AllLinesOk(products, cart)
  {
    if cart == [] then 0
    else if !LineOk(products, cart[0]) then 0
    else
      var k := 1 + FirstRejected(products, cart[1..]);
      assert forall j :: 1 <= j < |cart| ==> cart[j] == cart[1..][j - 1];
      k
  }

  /** The result of the validation pass: the cart total, or what the
      rejection message names. */
  datatype Validation = Passed(total: int) | Rejected(what: string)

  /** What the rejection message names for a failing line. */
  function RejectedLabel(products: map<int, Product>, line: CartLine): string {
    if line.productId in products then products[line.productId].name else "product"
  }

  /** The charge for a cart: the sum over its lines of the product's price
      times the line's quantity. */
  function CartTotal(products: map<int, Product>, cart: seq<CartLine>): int
    requires Known(products, cart)
  {
    if cart == [] then 0
    else
      var line := cart[|cart| - 1];
      CartTotal(products, cart[..|cart| - 1]) + products[line.productId].price * line.quantity
  }

  /** The sum of the quantities of the lines naming product `id`. */
  function QuantityFor(cart: seq<CartLine>, id: int): int {
    if cart == [] then 0
    else
      var line := cart[|cart| - 1];
      QuantityFor(cart[..|cart| - 1], id) + (if line.productId == id then line.quantity else 0)
  }

  /** `UPDATE products SET stock = stock - quantity WHERE id = productId`. */
  function DeductLine(products: map<int, Product>, line: CartLine): map<int, Product> {
    if line.productId in products then
      var p := products[line.productId];
      products[line.productId := p.(stock := p.stock - line.quantity)]
    else products
  }

  /** The products table after the stock updates of every cart line, applied
      in cart order. */
  function Deduct(products: map<int, Product>, cart: seq<CartLine>): map<int, Product> {
    if cart == [] then products
    else DeductLine(Deduct(products, cart[..|cart| - 1]), cart[|cart| - 1])
  }

  /** The transaction_items rows written for `cart` under transaction `tid`,
      with row ids from `firstId` on and each product's price. */
  function LineItems(tid: int, firstId: int, products: map<int, Product>, cart: seq<CartLine>)
    : (r: seq<TransactionItem>)
    requires Known(products, cart)
    ensures |r| == |cart|
  {
    seq(|cart|, k requires 0 <= k < |cart| =>
      TransactionItem(firstId + k, tid, cart[k].productId, cart[k].quantity, products[cart[k].productId].price))
  }

  /** The sum of price times quantity over recorded line items. */
  function ItemsTotal(items: seq<TransactionItem>): int {
    if items == [] then 0
    else ItemsTotal(items[..|items| - 1]) + items[|items| - 1].price * items[|items| - 1].quantity
  }

  /** The stock updates change only stock, keep every product, and leave each
      product's stock lowered by the total quantity the cart asks of it. */
  lemma {:induction false} DeductStock(products: map<int, Product>, cart: seq<CartLine>)
    ensures Deduct(products, cart).Keys == products.Keys
    ensures forall id :: id in products ==>
              Deduct(products, cart)[id] == products[id].(stock := products[id].stock - QuantityFor(cart, id))
  {
    if cart != [] {
      DeductStock(products, cart[..|cart| - 1]);
    }
  }

  /** A product no line names keeps its stock. */
  lemma {:induction false} QuantityForAbsent(cart: seq<CartLine>, id: int)
    requires forall i :: 0 <= i < |cart| ==> cart[i].productId != id
    ensures QuantityFor(cart, id) == 0
  {
    if cart != [] {
      QuantityForAbsent(cart[..|cart| - 1], id);
    }
  }

  /** In a cart with distinct products, the quantity asked of the product of
      line `k` is that line's quantity. */
  lemma {:induction false} QuantityForDistinct(cart: seq<CartLine>, k: nat)
    requires DistinctProducts(cart) && k < |cart|
    ensures QuantityFor(cart, cart[k].productId) == cart[k].quantity
  {
    var n := |cart| - 1;
    if k == n {
      QuantityForAbsent(cart[..n], cart[k].productId);
    } else {
      QuantityForDistinct(cart[..n], k);
    }
  }

  /** The recorded transaction total equals the sum of its line items' price
      times quantity. */
  lemma {:induction false} TotalMatchesItems(tid: int, firstId: int, products: map<int, Product>,
                                             cart: seq<CartLine>)
    requires Known(products, cart)
    ensures ItemsTotal(LineItems(tid, firstId, products, cart)) == CartTotal(products, cart)
  {
    if cart != [] {
      var n := |cart| - 1;
      var items := LineItems(tid, firstId, products, cart);
      assert items[..n] == LineItems(tid, firstId, products, cart[..n]);
      TotalMatchesItems(tid, firstId, products, cart[..n]);
    }
  }

  /** The total of a cart is the total of its first part plus that of the
      rest: the charge does not depend on where the cart is split. */
  lemma {:induction false} CartTotalAppend(products: map<int, Product>, a: seq<CartLine>, b: seq<CartLine>)
    requires Known(products, a) && Known(products, b)
    ensures Known(products, a + b)
    ensures CartTotal(products, a + b) == CartTotal(products, a) + CartTotal(products, b)
  {
    if b != [] {
      var n := |b| - 1;
      assert (a + b)[..|a + b| - 1] == a + b[..n];
      CartTotalAppend(products, a, b[..n]);
    } else {
      assert a + b == a;
    }
  }

  /** When the cart names each product at most once, a cart that passes
      validation keeps every product and leaves no stock negative that was
      not negative before, whatever the other products' stocks are. */
  lemma StockStaysNonNegative(products: map<int, Product>, cart: seq<CartLine>)
    requires AllLinesOk(products, cart) && DistinctProducts(cart)
    ensures Deduct(products, cart).Keys == products.Keys
    ensures forall id :: id in products && products[id].stock >= 0 ==> Deduct(products, cart)[id].stock >= 0
  {
    DeductStock(products, cart);
    forall id | id in products && products[id].stock >= 0
      ensures products[id].stock - QuantityFor(cart, id) >= 0
    {
      if k :| 0 <= k < |cart| && cart[k].productId == id {
        QuantityForDistinct(cart, k);
      } else {
        QuantityForAbsent(cart, id);
      }
    }
  }

  /** Without distinct products the guarantee fails: two lines of 60 for a
      product with 100 in stock both pass validation against the stored
      stock, and the sale leaves the stock at -20. */
  lemma OversellWithRepeatedLine()
    ensures var products := map[1 := Product("Rice (5kg)", 15000, 100, "Groceries")];
            var cart := [CartLine(1, 60), CartLine(1, 60)];
            && AllLinesOk(products, cart)
            && 1 in Deduct(products, cart)
            && Deduct(products, cart)[1].stock == -20
  {
    var products := map[1 := Product("Rice (5kg)", 15000, 100, "Groceries")];
    var cart := [CartLine(1, 60), CartLine(1, 60)];
    assert cart[..1] == [CartLine(1, 60)];
    assert cart[..1][..0] == [];
    DeductStock(products, cart);
  }

  /** With non-negative quantities a sale never raises a stock, so it never
      puts a product back on the sales screen; products the cart does not
      name keep their stock and their place on it. */
  lemma SaleShrinksAvailable(products: map<int, Product>, cart: seq<CartLine>)
    requires forall i :: 0 <= i < |cart| ==> cart[i].quantity >= 0
    ensures Catalog.Available(Deduct(products, cart)).Keys <= Catalog.Available(products).Keys
    ensures forall id :: id in products && (forall i :: 0 <= i < |cart| ==> cart[i].productId != id) ==>
              (id in Catalog.Available(Deduct(products, cart)) <==> id in Catalog.Available(products))
  {
    DeductStock(products, cart);
    forall id | id in products ensures QuantityFor(cart, id) >= 0 {
      QuantityForNonNegative(cart, id);
    }
    forall id | id in products && (forall i :: 0 <= i < |cart| ==> cart[i].productId != id)
      ensures QuantityFor(cart, id) == 0
    {
      QuantityForAbsent(cart, id);
    }
  }

  lemma {:induction false} QuantityForNonNegative(cart: seq<CartLine>, id: int)
    requires forall i :: 0 <= i < |cart| ==> cart[i].quantity >= 0
    ensures QuantityFor(cart, id) >= 0
  {
    if cart != [] {
      QuantityForNonNegative(cart[..|cart| - 1], id);
    }
  }
}
