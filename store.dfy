/**
 The database as in-memory state, with the handlers that write to it. Each
 handler is one atomic step on the store; the next-id counters stand for
 SQLite's AUTOINCREMENT, whose new row id is what `lastrowid` reports.
 */
module PosStore {
  import opened Tables
  import opened Text
  import Catalog
  import CustomerRegistry
  import opened SaleProcessor

  /** Row ids of a table: increasing in insertion order, from 1, and all
      below the table's next id. */
  predicate IdsBelow(ids: seq<int>, next: int) {
    && (forall i :: 0 <= i < |ids| ==> 1 <= ids[i] < next)
    && (forall i, j :: 0 <= i < j < |ids| ==> ids[i] < ids[j])
  }

  /** Appending a row under the next id keeps the ids fresh and increasing. */
  lemma IdsBelowAppend(ids: seq<int>, next: int, extra: seq<int>)
    requires IdsBelow(ids, next) && 1 <= next
    requires forall k :: 0 <= k < |extra| ==> extra[k] == next + k
    ensures IdsBelow(ids + extra, next + |extra|)
  {
  }

  /** The row ids of a table, in insertion order. */
  function Ids<T>(rows: seq<T>, id: T -> int): (r: seq<int>)
    ensures |r| == |rows| && forall i :: 0 <= i < |rows| ==> r[i] == id(rows[i])
  {
    seq(|rows|, i requires 0 <= i < |rows| => id(rows[i]))
  }

  function CustomerId(c: Customer): int { c.id }
  function TransactionId(t: Transaction): int { t.id }
  function ItemId(t: TransactionItem): int { t.id }

  /** The line items of a sale take the next ids, so the ids stay fresh. */
  lemma ItemIdsAppend(items: seq<TransactionItem>, tid: int, first: int, products: map<int, Product>,
                      cart: seq<CartLine>)
    requires IdsBelow(Ids(items, ItemId), first) && 1 <= first && Known(products, cart)
    ensures IdsBelow(Ids(items + LineItems(tid, first, products, cart), ItemId), first + |cart|)
  {
    var extra := Ids(LineItems(tid, first, products, cart), ItemId);
    IdsBelowAppend(Ids(items, ItemId), first, extra);
    assert Ids(items + LineItems(tid, first, products, cart), ItemId) == Ids(items, ItemId) + extra;
  }

  /** The constraints on the customers table: fresh increasing ids, unique
      NRCs, and NRC and name stored trimmed and non-empty. */
  ghost predicate CustomerTableOk(rows: seq<Customer>, next: int) {
    && IdsBelow(Ids(rows, CustomerId), next)
    && CustomerRegistry.UniqueNrc(rows)
    && (forall i :: 0 <= i < |rows| ==>
          IsTrimmed(rows[i].nrc) && rows[i].nrc != [] && IsTrimmed(rows[i].name) && rows[i].name != [])
  }

  /** Inserting a customer under the next id with a new, trimmed NRC and a
      trimmed name keeps the table's constraints, and a later verification
      with the NRC as typed finds that customer. */
  lemma CustomerInsert(rows: seq<Customer>, next: int, c: Customer, nrc: string, name: string)
    requires CustomerTableOk(rows, next) && 1 <= next
    requires c.id == next && c.nrc == Trim(nrc) != [] && c.name == Trim(name) != []
    requires CustomerRegistry.FindByNrc(rows, c.nrc).None?
    ensures CustomerTableOk(rows + [c], next + 1)
    ensures CustomerRegistry.Verify(rows + [c], nrc) == Found(View(c))
  {
    TrimShape(nrc);
    TrimShape(name);
    CustomerRegistry.VerifyAfterInsert(rows, c, nrc);
    IdsBelowAppend(Ids(rows, CustomerId), next, [c.id]);
    assert Ids(rows + [c], CustomerId) == Ids(rows, CustomerId) + [c.id];
  }

  class Store {
    var products: map<int, Product>
    var customers: seq<Customer>
    var transactions: seq<Transaction>
    var lineItems: seq<TransactionItem>
    var nextProductId: int
    var nextCustomerId: int
    var nextTransactionId: int
    var nextItemId: int

    /** The table constraints the handlers keep: fresh increasing row ids,
        unique NRCs, and stored NRCs and names trimmed and non-empty. Stock
        is deliberately unconstrained: a sale may drive it below zero. */
    ghost predicate Valid()
      reads this
    {
      && 1 <= nextProductId
      && (forall id :: id in products ==> 1 <= id < nextProductId)
      && 1 <= nextCustomerId && CustomerTableOk(customers, nextCustomerId)
      && 1 <= nextTransactionId && IdsBelow(Ids(transactions, TransactionId), nextTransactionId)
      && 1 <= nextItemId && IdsBelow(Ids(lineItems, ItemId), nextItemId)
    }

    /** A freshly created database: four empty tables. */
    constructor ()
      ensures Valid()
      ensures products == map[] && customers == [] && transactions == [] && lineItems == []
      ensures nextProductId == 1 && nextCustomerId == 1 && nextTransactionId == 1 && nextItemId == 1
    {
      products, customers, transactions, lineItems := map[], [], [], [];
      nextProductId, nextCustomerId, nextTransactionId, nextItemId := 1, 1, 1, 1;
    }

    /** Start-up: the starter catalog is inserted only when the products
        table is empty. */
    method InitDb()
      requires Valid()
      modifies this`products, this`nextProductId
      ensures Valid()
      ensures (products, nextProductId) == Catalog.SeedIfEmpty(old(products), old(nextProductId))
    {
      if |products| == 0 {
        InsertProducts(Catalog.StarterCatalog);
        assert products == Catalog.Inserted(old(nextProductId), Catalog.StarterCatalog);
      }
    }

    /** `executemany` of the products INSERT: the rows are inserted one after
        another, each under the next product id. */
    method InsertProducts(rows: seq<Product>)
      requires Valid()
      modifies this`products, this`nextProductId
      ensures Valid()
      ensures products == old(products) + Catalog.Inserted(old(nextProductId), rows)
      ensures nextProductId == old(nextProductId) + |rows|
    {
      ghost var first := nextProductId;
      var i := 0;
      while i < |rows|
        invariant 0 <= i <= |rows|
        invariant products == old(products) + Catalog.Inserted(first, rows[..i])
        invariant nextProductId == first + i
      {
        assert rows[..i + 1][..i] == rows[..i];
        products := products[nextProductId := rows[i]];
        nextProductId := nextProductId + 1;
        i := i + 1;
      }
      assert rows[..i] == rows;
    }

    /** Registration: the four fields are trimmed; a blank NRC or name is
        refused, an NRC already on file is refused by the UNIQUE constraint,
        and otherwise one verified customer is appended under a fresh id.
        A refused registration changes nothing. */
    method RegisterCustomer(nrc: string, name: string, phone: string, address: string)
      returns (r: RegisterOutcome)
      requires Valid()
      modifies this
      ensures Valid()
      ensures r == RegisterFailed(NrcAndNameRequired) <==> Trim(nrc) == [] || Trim(name) == []
      ensures r == RegisterFailed(NrcAlreadyExists) <==>
                Trim(nrc) != [] && Trim(name) != [] && CustomerRegistry.Verify(old(customers), nrc).Found?
      ensures r.Registered? <==>
                Trim(nrc) != [] && Trim(name) != [] && !CustomerRegistry.Verify(old(customers), nrc).Found?
      ensures r.RegisterFailed? ==> unchanged(this)
      ensures r.Registered? ==>
                var c := Customer(old(nextCustomerId), Trim(nrc), Trim(name), Trim(phone), Trim(address), 1);
                && r.customer == View(c)
                && customers == old(customers) + [c]
                && nextCustomerId == old(nextCustomerId) + 1
                && products == old(products) && transactions == old(transactions) && lineItems == old(lineItems)
                && nextProductId == old(nextProductId) && nextTransactionId == old(nextTransactionId)
                && nextItemId == old(nextItemId)
      ensures r.Registered? ==> CustomerRegistry.Verify(customers, nrc) == Found(r.customer)
    {
      var n, nm, ph, addr := Trim(nrc), Trim(name), Trim(phone), Trim(address);
      if n == [] || nm == [] {
        return RegisterFailed(NrcAndNameRequired);
      }
      if CustomerRegistry.FindByNrc(customers, n).Some? {
        assert CustomerRegistry.Verify(customers, nrc).Found?;
        return RegisterFailed(NrcAlreadyExists);
      }
      assert !CustomerRegistry.Verify(customers, nrc).Found?;
      var c := Customer(nextCustomerId, n, nm, ph, addr, 1);
      CustomerInsert(customers, nextCustomerId, c, nrc, name);
      customers := customers + [c];
      nextCustomerId := nextCustomerId + 1;
      r := Registered(View(c));
    }

    /** The validation pass of sale processing, which only reads: the lines
        are checked in cart order against the stored products, summing price
        times quantity, and the first line whose product is missing or whose
        stored stock is below its quantity stops the pass. */
    method ValidateCart(cart: seq<CartLine>) returns (v: Validation)
      ensures v.Passed? <==> AllLinesOk(products, cart)
      ensures v.Passed? ==> Known(products, cart) && v.total == CartTotal(products, cart)
      ensures v.Rejected? ==>
                var k := FirstRejected(products, cart);
                k < |cart| && v.what == RejectedLabel(products, cart[k])
    {
      var total := 0;
      var i := 0;
      while i < |cart|
        invariant 0 <= i <= |cart|
        invariant forall j :: 0 <= j < i ==> LineOk(products, cart[j])
        invariant total == CartTotal(products, cart[..i])
      {
        var line := cart[i];
        if line.productId in products && products[line.productId].stock >= line.quantity {
          total := total + products[line.productId].price * line.quantity;
        } else {
          return Rejected(if line.productId in products then products[line.productId].name else "product");
        }
        assert cart[..i + 1][..i] == cart[..i];
        i := i + 1;
      }
      assert cart[..i] == cart;
      v := Passed(total);
    }

    /** The writing pass of sale processing: one transaction row, then for
        each line one line item carrying the product's price and one stock
        update lowering the product's stock by the line's quantity. */
    method RecordSale(customerId: Option<int>, cart: seq<CartLine>, total: int) returns (tid: int)
      requires Valid() && Known(products, cart)
      modifies this
      ensures Valid()
      ensures tid == old(nextTransactionId)
      ensures transactions == old(transactions) + [Transaction(tid, customerId, total)]
      ensures lineItems == old(lineItems) + LineItems(tid, old(nextItemId), old(products), cart)
      ensures products == Deduct(old(products), cart)
      ensures customers == old(customers)
      ensures nextTransactionId == old(nextTransactionId) + 1 && nextItemId == old(nextItemId) + |cart|
      ensures nextProductId == old(nextProductId) && nextCustomerId == old(nextCustomerId)
    {
      tid := nextTransactionId;
      IdsBelowAppend(Ids(transactions, TransactionId), nextTransactionId, [tid]);
      assert Ids(transactions + [Transaction(tid, customerId, total)], TransactionId) == Ids(transactions, TransactionId) + [tid];
      transactions := transactions + [Transaction(tid, customerId, total)];
      nextTransactionId := nextTransactionId + 1;

      ghost var p0 := products;
      ghost var items0 := lineItems;
      ghost var first := nextItemId;
      var i := 0;
      while i < |cart|
        invariant 0 <= i <= |cart|
        invariant products == Deduct(p0, cart[..i])
        invariant lineItems == items0 + LineItems(tid, first, p0, cart[..i])
        invariant nextItemId == first + i
        invariant transactions == old(transactions) + [Transaction(tid, customerId, total)]
        invariant customers == old(customers) && nextTransactionId == tid + 1
        invariant nextProductId == old(nextProductId) && nextCustomerId == old(nextCustomerId)
      {
        var line := cart[i];
        DeductStock(p0, cart[..i]);
        var product := products[line.productId];
        lineItems := lineItems + [TransactionItem(nextItemId, tid, line.productId, line.quantity, product.price)];
        nextItemId := nextItemId + 1;
        products := products[line.productId := product.(stock := product.stock - line.quantity)];
        assert cart[..i + 1][..i] == cart[..i];
        i := i + 1;
      }
      assert cart[..i] == cart;
      DeductStock(p0, cart);
      ItemIdsAppend(items0, tid, first, p0, cart);
    }

    /** Sale processing: an empty cart is refused; then the validation pass
        runs, and only when every line passes does the writing pass run. A
        refused sale writes nothing. */
    method ProcessSale(customerId: Option<int>, cart: seq<CartLine>) returns (r: SaleOutcome)
      requires Valid()
      modifies this
      ensures Valid()
      ensures cart == [] ==> r == SaleRejected(NoItemsInCart)
      ensures r.Sold? <==> cart != [] && AllLinesOk(old(products), cart)
      ensures cart != [] && !AllLinesOk(old(products), cart) ==>
                var k := FirstRejected(old(products), cart);
                k < |cart| && r == SaleRejected(InsufficientStock(RejectedLabel(old(products), cart[k])))
      ensures r.SaleRejected? ==> unchanged(this)
      ensures r.Sold? ==>
                && Known(old(products), cart)
                && r.transactionId == old(nextTransactionId)
                && r.total == CartTotal(old(products), cart)
                && transactions == old(transactions) + [Transaction(r.transactionId, customerId, r.total)]
                && lineItems == old(lineItems) + LineItems(r.transactionId, old(nextItemId), old(products), cart)
                && products == Deduct(old(products), cart)
                && customers == old(customers)
                && nextTransactionId == old(nextTransactionId) + 1
                && nextItemId == old(nextItemId) + |cart|
                && nextProductId == old(nextProductId) && nextCustomerId == old(nextCustomerId)
      ensures r.Sold? ==> forall t :: t in old(transactions) ==> t.id < r.transactionId
    {
      if cart == [] {
        return SaleRejected(NoItemsInCart);
      }
      var v := ValidateCart(cart);
      if v.Rejected? {
        return SaleRejected(InsufficientStock(v.what));
      }
      assert forall t :: t in transactions ==> t.id < nextTransactionId by {
        forall t | t in transactions ensures t.id < nextTransactionId {
          var k :| 0 <= k < |transactions| && transactions[k] == t;
          assert Ids(transactions, TransactionId)[k] == t.id;
        }
      }
      var tid := RecordSale(customerId, cart, v.total);
      r := Sold(tid, v.total);
    }
  }
}
