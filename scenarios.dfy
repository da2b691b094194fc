/**
 The handlers called on concrete data, with the outcomes proved: a fresh
 database seeded with the starter catalog, in which "Rice (5kg)" gets
 product id 1 at 15000 with 100 in stock.
 */
module Scenarios {
  import opened Tables
  import Text
  import Catalog
  import CustomerRegistry
  import PosStore
  import SaleProcessor

  /** Selling 3 bags of rice charges 45000, records transaction 1 with one
      line item, and leaves 97 in stock; asking for 101 afterwards is refused
      with the product named, and the stock stays at 97. */
  method RiceSale() returns (first: SaleOutcome, second: SaleOutcome, stock: int, rows: nat, items: nat)
    ensures first == Sold(1, 45000)
    ensures second == SaleRejected(InsufficientStock("Rice (5kg)"))
    ensures stock == 97 && rows == 1 && items == 1
  {
    var db := new PosStore.Store();
    db.InitDb();
    assert db.products[1] == Catalog.StarterCatalog[0];
    first := db.ProcessSale(None, [CartLine(1, 3)]);
    assert [CartLine(1, 3)][..0] == [];
    second := db.ProcessSale(None, [CartLine(1, 101)]);
    stock, rows, items := db.products[1].stock, |db.transactions|, |db.lineItems|;
  }

  /** A cart naming the rice twice, 60 each, passes validation line by line
      against the stored 100 and leaves the stock at -20. */
  method RepeatedLineOversells() returns (r: SaleOutcome, stock: int)
    ensures r == Sold(1, 1800000)
    ensures stock == -20
  {
    var db := new PosStore.Store();
    db.InitDb();
    assert db.products[1] == Catalog.StarterCatalog[0];
    var cart := [CartLine(1, 60), CartLine(1, 60)];
    assert cart[..1] == [CartLine(1, 60)] && cart[..1][..0] == [];
    ghost var seeded := db.products;
    assert SaleProcessor.AllLinesOk(seeded, cart);
    assert SaleProcessor.CartTotal(seeded, cart[..1]) == 900000;
    assert SaleProcessor.CartTotal(seeded, cart) == 1800000;
    assert SaleProcessor.QuantityFor(cart, 1) == 120;
    r := db.ProcessSale(Some(7), cart);
    SaleProcessor.DeductStock(seeded, cart);
    stock := db.products[1].stock;
  }

  /** An unknown NRC is reported not verified; registering it with stray
      spaces succeeds with the trimmed fields, and verifying it then finds
      the new customer. */
  method RegisterThenVerify() returns (before: VerifyOutcome, reg: RegisterOutcome, after: VerifyOutcome)
    ensures before == NotFound
    ensures reg == Registered(CustomerView(1, "Mary Banda", "123456/10/1", ""))
    ensures after == Found(CustomerView(1, "Mary Banda", "123456/10/1", ""))
  {
    var db := new PosStore.Store();
    before := CustomerRegistry.Verify(db.customers, "123456/10/1");
    assert Text.Trim(" 123456/10/1 ") == "123456/10/1";
    assert Text.Trim("Mary Banda ") == "Mary Banda";
    reg := db.RegisterCustomer(" 123456/10/1 ", "Mary Banda ", "", "Lusaka");
    after := CustomerRegistry.Verify(db.customers, "123456/10/1");
  }

  /** Registering an NRC a second time, under another name, is refused as a
      duplicate and leaves one customer on file. */
  method RegisterTwice() returns (again: RegisterOutcome, rows: nat)
    ensures again == RegisterFailed(NrcAlreadyExists)
    ensures rows == 1
  {
    var db := new PosStore.Store();
    Text.TrimTrimmed("123456/10/1");
    Text.TrimTrimmed("Mary Banda");
    Text.TrimTrimmed("");
    Text.TrimTrimmed("M. Banda");
    Text.TrimTrimmed("0977");
    assert CustomerRegistry.Verify(db.customers, "123456/10/1") == NotFound;
    var first := db.RegisterCustomer("123456/10/1", "Mary Banda", "", "");
    assert CustomerRegistry.Verify(db.customers, "123456/10/1").Found?;
    again := db.RegisterCustomer("123456/10/1", "M. Banda", "0977", "");
    rows := |db.customers|;
  }

  /** Starting up twice inserts the eight starter products once. */
  method StartTwice() returns (afterFirst: nat, afterSecond: nat, next: int)
    ensures afterFirst == 8 && afterSecond == 8 && next == 9
  {
    var db := new PosStore.Store();
    db.InitDb();
    Catalog.InsertedSize(1, Catalog.StarterCatalog);
    afterFirst := |db.products|;
    db.InitDb();
    afterSecond := |db.products|;
    next := db.nextProductId;
  }
}
