/**
 The product catalog: the in-stock filter behind the sales screen and the
 starter catalog written at start-up when the products table is empty.
 */
module Catalog {
  import opened Tables

  /** The products the sales screen offers: those whose stock is positive,
      each with its stored row. */
  function Available(products: map<int, Product>): (r: map<int, Product>)
    ensures forall id :: id in r <==> id in products && products[id].stock > 0
    ensures forall id :: id in r ==> r[id] == products[id]
  {
    map id | id in products && products[id].stock > 0 :: products[id]
  }

  /** The eight starter products, in insertion order. */
  const StarterCatalog: seq<Product> := [
    Product("Rice (5kg)", 15000, 100, "Groceries"),
    Product("Cooking Oil (1L)", 8500, 50, "Groceries"),
    Product("Sugar (1kg)", 4500, 75, "Groceries"),
    Product("Salt (500g)", 1500, 100, "Groceries"),
    Product("Soap Bar", 2000, 60, "Household"),
    Product("Toothpaste", 3500, 40, "Household"),
    Product("Bottled Water (1L)", 1000, 200, "Beverages"),
    Product("Soft Drink", 1500, 150, "Beverages")
  ]

  /** The rows `rows` inserted one after another under consecutive ids
      starting at `first`. */
  function Inserted(first: int, rows: seq<Product>): (r: map<int, Product>)
    ensures forall id :: id in r <==> first <= id < first + |rows|
    ensures forall k :: 0 <= k < |rows| ==> r[first + k] == rows[k]
  {
    if rows == [] then map[]
    else
      var r := Inserted(first, rows[..|rows| - 1]);
      assert forall k :: 0 <= k < |rows| - 1 ==> rows[..|rows| - 1][k] == rows[k];
      r[first + |rows| - 1 := rows[|rows| - 1]]
  }

  /** Inserting `rows` adds exactly `|rows|` products. */
  lemma {:induction false} InsertedSize(first: int, rows: seq<Product>)
    ensures |Inserted(first, rows)| == |rows|
  {
    if rows != [] {
      InsertedSize(first, rows[..|rows| - 1]);
    }
  }

  /** The seeding step of start-up on the products table and its id counter:
      the starter catalog is inserted only when the table is empty. */
  function SeedIfEmpty(products: map<int, Product>, nextId: int): (r: (map<int, Product>, int))
    ensures |products| != 0 ==> r == (products, nextId)
    ensures |products| == 0 ==>
              && (forall id :: id in r.0 <==> nextId <= id < nextId + |StarterCatalog|)
              && (forall k :: 0 <= k < |StarterCatalog| ==> r.0[nextId + k] == StarterCatalog[k])
              && r.1 == nextId + |StarterCatalog|
  {
    if |products| == 0 then (Inserted(nextId, StarterCatalog), nextId + |StarterCatalog|)
    else (products, nextId)
  }

  /** Starting up twice seeds once: the second run finds the table filled. */
  lemma {:induction false} SeedIdempotent(products: map<int, Product>, nextId: int)
    ensures var (p, n) := SeedIfEmpty(products, nextId); SeedIfEmpty(p, n) == (p, n)
  {
    var (p, n) := SeedIfEmpty(products, nextId);
    if |products| == 0 {
      assert nextId in p;
    }
  }

  /** Right after seeding, every starter product is offered for sale. */
  lemma {:induction false} SeededAllAvailable(nextId: int)
    ensures Available(Inserted(nextId, StarterCatalog)) == Inserted(nextId, StarterCatalog)
  {
    var p := Inserted(nextId, StarterCatalog);
    forall id | id in p ensures p[id].stock > 0 {
      assert p[nextId + (id - nextId)] == StarterCatalog[id - nextId];
    }
  }
}
