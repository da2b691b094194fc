# Point-of-sale core: sales, customer registry, catalog seeding

This project models the business core of a small point-of-sale web
application backed by SQLite. It covers:

- **Sale processing.** A non-empty cart is validated line by line against the
  stored stock, then charged. One transaction row is written, plus one line
  item per cart line carrying the product's price. Each product's stock is
  lowered by the quantity on the line.
- **Customer registration.** The NRC (national registration card number),
  name, phone and address are trimmed. Registration is refused when the NRC
  or the name is blank, or when the NRC is already on file (the `UNIQUE`
  constraint). Otherwise one verified customer is appended.
- **NRC verification.** The NRC is trimmed. A blank NRC is refused. Otherwise
  the customer with exactly that NRC is reported, or "not found".
- **The sales screen filter**: products whose stock is positive.
- **Start-up seeding.** The eight starter products are inserted only when the
  products table is empty.

The database is the class `PosStore.Store`. It has one field per table: a
`map` for products keyed by id, and sequences in insertion order for
customers, transactions and line items. It also has one next-id counter per
table, standing for `AUTOINCREMENT` and `lastrowid`. Each handler is a method
that updates these fields in place. Each is specified against value-level
functions in `Text` (Python's `str.strip`), `Catalog`, `CustomerRegistry` and
`SaleProcessor`, and the properties of the handlers are proved as lemmas
about those functions. `Scenarios` calls the handlers on concrete data
and proves the outcomes.

A sale's validation reads each line's stock from the table as stored. A cart
that names the same product on two lines can therefore pass validation and
still drive that product's stock below zero. The model keeps this behaviour:
`SaleProcessor.OversellWithRepeatedLine` and
`Scenarios.RepeatedLineOversells` exhibit it. Non-negative stock is proved
only for carts whose lines name distinct products
(`SaleProcessor.StockStaysNonNegative`).

## Model

| member | source | states |
|---|---|---|
| Text.IsSpace | app.py:128-131 | the whitespace set `str.strip` removes, as `str.isspace` defines it: tab through carriage return, 0x1C-0x1F, space, 0x85, 0xA0, 0x1680, 0x2000-0x200A, 0x2028, 0x2029, 0x202F, 0x205F and 0x3000 |
| Text.Trim | app.py:128-131 | `str.strip`: never longer than its input; what it removes and keeps is stated by TrimStartSpec, TrimEndSpec, TrimShape, TrimBlank and TrimSlice |
| Text.TrimStartSpec | app.py:128-131 | leading strip removes exactly a prefix of whitespace characters and leaves a result that is empty or starts with a non-space |
| Text.TrimEndSpec | app.py:128-131 | trailing strip removes exactly a suffix of whitespace characters and leaves a result that is empty or ends with a non-space |
| Text.TrimShape | app.py:128-131 | a stripped string has no whitespace at either end |
| Text.TrimBlank | app.py:97-99 | a string strips to the empty string exactly when every character is whitespace (the "not nrc" test) |
| Text.TrimSlice | app.py:128-131 | the stripped string is a contiguous slice of the input with only whitespace before and after it |
| Text.TrimTrimmed | app.py:128-131 | stripping a string with no surrounding whitespace returns it unchanged |
| Catalog.Available | app.py:90 | the products on the sales screen are exactly the stored products whose stock is positive, with their stored rows |
| Catalog.StarterCatalog | app.py:65-74 | the eight starter products with their names, prices, stocks and categories, in insertion order |
| Catalog.Inserted | app.py:75-78 | inserting rows one after another gives consecutive ids from the first id on, each mapped to its row |
| Catalog.InsertedSize | app.py:75-78 | inserting n rows adds exactly n products |
| Catalog.SeedIfEmpty | app.py:63-78 | a non-empty products table is left as it is; an empty one receives the eight starter products under consecutive ids, and the counter moves past them |
| Catalog.SeedIdempotent | app.py:63-64 | running the seeding step a second time changes nothing |
| Catalog.SeededAllAvailable | app.py:65-74 | right after seeding, every starter product appears on the sales screen |
| CustomerRegistry.UniqueNrc | app.py:22 | the `UNIQUE` constraint on the nrc column: no two rows share an NRC; kept by CustomerInsert and VerifyAfterInsert, used by FindByNrcUnique |
| CustomerRegistry.FindByNrc | app.py:103 | the lookup finds nothing exactly when no row has that NRC; what it finds is a stored row with that NRC |
| CustomerRegistry.Verify | app.py:94-123 | a blank NRC gives "NRC required"; otherwise "verified" exactly when some customer holds the trimmed NRC, reporting that customer's id, name, NRC and phone; "not found" otherwise |
| CustomerRegistry.FindByNrcUnique | app.py:22 | with unique NRCs, looking up a stored customer's NRC returns that customer |
| CustomerRegistry.VerifyAfterInsert | app.py:139-144 | appending a customer with a new NRC keeps NRCs unique, and verifying that NRC (as typed) then reports that customer |
| SaleProcessor.LineOk | app.py:174 | a cart line passes when its product exists and the product's stock as stored, not what is left after earlier lines of the same cart, is at least the line's quantity; this is why a repeated product can oversell (OversellWithRepeatedLine) |
| SaleProcessor.RejectedLabel | app.py:178 | the rejection message names the stored product's name, or "product" when the id names no product; tied to the first failing line by ValidateCart and ProcessSale |
| SaleProcessor.CartTotal | app.py:171-175 | the charge: the sum over the lines of the product's price times the line's quantity; equal to the recorded items' total by TotalMatchesItems, additive by CartTotalAppend |
| SaleProcessor.DeductLine | app.py:192-195 | one stock update: the named product's stock drops by the line's quantity, and an unknown id changes nothing |
| SaleProcessor.Deduct | app.py:192-195 | the stock updates of all lines in cart order; its closed form (keys kept, only stock changed, lowered by each product's total quantity) is DeductStock |
| SaleProcessor.LineItems | app.py:186-191 | one line item per cart line, under consecutive ids, with the line's product and quantity and the product's price; its sum matches the charge by TotalMatchesItems |
| SaleProcessor.FirstRejected | app.py:172-178 | validation stops at the first line whose product is missing or whose stock is below the quantity; all earlier lines pass; it reaches the end exactly when every line passes |
| SaleProcessor.DeductStock | app.py:192-195 | the stock updates keep every product and change only stock, lowering each product's stock by the total quantity the cart asks of it |
| SaleProcessor.QuantityForAbsent | app.py:192-195 | a product no line names keeps its stock |
| SaleProcessor.QuantityForDistinct | app.py:186-195 | when lines name distinct products, a product's stock drops by exactly its line's quantity |
| SaleProcessor.TotalMatchesItems | app.py:171-191 | the transaction total equals the sum of price times quantity over the line items recorded for it |
| SaleProcessor.CartTotalAppend | app.py:171-175 | the cart total is additive over any split of the cart |
| SaleProcessor.StockStaysNonNegative | app.py:172-195 | when lines name distinct products, a sale that passes validation keeps every product and leaves each product whose stock was non-negative with a non-negative stock, whatever the other products' stocks are |
| SaleProcessor.OversellWithRepeatedLine | app.py:172-195 | two lines of 60 for a product with 100 in stock both pass validation, and the sale leaves stock -20 |
| SaleProcessor.SaleShrinksAvailable | app.py:192-195 | with non-negative quantities a sale never adds a product to the sales screen; products the cart does not name keep their place on it |
| PosStore.CustomerInsert | app.py:139-144 | inserting a customer under the next id with a new, trimmed NRC and name keeps the table constraints (fresh increasing ids, unique non-empty trimmed NRCs and names), and verification then finds that customer |
| PosStore.ItemIdsAppend | app.py:188-191 | the line items of a sale take fresh, increasing ids |
| PosStore.Store.constructor | app.py:19-61 | a new database has four empty tables and all id counters at 1, and satisfies the table constraints |
| PosStore.Store.InitDb | app.py:63-78 | start-up leaves the products table and its counter as the seeding step prescribes, and keeps the table constraints |
| PosStore.Store.InsertProducts | app.py:75-78 | the batch insert adds the rows under consecutive ids from the counter on and advances the counter by their number |
| PosStore.Store.RegisterCustomer | app.py:125-157 | blank NRC or name is refused as "required" (and only then); an NRC already on file is refused as a duplicate (and only then); a refusal changes nothing; otherwise exactly one customer is appended, with trimmed fields, verified flag 1 and the next id, the reply carries its id, name, NRC and phone, and verifying its NRC then finds it; registration succeeds exactly when neither refusal applies |
| PosStore.Store.ValidateCart | app.py:171-178 | the validation pass succeeds exactly when every line passes, and then yields the cart total; otherwise it names the product of the first failing line, or "product" when that product does not exist |
| PosStore.Store.RecordSale | app.py:180-195 | the writing pass appends one transaction under the next id, one line item per cart line at the product's price under the next item ids, and applies every stock update; nothing else changes |
| PosStore.Store.ProcessSale | app.py:159-204 | an empty cart is refused; a sale succeeds exactly when every line passes validation against the stored stock; a refusal names the first failing line's product and writes nothing; a success records the transaction, its line items and the stock updates, reports the total, and returns an id no earlier transaction has |
| Scenarios.RiceSale | app.py:159-204 | selling 3 rice bags from the seeded catalog charges 45000 as transaction 1 and leaves 97; asking for 101 next is refused naming "Rice (5kg)" |
| Scenarios.RepeatedLineOversells | app.py:172-195 | on the seeded catalog, a cart naming rice twice at 60 is sold for 1800000 and leaves stock -20 |
| Scenarios.RegisterThenVerify | app.py:94-157 | an unknown NRC is not found; registering it with stray spaces stores the trimmed fields under id 1; verifying it then finds that customer |
| Scenarios.RegisterTwice | app.py:137-157 | registering the same NRC a second time is refused as a duplicate and leaves one customer |
| Scenarios.StartTwice | app.py:63-78 | starting up twice leaves exactly the eight starter products and the product counter at 9 |

## Left out

- HTTP routing, JSON request parsing and replies, and HTML templates: handlers take their inputs as parameters and return outcome datatypes whose cases stand for the JSON replies.
- Connections, commits and closing, and the `CREATE TABLE` statements: each handler is one atomic step on the in-memory store, and concurrent requests are not modelled.
- Prices and totals are stored as `REAL`; the model uses unbounded integers, so floating-point rounding of `price * quantity` is not modelled.
- Timestamps (`created_at`, `transaction_date`) and the secret key from `os.urandom` are not modelled.
- The foreign keys are declared but SQLite does not enforce them by default; the model does not check that a sale's customer id names a stored customer.
- The listing pages for customers, transactions and products (their `ORDER BY` queries) and the index page are not part of this model.
- Cart lines in the model carry an integer product id and an integer quantity; the handler's behaviour on other request values is not modelled:
  - a fractional quantity such as 2.5 is accepted by the handler: compared, charged, stored in the line item and subtracted, leaving a fractional stock; the model has no such quantity;
  - a line missing its `quantity`, or with a non-numeric one, raises when its product exists; when its `product_id` names no product, the missing-product test short-circuits and the reply is "Insufficient stock for product", as the model answers for any unknown id;
  - a missing request body or a line without `product_id` raises; the model has no such request;
  - SQLite binds integers only within [-2^63, 2^63): a `product_id` outside that range raises at the product lookup, where the model answers `InsufficientStock("product")`; a quantity below -2^63 passes the stock test and then raises, at the total's `price * quantity` when it is too large for a float and otherwise at the line-item INSERT, so nothing is stored, where the model answers `Sold` and raises the stock; a `customer_id` outside that range passes validation and then raises at the transactions INSERT, the sale's first write, so nothing is stored and no transaction id is used, where the model answers `Sold` and records the transaction; a `customer_id` that is not an integer (a string, say) is stored as given, where the model's customer id is always an optional integer;
  - SQLite stores integers in 64 bits: when a stock update's `stock - quantity` leaves [-2^63, 2^63) (a quantity of -2^63 against any stock of 0 or more, or -(2^63-1) against a stock of 100), SQLite computes it in floating point and commits a REAL stock near 9.22e18, where the model stores the exact integer. The model's integers are unbounded.
- Quantities are not required to be positive, because the handler does not check them. A negative quantity passes validation and raises stock. Only `SaleProcessor.SaleShrinksAvailable` assumes non-negative quantities.
- PosStore.Store.RecordSale: each line item's price is taken from the products table as it stood before the sale, whereas the handler re-reads the product after the earlier lines' stock updates; those updates change only stock, so the price is the same.
- Python's `str.strip` is modelled on the whitespace code points `str.isspace` accepts: tab through carriage return, the information separators 0x1C-0x1F, space, 0x85, 0xA0, 0x1680, 0x2000-0x200A, 0x2028, 0x2029, 0x202F, 0x205F and 0x3000.
