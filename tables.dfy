/**
 The rows of the four tables of the point-of-sale database (customers,
 products, transactions, transaction_items), the cart lines a sale request
 carries, and the outcomes the handlers answer with.
 Prices, totals and quantities are integers (see README).
 */
module Tables {

  datatype Option<T> = None | Some(value: T)

  /** A products row without its key; the table is a map from id to this. */
  datatype Product = Product(name: string, price: int, stock: int, category: string)

  /** A customers row. `verified` is the INTEGER column, 1 for every
      customer inserted by registration. */
  datatype Customer = Customer(id: int, nrc: string, name: string, phone: string,
                               address: string, verified: int)

  /** A transactions row; the customer reference may be null. */
  datatype Transaction = Transaction(id: int, customerId: Option<int>, total: int)

  /** A transaction_items row: the line of a sale with the unit price recorded. */
  datatype TransactionItem = TransactionItem(id: int, transactionId: int, productId: int,
                                             quantity: int, price: int)

  /** One `{product_id, quantity}` entry of a sale request. */
  datatype CartLine = CartLine(productId: int, quantity: int)

  /** The customer fields a handler answers with. */
  datatype CustomerView = CustomerView(id: int, name: string, nrc: string, phone: string)

  function View(c: Customer): CustomerView {
    CustomerView(c.id, c.name, c.nrc, c.phone)
  }

  /** Answer of the NRC verification handler. */
  datatype VerifyOutcome =
    | NrcRequired                          // "NRC number is required"
    | Found(customer: CustomerView)        // verified: true
    | NotFound                             // verified: false, "Please register."

  datatype RegisterError =
    | NrcAndNameRequired                   // "NRC and Name are required"
    | NrcAlreadyExists                     // the UNIQUE constraint on nrc fired

  datatype RegisterOutcome = Registered(customer: CustomerView) | RegisterFailed(reason: RegisterError)

  /** `InsufficientStock(what)` is "Insufficient stock for <what>": the
      product name, or the word "product" when the id names no product. */
  datatype SaleError =
    | NoItemsInCart                        // "No items in cart"
    | InsufficientStock(what: string)

  datatype SaleOutcome = Sold(transactionId: int, total: int) | SaleRejected(reason: SaleError)
}
