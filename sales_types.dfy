/** The records the sales service stores (src/lib/types.ts). Money is in
    integer cents; every string field is a `string`; an optional field is
    an `Option`. */
module SalesTypes {
  import opened Wrappers

  datatype Product = Product(
    id: string,
    name: string,
    price: int,
    stock: int,
    category: string,
    barcode: Option<string>)

  /** One line of a sale; name and unit price are snapshots taken when the
      sale is made. */
  datatype SaleItem = SaleItem(
    productId: string,
    productName: string,
    quantity: int,
    unitPrice: int,
    subtotal: int)

  /** 'confirmada' and 'cancelada'. */
  datatype SaleStatus = Confirmada | Cancelada

  /** A sale. The payment method is the caller's string ("Pix", "Dinheiro",
      ...); the empty string stands for a missing one. */
  datatype Sale = Sale(
    id: string,
    date: string,
    time: string,
    userId: string,
    userName: string,
    customerId: Option<string>,
    customerName: Option<string>,
    paymentMethod: string,
    status: SaleStatus,
    items: seq<SaleItem>,
    subtotal: int,
    discount: int,
    total: int,
    observations: Option<string>,
    createdAt: string,
    cancelledAt: Option<string>,
    cancelReason: Option<string>)

  /** 'entrada' (cash in) and 'saida' (cash out). */
  datatype CashierKind = Entrada | Saida

  datatype CashierTransaction = CashierTransaction(
    id: string,
    kind: CashierKind,
    description: string,
    value: int,
    category: string,
    date: string,
    time: string,
    saleId: Option<string>,
    createdAt: string)

  /** 'venda', 'cancelamento', 'ajuste' and 'entrada' (a restock). */
  datatype MovementKind = Venda | Cancelamento | Ajuste | Reposicao

  /** A stock movement; quantity is positive for stock coming in and
      negative for stock going out. */
  datatype StockMovement = StockMovement(
    id: string,
    productId: string,
    productName: string,
    quantity: int,
    kind: MovementKind,
    saleId: Option<string>,
    date: string,
    time: string,
    userId: string,
    createdAt: string)

  /** What `getCurrentDateTime` returns: the ISO date, the local time and
      the full ISO timestamp. */
  datatype Stamp = Stamp(date: string, time: string, iso: string)

  /** The acting user `getCurrentUser` reads. */
  datatype User = User(id: string, name: string)

  /** The environment of one service call: ids(k) is the k-th value
      `generateId` returns during the call, clock(k) the k-th reading of
      `getCurrentDateTime`, and user the acting user. */
  datatype Env = Env(ids: nat -> string, clock: nat -> Stamp, user: User)

  /** The failures the service reports. The source returns a message
      string; each message is represented by the case that produces it,
      with the data the message shows. */
  datatype SaleError =
    | EmptySale
    | NonPositiveTotal
    | MissingPaymentMethod
    | ProductNotFound(productName: string)
    | InsufficientStock(productName: string, available: int)
    | StockUpdateFailed(productName: string)
    | SaleNotFound
    | AlreadyCancelled
}
