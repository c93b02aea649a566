/**
 * The rows the repositories read and write (the ORM models of the inventory
 * and cash ledger), the error conditions they raise, and the Option/Result
 * wrappers used for optional columns and for operations that can fail.
 *
 * Timestamps are integers counting microseconds, the resolution of Python's
 * datetime; amounts and quantities are exact reals.
 */
module Schema {

  datatype Option<+T> = None | Some(value: T)

  datatype Result<+T> = Ok(value: T) | Err(error: Error)

  /** One constructor per ValueError the repositories raise. */
  datatype Error =
    // cash ledger
    | InvalidKind
    | NonPositiveAmount
    | DayClosed(day: int)
    | AlreadyClosed(day: int)
    // purchases and sales
    | EmptyItems
    | SupplierNotFound
    | SupplierInactive
    | NonPositiveQuantity
    | NegativePrice
    | ProductNotFound(productId: int)
    | ProductInactive(name: string)
    | InsufficientStock(name: string, available: real, required: real)
    | SaleNotFound
    | AlreadyVoided
    // master data
    | MissingCodeOrName
    | NegativeSalePrice
    | NegativeMinimumStock
    | DuplicateCode(codigo: string)
    | DuplicateNit

  /** The tipo column of a cash movement. */
  datatype Kind = Ingreso | Egreso

  /** The text stored in the tipo column. */
  function KindName(k: Kind): string
  {
    match k
    case Ingreso => "INGRESO"
    case Egreso => "EGRESO"
  }

  datatype Movement = Movement(
    id: int,
    tipo: Kind,
    concepto: string,
    monto: real,
    referencia: Option<string>,
    observacion: Option<string>,
    fecha: int)

  /** The immutable snapshot stored when a day is closed; `fecha` is a day number. */
  datatype Closure = Closure(
    fecha: int,
    totalIngresos: real,
    totalEgresos: real,
    saldoInicial: real,
    saldoFinal: real,
    cerradoPor: Option<string>)

  datatype Product = Product(
    id: int,
    codigo: string,
    nombre: string,
    unidad: string,
    precioVenta: real,
    stockMinimo: real,
    stockActual: real,
    activo: bool)

  datatype Supplier = Supplier(
    id: int,
    nombre: string,
    nit: Option<string>,
    telefono: Option<string>,
    direccion: Option<string>,
    activo: bool)

  /** One line of the `items` list given to crear_entrada. */
  datatype EntryItem = EntryItem(productId: int, cantidad: real, precioCompra: real)

  datatype EntryDetail = EntryDetail(productId: int, cantidad: real, precioCompra: real, subtotal: real)

  datatype Entry = Entry(id: int, supplierId: int, details: seq<EntryDetail>, total: real)

  /** One line of the `items` list given to crear_venta. */
  datatype SaleItem = SaleItem(productId: int, cantidad: real, precioVenta: real)

  datatype SaleDetail = SaleDetail(productId: int, cantidad: real, precioVenta: real, subtotal: real)

  /** The void columns are always present; a sale that was never voided has them unset. */
  datatype Sale = Sale(
    id: int,
    details: seq<SaleDetail>,
    total: real,
    anulada: bool,
    motivoAnulacion: Option<string>,
    anuladaEn: Option<int>)
}
