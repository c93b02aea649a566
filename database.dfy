/**
 * The relational store the repositories share, replaced by an in-memory
 * object. A Database object is the committed store. A unit of work
 * (`with SessionLocal() as db:`) is a fresh Database made by `Begin`: the
 * repositories change its tables, and those changes reach the store only
 * through `Commit`; a rolled-back unit of work is simply never committed.
 *
 * Ids come from per-table counters starting at 1, so a rolled-back insert
 * consumes no id. Movements are never deleted, so a movement's id is its
 * position in the ledger plus one.
 */
module Store {
  import opened Schema

  /** Every table of the store at one moment, with the next id of each keyed table. */
  datatype StoreState = StoreState(
    movements: seq<Movement>,
    closures: map<int, Closure>,
    products: map<int, Product>,
    nextProductId: nat,
    suppliers: map<int, Supplier>,
    nextSupplierId: nat,
    sales: map<int, Sale>,
    nextSaleId: nat,
    entries: map<int, Entry>,
    nextEntryId: nat)

  class Database {
    var movements: seq<Movement>
    var closures: map<int, Closure>
    var products: map<int, Product>
    var nextProductId: nat
    var suppliers: map<int, Supplier>
    var nextSupplierId: nat
    var sales: map<int, Sale>
    var nextSaleId: nat
    var entries: map<int, Entry>
    var nextEntryId: nat

    /** The tables as one value, so that a contract can say which of them an operation changes. */
    function State(): (s: StoreState)
      reads this
      ensures s.movements == movements && s.closures == closures
      ensures s.products == products && s.nextProductId == nextProductId
      ensures s.suppliers == suppliers && s.nextSupplierId == nextSupplierId
      ensures s.sales == sales && s.nextSaleId == nextSaleId
      ensures s.entries == entries && s.nextEntryId == nextEntryId
    {
      StoreState(movements, closures, products, nextProductId, suppliers, nextSupplierId,
                 sales, nextSaleId, entries, nextEntryId)
    }

    /** A store with every table empty. */
    constructor Empty()
      ensures State() == StoreState([], map[], map[], 1, map[], 1, map[], 1, map[], 1)
    {
      movements, closures := [], map[];
      products, nextProductId := map[], 1;
      suppliers, nextSupplierId := map[], 1;
      sales, nextSaleId := map[], 1;
      entries, nextEntryId := map[], 1;
    }

    /** Opens a unit of work: a private copy of every table of `store`. */
    constructor Begin(store: Database)
      ensures State() == store.State()
    {
      movements, closures := store.movements, store.closures;
      products, nextProductId := store.products, store.nextProductId;
      suppliers, nextSupplierId := store.suppliers, store.nextSupplierId;
      sales, nextSaleId := store.sales, store.nextSaleId;
      entries, nextEntryId := store.entries, store.nextEntryId;
    }

    /** `db.commit()`: every table of the unit of work becomes the committed table. */
    method Commit(work: Database)
      modifies this
      ensures State() == work.State()
    {
      var s := work.State();
      movements, closures := s.movements, s.closures;
      products, nextProductId := s.products, s.nextProductId;
      suppliers, nextSupplierId := s.suppliers, s.nextSupplierId;
      sales, nextSaleId := s.sales, s.nextSaleId;
      entries, nextEntryId := s.entries, s.nextEntryId;
    }
  }
}
