/**
 * Purchase entries (`crear_entrada`). Each line adds its quantity to the
 * product's stock and its quantity times price to the entry's total; a paid
 * entry also writes one EGRESO through the ledger gateway inside the same
 * unit of work. Any refusal, including the gateway's, rolls back every
 * staged stock increment.
 */
module Entries {
  import opened Schema
  import opened Text
  import opened Store
  import opened Products
  import opened Cash

  /** What the line loop has staged so far: the products as changed, the details, the running total. */
  datatype Staged = Staged(products: map<int, Product>, details: seq<EntryDetail>, total: real)

  /** One turn of the line loop, with its checks in the source's order. */
  function StageLine(st: Staged, it: EntryItem): Result<Staged>
  {
    if it.cantidad <= 0.0 then Err(NonPositiveQuantity)
    else if it.precioCompra < 0.0 then Err(NegativePrice)
    else if it.productId !in st.products then Err(ProductNotFound(it.productId))
    else
      var p := st.products[it.productId];
      if !p.activo then Err(ProductInactive(p.nombre))
      else
        var d := LineDetail(it);
        Ok(Staged(st.products[it.productId := p.(stockActual := p.stockActual + it.cantidad)],
                  st.details + [d],
                  st.total + d.subtotal))
  }

  /** The line loop run over `items` from the committed products; the first refused line stops it. */
  function StageLines(ps: map<int, Product>, items: seq<EntryItem>): (r: Result<Staged>)
    ensures r.Ok? ==> |r.value.details| == |items|
    decreases |items|
  {
    if items == [] then Ok(Staged(ps, [], 0.0))
    else
      match StageLines(ps, items[..|items| - 1])
      case Err(e) => Err(e)
      case Ok(st) => StageLine(st, items[|items| - 1])
  }

  /** The line loop moves stock only: every product stays, with its other columns as they were. */
  lemma {:induction false} LinesMoveOnlyStock(ps: map<int, Product>, items: seq<EntryItem>)
    ensures StageLines(ps, items).Ok? ==> OnlyStockChanged(ps, StageLines(ps, items).value.products)
    decreases |items|
  {
    if items != [] {
      var pre := items[..|items| - 1];
      LinesMoveOnlyStock(ps, pre);
      if StageLines(ps, items).Ok? {
        StockChangesCompose(ps, StageLines(ps, pre).value.products, StageLines(ps, items).value.products);
      }
    }
  }

  /** Once a prefix of the lines is refused, the whole entry is refused with the same error. */
  lemma {:induction false} RefusedPrefix(ps: map<int, Product>, items: seq<EntryItem>, k: nat)
    requires k <= |items| && StageLines(ps, items[..k]).Err?
    ensures StageLines(ps, items) == StageLines(ps, items[..k])
    decreases |items| - k
  {
    if k < |items| {
      var n := |items|;
      assert items[..n][..n - 1] == items[..n - 1];
      assert items[..n - 1][..k] == items[..k];
      RefusedPrefix(ps, items[..n - 1], k);
      assert items[..n] == items;
    } else {
      assert items[..k] == items;
    }
  }

  // ---------------------------------------------------------------------
  // Reference definitions: what a whole entry does, stated per product.
  // ---------------------------------------------------------------------

  /** A line every check lets through, judged against the committed products. */
  predicate LineAcceptable(ps: map<int, Product>, it: EntryItem)
  {
    it.cantidad > 0.0 && it.precioCompra >= 0.0 && it.productId in ps && ps[it.productId].activo
  }

  /** The error a refused line raises: the first failing check. */
  function LineError(ps: map<int, Product>, it: EntryItem): Error
    requires !LineAcceptable(ps, it)
  {
    if it.cantidad <= 0.0 then NonPositiveQuantity
    else if it.precioCompra < 0.0 then NegativePrice
    else if it.productId !in ps then ProductNotFound(it.productId)
    else ProductInactive(ps[it.productId].nombre)
  }

  /** The total quantity the lines bring in for one product. */
  function AddedQuantity(items: seq<EntryItem>, pid: int): real
    decreases |items|
  {
    if items == [] then 0.0
    else
      var it := items[|items| - 1];
      AddedQuantity(items[..|items| - 1], pid) + (if it.productId == pid then it.cantidad else 0.0)
  }

  /** Every product with its stock raised by what the lines bring in for it. */
  function Restocked(ps: map<int, Product>, items: seq<EntryItem>): map<int, Product>
  {
    map pid | pid in ps :: ps[pid].(stockActual := ps[pid].stockActual + AddedQuantity(items, pid))
  }

  /** The detail row of one line: quantity times price as subtotal. */
  function LineDetail(it: EntryItem): EntryDetail
  {
    EntryDetail(it.productId, it.cantidad, it.precioCompra, it.cantidad * it.precioCompra)
  }

  /** One detail per line, in line order. */
  function EntryDetails(items: seq<EntryItem>): (r: seq<EntryDetail>)
    ensures |r| == |items|
    decreases |items|
  {
    if items == [] then [] else EntryDetails(items[..|items| - 1]) + [LineDetail(items[|items| - 1])]
  }

  /** The i-th detail is the i-th line's: the entry keeps the input order. */
  lemma {:induction false} DetailsFollowLines(items: seq<EntryItem>, i: nat)
    requires i < |items|
    ensures EntryDetails(items)[i] == LineDetail(items[i])
    decreases |items|
  {
    if i < |items| - 1 {
      DetailsFollowLines(items[..|items| - 1], i);
    }
  }

  function SumSubtotals(ds: seq<EntryDetail>): real
    decreases |ds|
  {
    if ds == [] then 0.0 else SumSubtotals(ds[..|ds| - 1]) + ds[|ds| - 1].subtotal
  }

  /**
   * When every line is acceptable the loop succeeds, and what it staged is
   * the reference: each product restocked by the sum of its lines (a
   * product on two lines gets both), the details in line order, and the
   * total as the sum of the subtotals.
   */
  lemma {:induction false} LinesAccepted(ps: map<int, Product>, items: seq<EntryItem>)
    requires forall i :: 0 <= i < |items| ==> LineAcceptable(ps, items[i])
    ensures StageLines(ps, items) == Ok(Staged(Restocked(ps, items), EntryDetails(items), SumSubtotals(EntryDetails(items))))
    decreases |items|
  {
    if items == [] {
      assert Restocked(ps, items) == ps;
    } else {
      var pre := items[..|items| - 1];
      assert forall i :: 0 <= i < |pre| ==> pre[i] == items[i];
      LinesAccepted(ps, pre);
      LineAccepted(ps, items);
    }
  }

  /** The inductive step of LinesAccepted: one more acceptable line. */
  lemma LineAccepted(ps: map<int, Product>, items: seq<EntryItem>)
    requires items != [] && LineAcceptable(ps, items[|items| - 1])
    requires var pre := items[..|items| - 1];
      StageLines(ps, pre) == Ok(Staged(Restocked(ps, pre), EntryDetails(pre), SumSubtotals(EntryDetails(pre))))
    ensures StageLines(ps, items) == Ok(Staged(Restocked(ps, items), EntryDetails(items), SumSubtotals(EntryDetails(items))))
  {
    var pre, it := items[..|items| - 1], items[|items| - 1];
    var st := Staged(Restocked(ps, pre), EntryDetails(pre), SumSubtotals(EntryDetails(pre)));
    assert StageLines(ps, items) == StageLine(st, it);
    assert st.products[it.productId].activo;
    RestockedStep(ps, items);
    var ds := EntryDetails(items);
    assert ds == st.details + [LineDetail(it)];
    assert ds[..|ds| - 1] == st.details;
    assert SumSubtotals(ds) == st.total + LineDetail(it).subtotal;
  }

  /** One more line restocks its product once more. */
  lemma RestockedStep(ps: map<int, Product>, items: seq<EntryItem>)
    requires items != [] && items[|items| - 1].productId in ps
    ensures var it, qs := items[|items| - 1], Restocked(ps, items[..|items| - 1]);
      Restocked(ps, items) == qs[it.productId := qs[it.productId].(stockActual := qs[it.productId].stockActual + it.cantidad)]
  {
  }

  /** The entry is refused with the error of its first unacceptable line. */
  lemma {:induction false} FirstRefusedLine(ps: map<int, Product>, items: seq<EntryItem>, i: nat)
    requires i < |items| && !LineAcceptable(ps, items[i])
    requires forall j :: 0 <= j < i ==> LineAcceptable(ps, items[j])
    ensures StageLines(ps, items) == Err(LineError(ps, items[i]))
    decreases |items|
  {
    var n := |items|;
    var pre := items[..n - 1];
    if i == n - 1 {
      LastLineRefused(ps, items);
    } else {
      assert pre[i] == items[i];
      assert forall j :: 0 <= j < i ==> pre[j] == items[j];
      FirstRefusedLine(ps, pre, i);
    }
  }

  /** The base case of FirstRefusedLine: every line but the last is acceptable. */
  lemma LastLineRefused(ps: map<int, Product>, items: seq<EntryItem>)
    requires items != [] && !LineAcceptable(ps, items[|items| - 1])
    requires forall j :: 0 <= j < |items| - 1 ==> LineAcceptable(ps, items[j])
    ensures StageLines(ps, items) == Err(LineError(ps, items[|items| - 1]))
  {
    var pre, it := items[..|items| - 1], items[|items| - 1];
    assert forall j :: 0 <= j < |pre| ==> pre[j] == items[j];
    LinesAccepted(ps, pre);
    var qs := StageLines(ps, pre).value.products;
    assert StageLines(ps, items) == StageLine(StageLines(ps, pre).value, it);
    assert qs == Restocked(ps, pre);
    assert it.productId in qs <==> it.productId in ps;
    assert it.productId in ps ==> qs[it.productId].activo == ps[it.productId].activo && qs[it.productId].nombre == ps[it.productId].nombre;
  }

  // ---------------------------------------------------------------------
  // The entry as a whole.
  // ---------------------------------------------------------------------

  /** `(metodo_pago or "Efectivo").strip()`. */
  function PaymentMethod(metodo: string): string
  {
    Strip(if metodo == [] then "Efectivo" else metodo)
  }

  /** The observation of the EGRESO: "Método: " and the method, or "" (stored as None) for a blank method. */
  function PaymentNote(metodo: string): string
  {
    var m := PaymentMethod(metodo);
    if m == [] then "" else "Método: " + m
  }

  /** `f"Compra (Entrada #{id}) - {nombre}"`. */
  function EntryConcept(id: nat, supplierName: string): string
  {
    "Compra (Entrada #" + NatToString(id) + ") - " + supplierName
  }

  /** `f"Entrada {id}"`. */
  function EntryReference(id: nat): string
  {
    "Entrada " + NatToString(id)
  }

  /** What a successful entry writes: the entry row, the products as restocked, and the EGRESO when paid. */
  datatype Purchase = Purchase(entry: Entry, products: map<int, Product>, movement: Option<Movement>)

  /**
   * `crear_entrada` on the committed state `s` at wall-clock time `now`:
   * an empty item list, then a missing or inactive supplier, then the
   * lines, then (when paid) the gateway may refuse.
   */
  function CreateEntry(s: StoreState, supplierId: int, items: seq<EntryItem>, pagado: bool, metodo: string, now: int): (r: Result<Purchase>)
    ensures r.Ok? ==>
      && items != [] && supplierId in s.suppliers && s.suppliers[supplierId].activo
      && r.value.entry.id == s.nextEntryId && r.value.entry.supplierId == supplierId
      && |r.value.entry.details| == |items|
      && (r.value.movement.Some? <==> pagado)
  {
    if items == [] then Err(EmptyItems)
    else if supplierId !in s.suppliers then Err(SupplierNotFound)
    else if !s.suppliers[supplierId].activo then Err(SupplierInactive)
    else
      match StageLines(s.products, items)
      case Err(e) => Err(e)
      case Ok(st) =>
        RecordEntry(s.movements, s.closures, s.nextEntryId, supplierId, st, pagado,
                    EntryConcept(s.nextEntryId, s.suppliers[supplierId].nombre), EntryReference(s.nextEntryId), PaymentNote(metodo), now)
  }

  /**
   * After the lines: the entry row under the next entry id and, when paid,
   * the EGRESO of the total through the gateway with the given texts.
   */
  function RecordEntry(ms: seq<Movement>, closures: map<int, Closure>, id: nat, supplierId: int, st: Staged, pagado: bool,
                       concepto: string, referencia: string, observacion: string, now: int): Result<Purchase>
  {
    var entry := Entry(id, supplierId, st.details, st.total);
    if !pagado then Ok(Purchase(entry, st.products, None))
    else
      match StageKind(ms, closures, Egreso, concepto, st.total, referencia, observacion, now)
      case Err(e) => Err(e)
      case Ok(m) => Ok(Purchase(entry, st.products, Some(m)))
  }

  /** The committed state after a successful entry. */
  function Apply(s: StoreState, p: Purchase): StoreState
  {
    s.(products := p.products,
       entries := s.entries[p.entry.id := p.entry],
       nextEntryId := s.nextEntryId + 1,
       movements := s.movements + (if p.movement.Some? then [p.movement.value] else []))
  }

  /** The reference is a stripped text, so the gateway stores it as given. */
  lemma ReferenceKept(id: nat)
    ensures OrNone(EntryReference(id)) == Some(EntryReference(id))
  {
    var t := EntryReference(id);
    assert t[|t| - 1] == NatToString(id)[|NatToString(id)| - 1];
    StripOfStripped(t);
  }

  /** The refusals before any line is looked at. */
  lemma EntryRefusedEarly(s: StoreState, supplierId: int, items: seq<EntryItem>, pagado: bool, metodo: string, now: int)
    ensures items == [] ==> CreateEntry(s, supplierId, items, pagado, metodo, now) == Err(EmptyItems)
    ensures items != [] && supplierId !in s.suppliers ==> CreateEntry(s, supplierId, items, pagado, metodo, now) == Err(SupplierNotFound)
    ensures items != [] && supplierId in s.suppliers && !s.suppliers[supplierId].activo ==>
      CreateEntry(s, supplierId, items, pagado, metodo, now) == Err(SupplierInactive)
  {
  }

  /** Past the supplier checks, the first unacceptable line decides the error. */
  lemma EntryRefusedByLine(s: StoreState, supplierId: int, items: seq<EntryItem>, pagado: bool, metodo: string, now: int, i: nat)
    requires supplierId in s.suppliers && s.suppliers[supplierId].activo
    requires i < |items| && !LineAcceptable(s.products, items[i])
    requires forall j :: 0 <= j < i ==> LineAcceptable(s.products, items[j])
    ensures CreateEntry(s, supplierId, items, pagado, metodo, now) == Err(LineError(s.products, items[i]))
  {
    FirstRefusedLine(s.products, items, i);
  }

  /**
   * With every line acceptable the entry holds the details in line order,
   * their subtotals summed as total, and every product restocked by the sum
   * of its lines. An unpaid entry always succeeds and writes no movement; a
   * paid one succeeds exactly when the total is positive and today is not
   * closed.
   */
  lemma EntryAccepted(s: StoreState, supplierId: int, items: seq<EntryItem>, pagado: bool, metodo: string, now: int)
    requires items != [] && supplierId in s.suppliers && s.suppliers[supplierId].activo
    requires forall i :: 0 <= i < |items| ==> LineAcceptable(s.products, items[i])
    ensures var r := CreateEntry(s, supplierId, items, pagado, metodo, now);
      && (r.Ok? <==> !pagado || (SumSubtotals(EntryDetails(items)) > 0.0 && !EstaCerrado(s.closures, Day(now))))
      && (r.Ok? ==>
        && r.value.entry == Entry(s.nextEntryId, supplierId, EntryDetails(items), SumSubtotals(EntryDetails(items)))
        && r.value.products == Restocked(s.products, items)
        && (r.value.movement.Some? <==> pagado))
  {
    LinesAccepted(s.products, items);
  }

  /** A paid entry that is recorded carries one EGRESO of its total, with the given texts, dated now. */
  lemma PaymentRecorded(ms: seq<Movement>, closures: map<int, Closure>, id: nat, supplierId: int, st: Staged,
                        concepto: string, referencia: string, observacion: string, now: int)
    requires RecordEntry(ms, closures, id, supplierId, st, true, concepto, referencia, observacion, now).Ok?
    ensures var p := RecordEntry(ms, closures, id, supplierId, st, true, concepto, referencia, observacion, now).value;
      && p.movement.Some?
      && p.movement.value.id == |ms| + 1
      && p.movement.value.tipo == Egreso
      && p.movement.value.monto == p.entry.total
      && p.movement.value.referencia == OrNone(referencia)
      && p.movement.value.observacion == OrNone(observacion)
      && p.movement.value.fecha == now
  {
  }

  /** A paid entry that succeeds writes one EGRESO of the entry's total, dated now and referencing the entry. */
  lemma EntryPayment(s: StoreState, supplierId: int, items: seq<EntryItem>, metodo: string, now: int)
    requires CreateEntry(s, supplierId, items, true, metodo, now).Ok?
    ensures var p := CreateEntry(s, supplierId, items, true, metodo, now).value;
      && p.movement.Some?
      && p.movement.value.id == |s.movements| + 1
      && p.movement.value.tipo == Egreso
      && p.movement.value.monto == p.entry.total
      && p.movement.value.referencia == Some(EntryReference(s.nextEntryId))
      && p.movement.value.observacion == OrNone(PaymentNote(metodo))
      && p.movement.value.fecha == now
  {
    var st := StageLines(s.products, items).value;
    var concepto := EntryConcept(s.nextEntryId, s.suppliers[supplierId].nombre);
    assert CreateEntry(s, supplierId, items, true, metodo, now)
        == RecordEntry(s.movements, s.closures, s.nextEntryId, supplierId, st, true, concepto,
                       EntryReference(s.nextEntryId), PaymentNote(metodo), now);
    PaymentRecorded(s.movements, s.closures, s.nextEntryId, supplierId, st, concepto,
                    EntryReference(s.nextEntryId), PaymentNote(metodo), now);
    ReferenceKept(s.nextEntryId);
  }

  /** When the gateway refuses the EGRESO of a paid entry, its error is the entry's and nothing is written. */
  lemma EntryPaymentRefused(s: StoreState, supplierId: int, items: seq<EntryItem>, metodo: string, now: int)
    requires items != [] && supplierId in s.suppliers && s.suppliers[supplierId].activo
    requires forall i :: 0 <= i < |items| ==> LineAcceptable(s.products, items[i])
    ensures SumSubtotals(EntryDetails(items)) <= 0.0 ==> CreateEntry(s, supplierId, items, true, metodo, now) == Err(NonPositiveAmount)
    ensures SumSubtotals(EntryDetails(items)) > 0.0 && EstaCerrado(s.closures, Day(now)) ==>
      CreateEntry(s, supplierId, items, true, metodo, now) == Err(DayClosed(Day(now)))
  {
    LinesAccepted(s.products, items);
  }

  /** A successful entry keeps the ledger invariant: its EGRESO, if any, is positive, next in line and outside closed days. */
  lemma EntryKeepsInvariant(s: StoreState, supplierId: int, items: seq<EntryItem>, pagado: bool, metodo: string, now: int)
    requires LedgerInvariant(s.movements, s.closures)
    requires CreateEntry(s, supplierId, items, pagado, metodo, now).Ok?
    ensures var s' := Apply(s, CreateEntry(s, supplierId, items, pagado, metodo, now).value);
      LedgerInvariant(s'.movements, s'.closures)
  {
    var p := CreateEntry(s, supplierId, items, pagado, metodo, now).value;
    if pagado {
      var st := StageLines(s.products, items).value;
      var m := StageKind(s.movements, s.closures, Egreso, EntryConcept(s.nextEntryId, s.suppliers[supplierId].nombre),
                         st.total, EntryReference(s.nextEntryId), PaymentNote(metodo), now);
      assert m.Ok? && p.movement == Some(m.value);
      AppendKeepsInvariant(s.movements, s.closures, m.value);
    } else {
      assert Apply(s, p).movements == s.movements + [] == s.movements;
    }
  }

  /** Free goods can be received unpaid but never paid: the gateway refuses the zero EGRESO. */
  lemma PaidFreeEntryRefused(s: StoreState, supplierId: int, items: seq<EntryItem>, metodo: string, now: int)
    requires items != [] && supplierId in s.suppliers && s.suppliers[supplierId].activo
    requires forall i :: 0 <= i < |items| ==> LineAcceptable(s.products, items[i]) && items[i].precioCompra == 0.0
    ensures CreateEntry(s, supplierId, items, true, metodo, now) == Err(NonPositiveAmount)
    ensures CreateEntry(s, supplierId, items, false, metodo, now).Ok?
  {
    forall i | 0 <= i < |items| {
      DetailsFollowLines(items, i);
    }
    FreeLinesSumToZero(EntryDetails(items));
    EntryPaymentRefused(s, supplierId, items, metodo, now);
    EntryAccepted(s, supplierId, items, false, metodo, now);
  }

  lemma {:induction false} FreeLinesSumToZero(ds: seq<EntryDetail>)
    requires forall i :: 0 <= i < |ds| ==> ds[i].subtotal == 0.0
    ensures SumSubtotals(ds) == 0.0
    decreases |ds|
  {
    if ds != [] {
      FreeLinesSumToZero(ds[..|ds| - 1]);
    }
  }

  /** An entry moves stock only, so the product table keeps its invariant. */
  lemma EntryKeepsProductTable(s: StoreState, supplierId: int, items: seq<EntryItem>, pagado: bool, metodo: string, now: int)
    requires ProductTable(s.products, s.nextProductId)
    ensures var r := CreateEntry(s, supplierId, items, pagado, metodo, now);
      r.Ok? ==> OnlyStockChanged(s.products, r.value.products) && ProductTable(r.value.products, s.nextProductId)
  {
    var r := CreateEntry(s, supplierId, items, pagado, metodo, now);
    if r.Ok? {
      LinesMoveOnlyStock(s.products, items);
      StockChangeKeepsTable(s.products, r.value.products, s.nextProductId);
    }
  }

  // ---------------------------------------------------------------------
  // The operation on the store.
  // ---------------------------------------------------------------------

  /** The line loop of `crear_entrada`, changing the products of the unit of work in place. */
  method AddLines(work: Database, items: seq<EntryItem>) returns (r: Result<Staged>)
    modifies work`products
    ensures r == StageLines(old(work.products), items)
    ensures r.Ok? ==> work.products == r.value.products
  {
    var details: seq<EntryDetail> := [];
    var total := 0.0;
    var i := 0;
    while i < |items|
      invariant 0 <= i <= |items|
      invariant StageLines(old(work.products), items[..i]) == Ok(Staged(work.products, details, total))
    {
      var it := items[i];
      assert items[..i + 1][..i] == items[..i];
      if it.cantidad <= 0.0 {
        r := Err(NonPositiveQuantity);
        RefusedPrefix(old(work.products), items, i + 1);
        return;
      }
      if it.precioCompra < 0.0 {
        r := Err(NegativePrice);
        RefusedPrefix(old(work.products), items, i + 1);
        return;
      }
      if it.productId !in work.products {
        r := Err(ProductNotFound(it.productId));
        RefusedPrefix(old(work.products), items, i + 1);
        return;
      }
      var p := work.products[it.productId];
      if !p.activo {
        r := Err(ProductInactive(p.nombre));
        RefusedPrefix(old(work.products), items, i + 1);
        return;
      }
      var subtotal := it.cantidad * it.precioCompra;
      assert EntryDetail(it.productId, it.cantidad, it.precioCompra, subtotal) == LineDetail(it);
      ghost var next := Staged(work.products[it.productId := p.(stockActual := p.stockActual + it.cantidad)],
                               details + [LineDetail(it)], total + subtotal);
      assert items[..i + 1][i] == it;
      assert StageLine(Staged(work.products, details, total), it) == Ok(next);
      assert StageLines(old(work.products), items[..i + 1]) == Ok(next);
      total := total + subtotal;
      details := details + [EntryDetail(it.productId, it.cantidad, it.precioCompra, subtotal)];
      work.products := work.products[it.productId := p.(stockActual := p.stockActual + it.cantidad)];
      i := i + 1;
    }
    assert items[..i] == items;
    r := Ok(Staged(work.products, details, total));
  }

  /**
   * What `crear_entrada` does after the line loop, in the unit of work:
   * adds the entry row and, when paid, stages the EGRESO through
   * RegistrarMovimientoEnDb. The texts of the EGRESO are made by the caller
   * from the entry id this method hands out (the next entry id).
   */
  method WriteEntry(work: Database, supplierId: int, st: Staged, pagado: bool,
                    concepto: string, referencia: string, observacion: string, now: int)
    returns (r: Result<Purchase>)
    modifies work`entries, work`nextEntryId, work`movements
    ensures r == RecordEntry(old(work.movements), old(work.closures), old(work.nextEntryId), supplierId, st, pagado,
                             concepto, referencia, observacion, now)
    ensures r.Ok? ==>
      && work.entries == old(work.entries)[r.value.entry.id := r.value.entry]
      && work.nextEntryId == old(work.nextEntryId) + 1
      && work.movements == old(work.movements) + (if r.value.movement.Some? then [r.value.movement.value] else [])
  {
    var id := work.nextEntryId;
    var entry := Entry(id, supplierId, st.details, st.total);
    work.entries, work.nextEntryId := work.entries[id := entry], id + 1;
    if !pagado {
      return Ok(Purchase(entry, st.products, None));
    }
    var m := RegistrarMovimientoEnDb(work, KindName(Egreso), concepto, entry.total, referencia, observacion, None, now);
    StageKindName(old(work.movements), work.closures, Egreso, concepto, entry.total, referencia, observacion, now);
    if m.Err? {
      return Err(m.error);
    }
    r := Ok(Purchase(entry, st.products, Some(m.value)));
  }

  /**
   * `crear_entrada`: on success the committed store becomes Apply of the
   * purchase (the entry under the next entry id, the restocked products
   * and, when paid, the EGRESO); on any refusal nothing is committed. The
   * product table keeps its invariant either way.
   */
  method CrearEntrada(db: Database, supplierId: int, items: seq<EntryItem>, pagado: bool, metodoPago: string, now: int)
    returns (r: Result<Entry>)
    requires ProductTable(db.products, db.nextProductId)
    modifies db
    ensures ProductTable(db.products, db.nextProductId)
    ensures var spec := CreateEntry(old(db.State()), supplierId, items, pagado, metodoPago, now);
      && (spec.Err? ==> r == Err(spec.error) && db.State() == old(db.State()))
      && (spec.Ok? ==> r == Ok(spec.value.entry) && db.State() == Apply(old(db.State()), spec.value))
  {
    EntryKeepsProductTable(db.State(), supplierId, items, pagado, metodoPago, now);
    r := EntrySession(db, supplierId, items, pagado, metodoPago, now);
  }

  /** The session of `crear_entrada`: the checks, the lines and the entry in a unit of work, committed only on success. */
  method EntrySession(db: Database, supplierId: int, items: seq<EntryItem>, pagado: bool, metodoPago: string, now: int)
    returns (r: Result<Entry>)
    modifies db
    ensures var spec := CreateEntry(old(db.State()), supplierId, items, pagado, metodoPago, now);
      && (spec.Err? ==> r == Err(spec.error) && db.State() == old(db.State()))
      && (spec.Ok? ==> r == Ok(spec.value.entry) && db.State() == Apply(old(db.State()), spec.value))
  {
    ghost var spec := CreateEntry(db.State(), supplierId, items, pagado, metodoPago, now);
    if items == [] {
      return Err(EmptyItems);
    }
    var work := new Database.Begin(db);
    if supplierId !in work.suppliers {
      return Err(SupplierNotFound);
    }
    var supplier := work.suppliers[supplierId];
    if !supplier.activo {
      return Err(SupplierInactive);
    }
    ghost var s0 := work.State();
    var staged := AddLines(work, items);
    if staged.Err? {
      assert spec == Err(staged.error);
      return Err(staged.error);
    }
    assert work.State() == s0.(products := staged.value.products);
    var id := work.nextEntryId;
    assert spec == RecordEntry(s0.movements, s0.closures, id, supplierId, staged.value, pagado,
                               EntryConcept(id, supplier.nombre), EntryReference(id), PaymentNote(metodoPago), now);
    var p := WriteEntry(work, supplierId, staged.value, pagado, EntryConcept(id, supplier.nombre), EntryReference(id),
                        PaymentNote(metodoPago), now);
    assert spec == p;
    if p.Err? {
      return Err(p.error);
    }
    assert work.State() == Apply(s0, p.value);
    db.Commit(work);
    r := Ok(p.value.entry);
  }
}
