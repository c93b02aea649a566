/**
 * Sales (`crear_venta`, `anular_venta`, `eliminar_venta`). A sale takes
 * each line's quantity out of its product's stock, checking the stock as
 * already reduced by the earlier lines of the same sale; any refused line
 * rolls the whole sale back. A void puts the quantities back and marks the
 * sale, once; deleting a sale gives nothing back. Sales write no cash
 * movement.
 */
module Sales {
  import opened Schema
  import opened Text
  import opened Store
  import opened Products

  /** What the line loop has staged so far: the products as changed, the details, the running total. */
  datatype Staged = Staged(products: map<int, Product>, details: seq<SaleDetail>, total: real)

  /** The detail row of one line: quantity times price as subtotal. */
  function LineDetail(it: SaleItem): SaleDetail
  {
    SaleDetail(it.productId, it.cantidad, it.precioVenta, it.cantidad * it.precioVenta)
  }

  /** One turn of the line loop, with its checks in the source's order; the stock seen is the staged one. */
  function SellLine(st: Staged, it: SaleItem): Result<Staged>
  {
    if it.cantidad <= 0.0 then Err(NonPositiveQuantity)
    else if it.precioVenta < 0.0 then Err(NegativeSalePrice)
    else if it.productId !in st.products then Err(ProductNotFound(it.productId))
    else
      var p := st.products[it.productId];
      if !p.activo then Err(ProductInactive(p.nombre))
      else if p.stockActual < it.cantidad then Err(InsufficientStock(p.nombre, p.stockActual, it.cantidad))
      else
        var d := LineDetail(it);
        Ok(Staged(st.products[it.productId := p.(stockActual := p.stockActual - it.cantidad)],
                  st.details + [d],
                  st.total + d.subtotal))
  }

  /** The line loop run over `items` from the committed products; the first refused line stops it. */
  function SellLines(ps: map<int, Product>, items: seq<SaleItem>): (r: Result<Staged>)
    ensures r.Ok? ==> |r.value.details| == |items|
    decreases |items|
  {
    if items == [] then Ok(Staged(ps, [], 0.0))
    else
      match SellLines(ps, items[..|items| - 1])
      case Err(e) => Err(e)
      case Ok(st) => SellLine(st, items[|items| - 1])
  }

  /** The line loop moves stock only: every product stays, with its other columns as they were. */
  lemma {:induction false} LinesMoveOnlyStock(ps: map<int, Product>, items: seq<SaleItem>)
    ensures SellLines(ps, items).Ok? ==> OnlyStockChanged(ps, SellLines(ps, items).value.products)
    decreases |items|
  {
    if items != [] {
      var pre := items[..|items| - 1];
      LinesMoveOnlyStock(ps, pre);
      if SellLines(ps, items).Ok? {
        StockChangesCompose(ps, SellLines(ps, pre).value.products, SellLines(ps, items).value.products);
      }
    }
  }

  /** Once a prefix of the lines is refused, the whole sale is refused with the same error. */
  lemma {:induction false} RefusedPrefix(ps: map<int, Product>, items: seq<SaleItem>, k: nat)
    requires k <= |items| && SellLines(ps, items[..k]).Err?
    ensures SellLines(ps, items) == SellLines(ps, items[..k])
    decreases |items| - k
  {
    if k < |items| {
      var n := |items|;
      assert items[..n][..n - 1] == items[..n - 1];
      assert items[..n - 1][..k] == items[..k];
      RefusedPrefix(ps, items[..n - 1], k);
      assert items[..n] == items;
    } else {
      assert items[..k] == items;
    }
  }

  // ---------------------------------------------------------------------
  // Reference definitions: what a whole sale does, stated per product.
  // ---------------------------------------------------------------------

  /** The total quantity the lines take out of one product. */
  function SoldQuantity(items: seq<SaleItem>, pid: int): real
    decreases |items|
  {
    if items == [] then 0.0
    else
      var it := items[|items| - 1];
      SoldQuantity(items[..|items| - 1], pid) + (if it.productId == pid then it.cantidad else 0.0)
  }

  /** Every product with its stock lowered by what the lines take out of it. */
  function Depleted(ps: map<int, Product>, items: seq<SaleItem>): map<int, Product>
  {
    map pid | pid in ps :: ps[pid].(stockActual := ps[pid].stockActual - SoldQuantity(items, pid))
  }

  /** One detail per line, in line order. */
  function SaleDetails(items: seq<SaleItem>): (r: seq<SaleDetail>)
    ensures |r| == |items|
    decreases |items|
  {
    if items == [] then [] else SaleDetails(items[..|items| - 1]) + [LineDetail(items[|items| - 1])]
  }

  function SumSubtotals(ds: seq<SaleDetail>): real
    decreases |ds|
  {
    if ds == [] then 0.0 else SumSubtotals(ds[..|ds| - 1]) + ds[|ds| - 1].subtotal
  }

  /** The stock line i finds: the committed stock less what the earlier lines took of the same product. */
  function Available(ps: map<int, Product>, items: seq<SaleItem>, i: nat): real
    requires i < |items| && items[i].productId in ps
  {
    ps[items[i].productId].stockActual - SoldQuantity(items[..i], items[i].productId)
  }

  /** Line i passes every check, including the stock check against what the earlier lines left. */
  predicate LineFits(ps: map<int, Product>, items: seq<SaleItem>, i: nat)
    requires i < |items|
  {
    var it := items[i];
    it.cantidad > 0.0 && it.precioVenta >= 0.0 && it.productId in ps && ps[it.productId].activo
    && Available(ps, items, i) >= it.cantidad
  }

  /** The error a refused line raises: the first failing check. */
  function LineError(ps: map<int, Product>, items: seq<SaleItem>, i: nat): Error
    requires i < |items| && !LineFits(ps, items, i)
  {
    var it := items[i];
    if it.cantidad <= 0.0 then NonPositiveQuantity
    else if it.precioVenta < 0.0 then NegativeSalePrice
    else if it.productId !in ps then ProductNotFound(it.productId)
    else if !ps[it.productId].activo then ProductInactive(ps[it.productId].nombre)
    else InsufficientStock(ps[it.productId].nombre, Available(ps, items, i), it.cantidad)
  }

  /** Whether a line fits depends only on the lines before it. */
  lemma FitsInPrefix(ps: map<int, Product>, items: seq<SaleItem>, k: nat, i: nat)
    requires i < k <= |items|
    ensures LineFits(ps, items[..k], i) <==> LineFits(ps, items, i)
  {
    assert items[..k][..i] == items[..i];
  }

  /** The i-th detail is the i-th line's: the sale keeps the input order. */
  lemma {:induction false} DetailsFollowLines(items: seq<SaleItem>, i: nat)
    requires i < |items|
    ensures SaleDetails(items)[i] == LineDetail(items[i])
    decreases |items|
  {
    if i < |items| - 1 {
      DetailsFollowLines(items[..|items| - 1], i);
    }
  }

  /** One more line takes its quantity out of its product once more. */
  lemma DepletedStep(ps: map<int, Product>, items: seq<SaleItem>)
    requires items != [] && items[|items| - 1].productId in ps
    ensures var it, qs := items[|items| - 1], Depleted(ps, items[..|items| - 1]);
      Depleted(ps, items) == qs[it.productId := qs[it.productId].(stockActual := qs[it.productId].stockActual - it.cantidad)]
  {
  }

  /**
   * When every line fits the loop succeeds, and what it staged is the
   * reference: each product's stock lowered by the sum of its lines, the
   * details in line order, and the total as the sum of the subtotals.
   */
  lemma {:induction false} LinesSold(ps: map<int, Product>, items: seq<SaleItem>)
    requires forall i :: 0 <= i < |items| ==> LineFits(ps, items, i)
    ensures SellLines(ps, items) == Ok(Staged(Depleted(ps, items), SaleDetails(items), SumSubtotals(SaleDetails(items))))
    decreases |items|
  {
    if items == [] {
      assert Depleted(ps, items) == ps;
    } else {
      var pre := items[..|items| - 1];
      forall i | 0 <= i < |pre|
        ensures LineFits(ps, pre, i)
      {
        FitsInPrefix(ps, items, |items| - 1, i);
      }
      LinesSold(ps, pre);
      LineSold(ps, items);
    }
  }

  /** The inductive step of LinesSold: one more line that fits. */
  lemma LineSold(ps: map<int, Product>, items: seq<SaleItem>)
    requires items != [] && LineFits(ps, items, |items| - 1)
    requires var pre := items[..|items| - 1];
      SellLines(ps, pre) == Ok(Staged(Depleted(ps, pre), SaleDetails(pre), SumSubtotals(SaleDetails(pre))))
    ensures SellLines(ps, items) == Ok(Staged(Depleted(ps, items), SaleDetails(items), SumSubtotals(SaleDetails(items))))
  {
    var pre, it := items[..|items| - 1], items[|items| - 1];
    var st := Staged(Depleted(ps, pre), SaleDetails(pre), SumSubtotals(SaleDetails(pre)));
    assert SellLines(ps, items) == SellLine(st, it);
    var p := st.products[it.productId];
    assert p.activo && p.stockActual == Available(ps, items, |items| - 1);
    DepletedStep(ps, items);
    var ds := SaleDetails(items);
    assert ds == st.details + [LineDetail(it)];
    assert ds[..|ds| - 1] == st.details;
    assert SumSubtotals(ds) == st.total + LineDetail(it).subtotal;
  }

  /** The sale is refused with the error of its first line that does not fit. */
  lemma {:induction false} FirstRefusedLine(ps: map<int, Product>, items: seq<SaleItem>, i: nat)
    requires i < |items| && !LineFits(ps, items, i)
    requires forall j :: 0 <= j < i ==> LineFits(ps, items, j)
    ensures SellLines(ps, items) == Err(LineError(ps, items, i))
    decreases |items|
  {
    var n := |items|;
    var pre := items[..n - 1];
    if i == n - 1 {
      LastLineRefused(ps, items);
    } else {
      FitsInPrefix(ps, items, n - 1, i);
      forall j | 0 <= j < i
        ensures LineFits(ps, pre, j)
      {
        FitsInPrefix(ps, items, n - 1, j);
      }
      assert items[..n - 1][..i] == items[..i];
      FirstRefusedLine(ps, pre, i);
    }
  }

  /** The base case of FirstRefusedLine: every line but the last fits. */
  lemma LastLineRefused(ps: map<int, Product>, items: seq<SaleItem>)
    requires items != [] && !LineFits(ps, items, |items| - 1)
    requires forall j :: 0 <= j < |items| - 1 ==> LineFits(ps, items, j)
    ensures SellLines(ps, items) == Err(LineError(ps, items, |items| - 1))
  {
    var n := |items|;
    var pre, it := items[..n - 1], items[n - 1];
    forall j | 0 <= j < |pre|
      ensures LineFits(ps, pre, j)
    {
      FitsInPrefix(ps, items, n - 1, j);
    }
    LinesSold(ps, pre);
    var st := SellLines(ps, pre).value;
    assert SellLines(ps, items) == SellLine(st, it);
    var qs := st.products;
    assert qs == Depleted(ps, pre);
    var pid := it.productId;
    assert pid in qs <==> pid in ps;
    assert pid in ps ==> qs[pid].activo == ps[pid].activo && qs[pid].nombre == ps[pid].nombre;
    assert pid in ps ==> qs[pid].stockActual == Available(ps, items, n - 1);
  }

  /** A sale goes through exactly when every line fits against the stock the earlier lines left. */
  lemma {:induction false} SaleSucceedsIff(ps: map<int, Product>, items: seq<SaleItem>)
    ensures SellLines(ps, items).Ok? <==> forall i :: 0 <= i < |items| ==> LineFits(ps, items, i)
    decreases |items|
  {
    if forall i :: 0 <= i < |items| ==> LineFits(ps, items, i) {
      LinesSold(ps, items);
    } else if items != [] {
      var n := |items|;
      var pre := items[..n - 1];
      forall j | 0 <= j < |pre|
        ensures LineFits(ps, pre, j) <==> LineFits(ps, items, j)
      {
        FitsInPrefix(ps, items, n - 1, j);
      }
      SaleSucceedsIff(ps, pre);
      if SellLines(ps, pre).Ok? {
        LastLineRefused(ps, items);
      } else {
        RefusedPrefix(ps, items, n - 1);
      }
    }
  }

  predicate NonNegativeStock(ps: map<int, Product>)
  {
    forall pid :: pid in ps ==> ps[pid].stockActual >= 0.0
  }

  /** A sale never drives a stock below zero: every line is checked against what is left. */
  lemma {:induction false} SaleKeepsStockNonNegative(ps: map<int, Product>, items: seq<SaleItem>)
    requires NonNegativeStock(ps)
    ensures SellLines(ps, items).Ok? ==> NonNegativeStock(SellLines(ps, items).value.products)
    decreases |items|
  {
    if items != [] {
      SaleKeepsStockNonNegative(ps, items[..|items| - 1]);
    }
  }

  /**
   * The same product on two lines: 5 in stock and two lines of 3 each.
   * Either line alone could be sold, but the second line sees the 2 the
   * first one left and the whole sale is refused.
   */
  lemma SameProductTwice()
    ensures var ps := map[1 := Product(1, "P-1", "Pan", "und", 1000.0, 0.0, 5.0, true)];
      var line := SaleItem(1, 3.0, 1000.0);
      && SellLines(ps, [line]).Ok?
      && SellLines(ps, [line, line]) == Err(InsufficientStock("Pan", 2.0, 3.0))
  {
    var ps := map[1 := Product(1, "P-1", "Pan", "und", 1000.0, 0.0, 5.0, true)];
    var line := SaleItem(1, 3.0, 1000.0);
    assert [line, line][..1] == [line];
    assert [line][..0] == [];
  }

  // ---------------------------------------------------------------------
  // Creating a sale.
  // ---------------------------------------------------------------------

  /** What a successful sale writes: the sale row and the products as depleted. */
  datatype Sold = Sold(sale: Sale, products: map<int, Product>)

  /** `crear_venta` on the committed products: an empty item list, then the lines. */
  function CreateSale(ps: map<int, Product>, nextSaleId: nat, items: seq<SaleItem>): (r: Result<Sold>)
    ensures r.Ok? ==>
      && items != []
      && r.value.sale.id == nextSaleId && !r.value.sale.anulada
      && |r.value.sale.details| == |items|
  {
    if items == [] then Err(EmptyItems)
    else
      match SellLines(ps, items)
      case Err(e) => Err(e)
      case Ok(st) => Ok(Sold(Sale(nextSaleId, st.details, st.total, false, None, None), st.products))
  }

  /**
   * The outcome of a sale in terms of the reference: refused when the list
   * is empty, otherwise exactly when some line does not fit, with that first
   * line's error; a success holds the details in line order, their summed
   * subtotals as total, an unvoided sale, and every product's stock lowered
   * by the sum of its lines.
   */
  lemma SaleOutcome(ps: map<int, Product>, nextSaleId: nat, items: seq<SaleItem>)
    ensures items == [] ==> CreateSale(ps, nextSaleId, items) == Err(EmptyItems)
    ensures items != [] ==>
      (CreateSale(ps, nextSaleId, items).Ok? <==> forall i :: 0 <= i < |items| ==> LineFits(ps, items, i))
    ensures CreateSale(ps, nextSaleId, items).Ok? ==>
      CreateSale(ps, nextSaleId, items).value ==
        Sold(Sale(nextSaleId, SaleDetails(items), SumSubtotals(SaleDetails(items)), false, None, None), Depleted(ps, items))
  {
    SaleSucceedsIff(ps, items);
    if CreateSale(ps, nextSaleId, items).Ok? {
      LinesSold(ps, items);
    }
  }

  /** The line loop of `crear_venta`, changing the products of the unit of work in place. */
  method TakeLines(work: Database, items: seq<SaleItem>) returns (r: Result<Staged>)
    modifies work`products
    ensures r == SellLines(old(work.products), items)
    ensures r.Ok? ==> work.products == r.value.products
  {
    var details: seq<SaleDetail> := [];
    var total := 0.0;
    var i := 0;
    while i < |items|
      invariant 0 <= i <= |items|
      invariant SellLines(old(work.products), items[..i]) == Ok(Staged(work.products, details, total))
    {
      var it := items[i];
      assert items[..i + 1][..i] == items[..i];
      if it.cantidad <= 0.0 {
        r := Err(NonPositiveQuantity);
        RefusedPrefix(old(work.products), items, i + 1);
        return;
      }
      if it.precioVenta < 0.0 {
        r := Err(NegativeSalePrice);
        RefusedPrefix(old(work.products), items, i + 1);
        return;
      }
      if it.productId !in work.products {
        r := Err(ProductNotFound(it.productId));
        RefusedPrefix(old(work.products), items, i + 1);
        return;
      }
      var p := work.products[it.productId];
      if !p.activo {
        r := Err(ProductInactive(p.nombre));
        RefusedPrefix(old(work.products), items, i + 1);
        return;
      }
      var stock := p.stockActual;
      if stock < it.cantidad {
        r := Err(InsufficientStock(p.nombre, stock, it.cantidad));
        RefusedPrefix(old(work.products), items, i + 1);
        return;
      }
      var subtotal := it.cantidad * it.precioVenta;
      assert SaleDetail(it.productId, it.cantidad, it.precioVenta, subtotal) == LineDetail(it);
      ghost var next := Staged(work.products[it.productId := p.(stockActual := stock - it.cantidad)],
                               details + [LineDetail(it)], total + subtotal);
      assert items[..i + 1][i] == it;
      assert SellLine(Staged(work.products, details, total), it) == Ok(next);
      assert SellLines(old(work.products), items[..i + 1]) == Ok(next);
      details := details + [SaleDetail(it.productId, it.cantidad, it.precioVenta, subtotal)];
      work.products := work.products[it.productId := p.(stockActual := stock - it.cantidad)];
      total := total + subtotal;
      i := i + 1;
    }
    assert items[..i] == items;
    r := Ok(Staged(work.products, details, total));
  }

  /**
   * `crear_venta`: on success the committed store gains the sale under the
   * next sale id and the depleted products, and nothing else; on any
   * refusal nothing is committed.
   */
  method CrearVenta(db: Database, items: seq<SaleItem>) returns (r: Result<Sale>)
    requires ProductTable(db.products, db.nextProductId)
    modifies db
    ensures ProductTable(db.products, db.nextProductId)
    ensures var spec := CreateSale(old(db.products), old(db.nextSaleId), items);
      && (spec.Err? ==> r == Err(spec.error) && db.State() == old(db.State()))
      && (spec.Ok? ==>
        && r == Ok(spec.value.sale)
        && db.State() == old(db.State()).(
             products := spec.value.products,
             sales := old(db.sales)[spec.value.sale.id := spec.value.sale],
             nextSaleId := old(db.nextSaleId) + 1))
  {
    if items == [] {
      return Err(EmptyItems);
    }
    var work := new Database.Begin(db);
    ghost var s0 := work.State();
    var staged := TakeLines(work, items);
    if staged.Err? {
      return Err(staged.error);
    }
    var id := work.nextSaleId;
    var sale := Sale(id, staged.value.details, staged.value.total, false, None, None);
    work.sales, work.nextSaleId := work.sales[id := sale], id + 1;
    assert work.State() == s0.(products := staged.value.products, sales := s0.sales[id := sale], nextSaleId := id + 1);
    LinesMoveOnlyStock(s0.products, items);
    StockChangeKeepsTable(s0.products, work.products, work.nextProductId);
    db.Commit(work);
    r := Ok(sale);
  }

  // ---------------------------------------------------------------------
  // Voiding and deleting a sale.
  // ---------------------------------------------------------------------

  /** The loop of `anular_venta`: each detail's quantity goes back to its product, when the product still exists. */
  function Restore(ps: map<int, Product>, ds: seq<SaleDetail>): (r: map<int, Product>)
    ensures r.Keys == ps.Keys
    decreases |ds|
  {
    if ds == [] then ps
    else
      var qs := Restore(ps, ds[..|ds| - 1]);
      var d := ds[|ds| - 1];
      if d.productId in qs then qs[d.productId := qs[d.productId].(stockActual := qs[d.productId].stockActual + d.cantidad)]
      else qs
  }

  /** Restoring moves stock only: every product stays, with its other columns as they were. */
  lemma RestoreMovesOnlyStock(ps: map<int, Product>, ds: seq<SaleDetail>)
    ensures OnlyStockChanged(ps, Restore(ps, ds))
  {
    RestoreAdds(ps, ds);
  }

  /** The total quantity the details give back to one product. */
  function ReturnedQuantity(ds: seq<SaleDetail>, pid: int): real
    decreases |ds|
  {
    if ds == [] then 0.0
    else
      var d := ds[|ds| - 1];
      ReturnedQuantity(ds[..|ds| - 1], pid) + (if d.productId == pid then d.cantidad else 0.0)
  }

  /** Restoring gives each existing product back the sum of its details, and touches no other key. */
  lemma {:induction false} RestoreAdds(ps: map<int, Product>, ds: seq<SaleDetail>)
    ensures Restore(ps, ds) == map pid | pid in ps :: ps[pid].(stockActual := ps[pid].stockActual + ReturnedQuantity(ds, pid))
    decreases |ds|
  {
    if ds != [] {
      RestoreAdds(ps, ds[..|ds| - 1]);
    } else {
      assert Restore(ps, ds) == ps;
    }
  }

  /** The details of a sale give back exactly what its lines took. */
  lemma {:induction false} ReturnedIsSold(items: seq<SaleItem>, pid: int)
    ensures ReturnedQuantity(SaleDetails(items), pid) == SoldQuantity(items, pid)
    decreases |items|
  {
    if items != [] {
      var ds := SaleDetails(items);
      assert ds[..|ds| - 1] == SaleDetails(items[..|items| - 1]);
      ReturnedIsSold(items[..|items| - 1], pid);
    }
  }

  /** What a successful void writes: the sale as voided and the products as restored. */
  datatype Voided = Voided(sale: Sale, products: map<int, Product>)

  /**
   * `anular_venta` at wall-clock time `now`: an unknown sale, then an
   * already voided one, is refused; otherwise the stock comes back, the
   * sale is marked voided with the stripped reason (None when blank) and
   * the time.
   */
  function VoidSale(sales: map<int, Sale>, ps: map<int, Product>, id: int, motivo: string, now: int): (r: Result<Voided>)
    ensures id !in sales ==> r == Err(SaleNotFound)
    ensures r.Ok? <==> id in sales && !sales[id].anulada
    ensures r.Ok? ==>
      && r.value.sale.id == sales[id].id && r.value.sale.details == sales[id].details
      && r.value.sale.total == sales[id].total
      && r.value.sale.anulada && r.value.sale.anuladaEn == Some(now)
      && OnlyStockChanged(ps, r.value.products)
  {
    RestoreMovesOnlyStock(ps, if id in sales then sales[id].details else []);
    if id !in sales then Err(SaleNotFound)
    else if sales[id].anulada then Err(AlreadyVoided)
    else Ok(Voided(sales[id].(anulada := true, motivoAnulacion := OrNone(motivo), anuladaEn := Some(now)),
                   Restore(ps, sales[id].details)))
  }

  /** Voiding is terminal: once a void went through, every later void of that sale is refused. */
  lemma VoidOnlyOnce(sales: map<int, Sale>, ps: map<int, Product>, id: int, motivo: string, now: int, motivo2: string, later: int)
    requires VoidSale(sales, ps, id, motivo, now).Ok?
    ensures var v := VoidSale(sales, ps, id, motivo, now).value;
      VoidSale(sales[id := v.sale], v.products, id, motivo2, later) == Err(AlreadyVoided)
  {
  }

  /**
   * Selling and then voiding that sale puts every product back as it was,
   * and leaves the sale recorded as voided.
   */
  lemma VoidUndoesSale(ps: map<int, Product>, sales: map<int, Sale>, nextSaleId: nat, items: seq<SaleItem>, motivo: string, now: int)
    requires CreateSale(ps, nextSaleId, items).Ok?
    ensures var sold := CreateSale(ps, nextSaleId, items).value;
      var v := VoidSale(sales[nextSaleId := sold.sale], sold.products, nextSaleId, motivo, now);
      && v.Ok?
      && v.value.products == ps
      && v.value.sale.anulada && v.value.sale.details == sold.sale.details
  {
    SaleOutcome(ps, nextSaleId, items);
    RestoreUndoesDepleted(ps, items);
  }

  /** Giving back the details of the lines undoes taking the lines out of the stock. */
  lemma RestoreUndoesDepleted(ps: map<int, Product>, items: seq<SaleItem>)
    ensures Restore(Depleted(ps, items), SaleDetails(items)) == ps
  {
    var back := Restore(Depleted(ps, items), SaleDetails(items));
    RestoreAdds(Depleted(ps, items), SaleDetails(items));
    forall pid | pid in ps
      ensures back[pid] == ps[pid]
    {
      ReturnedIsSold(items, pid);
    }
  }

  /** The void loop of `anular_venta`, changing the products in place. */
  method ReturnLines(db: Database, ds: seq<SaleDetail>)
    modifies db`products
    ensures db.products == Restore(old(db.products), ds)
  {
    var i := 0;
    while i < |ds|
      invariant 0 <= i <= |ds|
      invariant db.products == Restore(old(db.products), ds[..i])
    {
      var d := ds[i];
      assert ds[..i + 1][..i] == ds[..i];
      if d.productId in db.products {
        var p := db.products[d.productId];
        db.products := db.products[d.productId := p.(stockActual := p.stockActual + d.cantidad)];
      }
      i := i + 1;
    }
    assert ds[..i] == ds;
  }

  /**
   * `anular_venta`: the checks come before any change and nothing after
   * them can fail, so the unit of work is the store itself.
   */
  method AnularVenta(db: Database, id: int, motivo: string, now: int) returns (r: Result<Sale>)
    requires ProductTable(db.products, db.nextProductId)
    modifies db`products, db`sales
    ensures ProductTable(db.products, db.nextProductId)
    ensures var spec := VoidSale(old(db.sales), old(db.products), id, motivo, now);
      && (spec.Err? ==> r == Err(spec.error) && db.products == old(db.products) && db.sales == old(db.sales))
      && (spec.Ok? ==>
        && r == Ok(spec.value.sale)
        && db.products == spec.value.products
        && db.sales == old(db.sales)[id := spec.value.sale])
  {
    if id !in db.sales {
      return Err(SaleNotFound);
    }
    var sale := db.sales[id];
    if sale.anulada {
      return Err(AlreadyVoided);
    }
    ReturnLines(db, sale.details);
    RestoreMovesOnlyStock(old(db.products), sale.details);
    StockChangeKeepsTable(old(db.products), db.products, db.nextProductId);
    sale := sale.(anulada := true, motivoAnulacion := OrNone(motivo), anuladaEn := Some(now));
    db.sales := db.sales[id := sale];
    r := Ok(sale);
  }

  /** `eliminar_venta`: removes the sale row and its details; no stock is given back. */
  method EliminarVenta(db: Database, id: int) returns (r: Result<()>)
    requires ProductTable(db.products, db.nextProductId)
    modifies db`sales
    ensures ProductTable(db.products, db.nextProductId)
    ensures id !in old(db.sales) ==> r == Err(SaleNotFound) && db.sales == old(db.sales)
    ensures id in old(db.sales) ==> r == Ok(()) && db.sales == old(db.sales) - {id}
    ensures db.products == old(db.products)
  {
    if id !in db.sales {
      return Err(SaleNotFound);
    }
    db.sales := db.sales - {id};
    r := Ok(());
  }

  /** A deleted sale can no longer be voided, so its stock can no longer come back. */
  lemma DeletedSaleCannotBeVoided(sales: map<int, Sale>, ps: map<int, Product>, id: int, motivo: string, now: int)
    ensures VoidSale(sales - {id}, ps, id, motivo, now) == Err(SaleNotFound)
  {
  }
}
