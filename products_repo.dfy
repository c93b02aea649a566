/**
 * The product table: codigo is unique, products are never deleted (only
 * switched off through activo), and stock_actual is left to purchases and
 * sales.
 */
module Products {
  import opened Schema
  import opened Text
  import opened Tables
  import opened Store

  /**
   * `_to_float(value, default)` with the textual input already read as a
   * number: `None` stands for both None and "".
   */
  function ToFloat(value: Option<real>, default: real): (r: real)
    ensures value.None? ==> r == default
    ensures value.Some? ==> r == value.value
  {
    match value
    case None => default
    case Some(x) => x
  }

  /** The five columns a create or an update writes. */
  datatype ProductFields = ProductFields(codigo: string, nombre: string, unidad: string, precioVenta: real, stockMinimo: real)

  /** `(unidad or "und").strip() or "und"` */
  function UnitOrDefault(unidad: string): (r: string)
    ensures r != [] && IsStripped(r)
    ensures AllSpace(unidad) ==> r == "und"
    ensures !AllSpace(unidad) ==> r == Strip(unidad)
  {
    StripBlank(unidad);
    var u := Strip(unidad);
    if u == [] then "und" else u
  }

  /**
   * The validation shared by crear_producto and actualizar_producto, in its
   * order: codigo and nombre must not be blank, then precio_venta and then
   * stock_minimo must not be negative.
   */
  function ValidateProduct(codigo: string, nombre: string, unidad: string,
                           precioVenta: Option<real>, stockMinimo: Option<real>): (r: Result<ProductFields>)
    ensures AllSpace(codigo) || AllSpace(nombre) ==> r == Err(MissingCodeOrName)
    ensures !AllSpace(codigo) && !AllSpace(nombre) && ToFloat(precioVenta, 0.0) < 0.0 ==> r == Err(NegativeSalePrice)
    ensures !AllSpace(codigo) && !AllSpace(nombre) && ToFloat(precioVenta, 0.0) >= 0.0 && ToFloat(stockMinimo, 0.0) < 0.0
      ==> r == Err(NegativeMinimumStock)
    ensures r.Ok? <==> !AllSpace(codigo) && !AllSpace(nombre) && ToFloat(precioVenta, 0.0) >= 0.0 && ToFloat(stockMinimo, 0.0) >= 0.0
    ensures r.Ok? ==>
      && r.value.codigo == Strip(codigo) && r.value.nombre == Strip(nombre)
      && r.value.codigo != [] && r.value.nombre != []
      && r.value.unidad == UnitOrDefault(unidad)
      && r.value.precioVenta == ToFloat(precioVenta, 0.0) >= 0.0
      && r.value.stockMinimo == ToFloat(stockMinimo, 0.0) >= 0.0
  {
    StripBlank(codigo);
    StripBlank(nombre);
    var c := Strip(codigo);
    var n := Strip(nombre);
    var precio := ToFloat(precioVenta, 0.0);
    var minimo := ToFloat(stockMinimo, 0.0);
    if c == [] || n == [] then Err(MissingCodeOrName)
    else if precio < 0.0 then Err(NegativeSalePrice)
    else if minimo < 0.0 then Err(NegativeMinimumStock)
    else Ok(ProductFields(c, n, UnitOrDefault(unidad), precio, minimo))
  }

  /** Some product other than `except` already has this codigo. */
  predicate CodigoTaken(ps: map<int, Product>, codigo: string, except: Option<int>)
  {
    exists k :: k in ps && ps[k].codigo == codigo && (except.Some? ==> k != except.value)
  }

  /**
   * The table's invariant: each row is stored under its own id, below the
   * next id to hand out, with a non-blank stripped codigo that no other row has.
   */
  ghost predicate ProductTable(ps: map<int, Product>, nextId: nat)
  {
    && 1 <= nextId
    && (forall k :: k in ps ==> ps[k].id == k && 1 <= k < nextId)
    && (forall k :: k in ps ==> ps[k].codigo != [] && IsStripped(ps[k].codigo))
    && (forall a, b :: a in ps && b in ps && ps[a].codigo == ps[b].codigo ==> a == b)
  }

  /**
   * `qs` holds the same products as `ps`, each differing from its old row in
   * stock_actual at most: what entries, sales and voids do to the table.
   */
  predicate OnlyStockChanged(ps: map<int, Product>, qs: map<int, Product>)
  {
    && qs.Keys == ps.Keys
    && forall k :: k in ps ==> qs[k] == ps[k].(stockActual := qs[k].stockActual)
  }

  /** Changing stock only, one step after another, is still changing stock only. */
  lemma StockChangesCompose(ps: map<int, Product>, qs: map<int, Product>, rs: map<int, Product>)
    requires OnlyStockChanged(ps, qs) && OnlyStockChanged(qs, rs)
    ensures OnlyStockChanged(ps, rs)
  {
  }

  /** Moving stock keeps the table's invariant: ids, codigos and their uniqueness are untouched. */
  lemma StockChangeKeepsTable(ps: map<int, Product>, qs: map<int, Product>, nextId: nat)
    requires ProductTable(ps, nextId) && OnlyStockChanged(ps, qs)
    ensures ProductTable(qs, nextId)
  {
    forall a, b | a in qs && b in qs && qs[a].codigo == qs[b].codigo
      ensures a == b
    {
      assert ps[a].codigo == qs[a].codigo && ps[b].codigo == qs[b].codigo;
    }
  }

  /** The row crear_producto inserts: no stock yet, and active. */
  function NewProduct(id: int, f: ProductFields): (p: Product)
    ensures p.id == id && p.stockActual == 0.0 && p.activo
    ensures p.codigo == f.codigo && p.nombre == f.nombre && p.unidad == f.unidad
    ensures p.precioVenta == f.precioVenta && p.stockMinimo == f.stockMinimo
  {
    Product(id, f.codigo, f.nombre, f.unidad, f.precioVenta, f.stockMinimo, 0.0, true)
  }

  /**
   * `crear_producto`: validates, refuses a codigo already in the table, and
   * otherwise gives the row to insert under the next id.
   */
  function CreateProduct(ps: map<int, Product>, nextId: nat, codigo: string, nombre: string, unidad: string,
                         precioVenta: Option<real>, stockMinimo: Option<real>): (r: Result<Product>)
    ensures var v := ValidateProduct(codigo, nombre, unidad, precioVenta, stockMinimo);
      && (v.Err? ==> r == Err(v.error))
      && (v.Ok? && CodigoTaken(ps, v.value.codigo, None) ==> r == Err(DuplicateCode(v.value.codigo)))
      && (r.Ok? <==> v.Ok? && !CodigoTaken(ps, v.value.codigo, None))
      && (r.Ok? ==> r.value == NewProduct(nextId, v.value))
  {
    var v := ValidateProduct(codigo, nombre, unidad, precioVenta, stockMinimo);
    if v.Err? then Err(v.error)
    else if exists k :: k in ps && ps[k].codigo == v.value.codigo then Err(DuplicateCode(v.value.codigo))
    else Ok(NewProduct(nextId, v.value))
  }

  /** A new row under the next id with a codigo nobody has keeps the table valid. */
  lemma InsertKeepsTable(ps: map<int, Product>, nextId: nat, p: Product)
    requires ProductTable(ps, nextId)
    requires p.id == nextId && p.codigo != [] && IsStripped(p.codigo)
    requires !CodigoTaken(ps, p.codigo, None)
    ensures nextId !in ps && ProductTable(ps[nextId := p], nextId + 1)
  {
    var ps' := ps[nextId := p];
    forall a, b | a in ps' && b in ps' && ps'[a].codigo == ps'[b].codigo ensures a == b {
      if a != nextId && b != nextId {
        assert ps[a].codigo == ps[b].codigo;
      }
    }
  }

  /** Inserts the product CreateProduct gives; a refused create leaves the table alone. */
  method CrearProducto(db: Database, codigo: string, nombre: string, unidad: string,
                       precioVenta: Option<real>, stockMinimo: Option<real>) returns (r: Result<Product>)
    requires ProductTable(db.products, db.nextProductId)
    modifies db`products, db`nextProductId
    ensures ProductTable(db.products, db.nextProductId)
    ensures r == CreateProduct(old(db.products), old(db.nextProductId), codigo, nombre, unidad, precioVenta, stockMinimo)
    ensures r.Err? ==> db.products == old(db.products) && db.nextProductId == old(db.nextProductId)
    ensures r.Ok? ==>
      && old(db.nextProductId) !in old(db.products)
      && db.products == old(db.products)[old(db.nextProductId) := r.value]
      && db.nextProductId == old(db.nextProductId) + 1
  {
    var ps, id := db.products, db.nextProductId;
    r := CreateProduct(ps, id, codigo, nombre, unidad, precioVenta, stockMinimo);
    if r.Ok? {
      InsertKeepsTable(ps, id, r.value);
      db.products, db.nextProductId := ps[id := r.value], id + 1;
    }
  }

  /** The five columns an update writes; stock_actual, activo and the id stay. */
  function WithFields(p: Product, f: ProductFields): (q: Product)
    ensures q.id == p.id && q.stockActual == p.stockActual && q.activo == p.activo
    ensures q.codigo == f.codigo && q.nombre == f.nombre && q.unidad == f.unidad
    ensures q.precioVenta == f.precioVenta && q.stockMinimo == f.stockMinimo
  {
    p.(codigo := f.codigo, nombre := f.nombre, unidad := f.unidad, precioVenta := f.precioVenta, stockMinimo := f.stockMinimo)
  }

  /**
   * `actualizar_producto`: validation first, then the id lookup, then the
   * codigo check against the other products (a product may keep its own
   * codigo); the result is the updated row.
   */
  function UpdateProduct(ps: map<int, Product>, id: int, codigo: string, nombre: string, unidad: string,
                         precioVenta: Option<real>, stockMinimo: Option<real>): (r: Result<Product>)
    ensures var v := ValidateProduct(codigo, nombre, unidad, precioVenta, stockMinimo);
      && (v.Err? ==> r == Err(v.error))
      && (v.Ok? && id !in ps ==> r == Err(ProductNotFound(id)))
      && (v.Ok? && id in ps && CodigoTaken(ps, v.value.codigo, Some(id)) ==> r == Err(DuplicateCode(v.value.codigo)))
      && (r.Ok? <==> v.Ok? && id in ps && !CodigoTaken(ps, v.value.codigo, Some(id)))
      && (r.Ok? ==> r.value == WithFields(ps[id], v.value))
  {
    var v := ValidateProduct(codigo, nombre, unidad, precioVenta, stockMinimo);
    if v.Err? then Err(v.error)
    else if id !in ps then Err(ProductNotFound(id))
    else if exists k :: k in ps && ps[k].codigo == v.value.codigo && k != id then Err(DuplicateCode(v.value.codigo))
    else Ok(WithFields(ps[id], v.value))
  }

  /** Replacing a row by one with the same id and a codigo no other row has keeps the table valid. */
  lemma ReplaceKeepsTable(ps: map<int, Product>, nextId: nat, p: Product)
    requires ProductTable(ps, nextId)
    requires p.id in ps && p.codigo != [] && IsStripped(p.codigo)
    requires !CodigoTaken(ps, p.codigo, Some(p.id))
    ensures ProductTable(ps[p.id := p], nextId)
  {
    var ps' := ps[p.id := p];
    forall a, b | a in ps' && b in ps' && ps'[a].codigo == ps'[b].codigo ensures a == b {
      if a != p.id && b != p.id {
        assert ps[a].codigo == ps[b].codigo;
      }
    }
  }

  /** Writes the row UpdateProduct gives; a refused update leaves the table alone. */
  method ActualizarProducto(db: Database, id: int, codigo: string, nombre: string, unidad: string,
                            precioVenta: Option<real>, stockMinimo: Option<real>) returns (r: Result<Product>)
    requires ProductTable(db.products, db.nextProductId)
    modifies db`products
    ensures ProductTable(db.products, db.nextProductId)
    ensures r == UpdateProduct(old(db.products), id, codigo, nombre, unidad, precioVenta, stockMinimo)
    ensures r.Err? ==> db.products == old(db.products)
    ensures r.Ok? ==> db.products == old(db.products)[id := r.value]
  {
    r := UpdateProduct(db.products, id, codigo, nombre, unidad, precioVenta, stockMinimo);
    if r.Ok? {
      ReplaceKeepsTable(db.products, db.nextProductId, r.value);
      db.products := db.products[id := r.value];
    }
  }

  /** The product with activo negated and every other column as it was. */
  function Toggled(p: Product): (q: Product)
    ensures q.activo != p.activo
    ensures q.(activo := p.activo) == p
  {
    p.(activo := !p.activo)
  }

  /** Switching a product twice gives back the table it started from. */
  lemma {:induction false} ToggleTwice(ps: map<int, Product>, id: int)
    requires id in ps
    ensures var once := ps[id := Toggled(ps[id])];
      once[id := Toggled(once[id])] == ps
  {
    var once := ps[id := Toggled(ps[id])];
    assert Toggled(once[id]) == ps[id];
  }

  /** `cambiar_estado_producto`: negates activo of an existing product. */
  method CambiarEstadoProducto(db: Database, id: int) returns (r: Result<Product>)
    requires ProductTable(db.products, db.nextProductId)
    modifies db`products
    ensures ProductTable(db.products, db.nextProductId)
    ensures id !in old(db.products) ==> r == Err(ProductNotFound(id)) && db.products == old(db.products)
    ensures id in old(db.products) ==>
      && r == Ok(Toggled(old(db.products)[id]))
      && db.products == old(db.products)[id := r.value]
    ensures id in old(db.products) ==> db.products[id := Toggled(db.products[id])] == old(db.products)
  {
    if id !in db.products {
      return Err(ProductNotFound(id));
    }
    var p := Toggled(db.products[id]);
    db.products := db.products[id := p];
    ToggleTwice(old(db.products), id);
    r := Ok(p);
  }

  /** `desactivar_producto`: sets activo to False on an existing product, whatever it was. */
  method DesactivarProducto(db: Database, id: int) returns (r: Result<()>)
    requires ProductTable(db.products, db.nextProductId)
    modifies db`products
    ensures ProductTable(db.products, db.nextProductId)
    ensures id !in old(db.products) ==> r == Err(ProductNotFound(id)) && db.products == old(db.products)
    ensures id in old(db.products) ==>
      && r == Ok(())
      && db.products == old(db.products)[id := old(db.products)[id].(activo := false)]
    ensures id in old(db.products) ==> db.products[id := db.products[id].(activo := false)] == db.products
  {
    if id !in db.products {
      return Err(ProductNotFound(id));
    }
    db.products := db.products[id := db.products[id].(activo := false)];
    r := Ok(());
  }

  /** Deactivating twice leaves the table as deactivating once. */
  lemma DeactivateIdempotent(ps: map<int, Product>, id: int)
    requires id in ps
    ensures var once := ps[id := ps[id].(activo := false)];
      once[id := once[id].(activo := false)] == once
  {
  }

  /** `es_stock_bajo(p)`: only products with a positive minimum raise the alert, at or below that minimum. */
  predicate EsStockBajo(p: Product)
  {
    p.stockMinimo > 0.0 && p.stockActual <= p.stockMinimo
  }

  /** A sale only makes a low-stock product lower; a purchase that lifts stock above the minimum clears it. */
  lemma StockBajoMonotone(p: Product, q: real)
    requires q >= 0.0
    ensures EsStockBajo(p) ==> EsStockBajo(p.(stockActual := p.stockActual - q))
    ensures p.stockActual + q > p.stockMinimo ==> !EsStockBajo(p.(stockActual := p.stockActual + q))
  {
  }

  /** The filters of listar_productos, with `texto` already stripped. */
  predicate ProductMatches(p: Product, texto: string, incluirInactivos: bool)
  {
    && (incluirInactivos || p.activo)
    && (texto != [] ==> ILike(p.codigo, texto) || ILike(p.nombre, texto))
  }

  /**
   * `listar_productos(texto, incluir_inactivos)`: the products passing the
   * filters, every one of them, by id descending.
   */
  function ListarProductos(ps: map<int, Product>, nextId: nat, texto: string, incluirInactivos: bool): (r: seq<Product>)
    ensures forall i :: 0 <= i < |r| ==> r[i] in ps.Values && ProductMatches(r[i], Strip(texto), incluirInactivos)
    ensures forall k :: k in ps && 1 <= k < nextId && ProductMatches(ps[k], Strip(texto), incluirInactivos) ==> ps[k] in r
    ensures (forall k :: k in ps ==> ps[k].id == k) ==> forall i, j :: 0 <= i < j < |r| ==> r[i].id > r[j].id
  {
    var t := Strip(texto);
    var ids := KeepIds(ps, IdsBelow(ps, nextId), p => ProductMatches(p, t, incluirInactivos));
    var r := Rows(ps, ids);
    assert forall i :: 0 <= i < |ids| ==> ids[i] in ids;
    assert forall k :: k in ids ==> exists i :: 0 <= i < |ids| && ids[i] == k && r[i] == ps[k];
    r
  }

  /** With the table invariant the listing holds exactly the products that pass the filters. */
  lemma ListingCoversTable(ps: map<int, Product>, nextId: nat, texto: string, incluirInactivos: bool)
    requires ProductTable(ps, nextId)
    ensures forall k :: k in ps ==>
      (ps[k] in ListarProductos(ps, nextId, texto, incluirInactivos) <==> ProductMatches(ps[k], Strip(texto), incluirInactivos))
  {
  }
}
