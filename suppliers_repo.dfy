/**
 * The supplier table. The NIT is meant to be unique, but the duplicate check
 * compares the NIT exactly as given while the row stores it stripped, so a
 * padded NIT slips past the check (NitCheckMissesPadding).
 */
module Suppliers {
  import opened Schema
  import opened Text
  import opened Tables
  import opened Store

  /** Python truthiness of an optional text: present and not "". */
  predicate Given(s: Option<string>)
  {
    s.Some? && s.value != []
  }

  /** Some supplier other than `except` stores exactly this NIT. */
  predicate NitTaken(ss: map<int, Supplier>, nit: string, except: Option<int>)
  {
    exists k :: k in ss && ss[k].nit == Some(nit) && (except.Some? ==> k != except.value)
  }

  /** `nit.strip() if nit else None`: a whitespace-only NIT is stored as "". */
  function StoredNit(nit: Option<string>): (r: Option<string>)
    ensures r.None? <==> !Given(nit)
    ensures r.Some? ==> r.value == Strip(nit.value) && IsStripped(r.value)
  {
    if Given(nit) then Some(Strip(nit.value)) else None
  }

  /** Each row stored under its own id, below the next id to hand out. */
  ghost predicate SupplierTable(ss: map<int, Supplier>, nextId: nat)
  {
    1 <= nextId && forall k :: k in ss ==> ss[k].id == k && 1 <= k < nextId
  }

  lemma InsertKeepsTable(ss: map<int, Supplier>, nextId: nat, s: Supplier)
    requires SupplierTable(ss, nextId) && s.id == nextId
    ensures nextId !in ss && SupplierTable(ss[nextId := s], nextId + 1)
  {
  }

  /**
   * `crear_proveedor`: a given NIT already stored verbatim is refused;
   * otherwise the row gets the next id, the stripped nombre, the stored
   * form of the NIT, telefono and direccion as given, and activo set.
   */
  function CreateSupplier(ss: map<int, Supplier>, nextId: nat, nombre: string, nit: Option<string>,
                          telefono: Option<string>, direccion: Option<string>): (r: Result<Supplier>)
    ensures r.Err? <==> Given(nit) && NitTaken(ss, nit.value, None)
    ensures r.Err? ==> r.error == DuplicateNit
    ensures r.Ok? ==>
      && r.value.id == nextId && r.value.activo
      && r.value.nombre == Strip(nombre) && r.value.nit == StoredNit(nit)
      && r.value.telefono == telefono && r.value.direccion == direccion
  {
    if Given(nit) && exists k :: k in ss && ss[k].nit == nit then Err(DuplicateNit)
    else Ok(Supplier(nextId, Strip(nombre), StoredNit(nit), telefono, direccion, true))
  }

  /** Inserts the supplier CreateSupplier gives; a refused create leaves the table alone. */
  method CrearProveedor(db: Database, nombre: string, nit: Option<string>,
                        telefono: Option<string>, direccion: Option<string>) returns (r: Result<Supplier>)
    requires SupplierTable(db.suppliers, db.nextSupplierId)
    modifies db`suppliers, db`nextSupplierId
    ensures SupplierTable(db.suppliers, db.nextSupplierId)
    ensures r == CreateSupplier(old(db.suppliers), old(db.nextSupplierId), nombre, nit, telefono, direccion)
    ensures r.Err? ==> db.suppliers == old(db.suppliers) && db.nextSupplierId == old(db.nextSupplierId)
    ensures r.Ok? ==>
      && old(db.nextSupplierId) !in old(db.suppliers)
      && db.suppliers == old(db.suppliers)[old(db.nextSupplierId) := r.value]
      && db.nextSupplierId == old(db.nextSupplierId) + 1
  {
    var ss, id := db.suppliers, db.nextSupplierId;
    r := CreateSupplier(ss, id, nombre, nit, telefono, direccion);
    if r.Ok? {
      InsertKeepsTable(ss, id, r.value);
      db.suppliers, db.nextSupplierId := ss[id := r.value], id + 1;
    }
  }

  /**
   * The duplicate check looks for the NIT as given, so " 900123" passes a
   * table holding "900123", and the new row then stores "900123" too.
   */
  lemma NitCheckMissesPadding()
    ensures var ss := map[1 := Supplier(1, "Lacteos", Some("900123"), None, None, true)];
      var r := CreateSupplier(ss, 2, "Otro", Some(" 900123"), None, None);
      && r.Ok? && r.value.nit == ss[1].nit
  {
    var ss := map[1 := Supplier(1, "Lacteos", Some("900123"), None, None, true)];
    assert !NitTaken(ss, " 900123", None) by {
      assert ss.Keys == {1};
    }
    assert Strip(" 900123") == "900123" by {
      StripPadded(" ", "900123");
      assert TrimEnd(" 900123") == " 900123";
    }
  }

  /**
   * `actualizar_proveedor`: an unknown id is refused, then a given NIT
   * stored verbatim by a different supplier; otherwise nombre, nit,
   * telefono and direccion are overwritten and activo is kept.
   */
  function UpdateSupplier(ss: map<int, Supplier>, id: int, nombre: string, nit: Option<string>,
                          telefono: Option<string>, direccion: Option<string>): (r: Result<Supplier>)
    ensures id !in ss ==> r == Err(SupplierNotFound)
    ensures id in ss && Given(nit) && NitTaken(ss, nit.value, Some(id)) ==> r == Err(DuplicateNit)
    ensures r.Ok? <==> id in ss && !(Given(nit) && NitTaken(ss, nit.value, Some(id)))
    ensures r.Ok? ==>
      && r.value.id == ss[id].id && r.value.activo == ss[id].activo
      && r.value.nombre == Strip(nombre) && r.value.nit == StoredNit(nit)
      && r.value.telefono == telefono && r.value.direccion == direccion
  {
    if id !in ss then Err(SupplierNotFound)
    else if Given(nit) && exists k :: k in ss && ss[k].nit == nit && k != id then Err(DuplicateNit)
    else Ok(ss[id].(nombre := Strip(nombre), nit := StoredNit(nit), telefono := telefono, direccion := direccion))
  }

  /** Writes the row UpdateSupplier gives; a refused update leaves the table alone. */
  method ActualizarProveedor(db: Database, id: int, nombre: string, nit: Option<string>,
                             telefono: Option<string>, direccion: Option<string>) returns (r: Result<Supplier>)
    requires SupplierTable(db.suppliers, db.nextSupplierId)
    modifies db`suppliers
    ensures SupplierTable(db.suppliers, db.nextSupplierId)
    ensures r == UpdateSupplier(old(db.suppliers), id, nombre, nit, telefono, direccion)
    ensures r.Err? ==> db.suppliers == old(db.suppliers)
    ensures r.Ok? ==> db.suppliers == old(db.suppliers)[id := r.value]
  {
    r := UpdateSupplier(db.suppliers, id, nombre, nit, telefono, direccion);
    if r.Ok? {
      db.suppliers := db.suppliers[id := r.value];
    }
  }

  /** A supplier may keep its own NIT on an update. */
  lemma UpdateKeepsOwnNit(ss: map<int, Supplier>, id: int, nombre: string)
    requires id in ss && ss[id].nit.Some?
    requires forall k :: k in ss && k != id ==> ss[k].nit != ss[id].nit
    ensures UpdateSupplier(ss, id, nombre, ss[id].nit, ss[id].telefono, ss[id].direccion).Ok?
  {
  }

  /** `desactivar_proveedor`: sets activo to False on an existing supplier. */
  method DesactivarProveedor(db: Database, id: int) returns (r: Result<()>)
    requires SupplierTable(db.suppliers, db.nextSupplierId)
    modifies db`suppliers
    ensures SupplierTable(db.suppliers, db.nextSupplierId)
    ensures id !in old(db.suppliers) ==> r == Err(SupplierNotFound) && db.suppliers == old(db.suppliers)
    ensures id in old(db.suppliers) ==>
      && r == Ok(())
      && db.suppliers == old(db.suppliers)[id := old(db.suppliers)[id].(activo := false)]
    ensures id in old(db.suppliers) ==> db.suppliers[id := db.suppliers[id].(activo := false)] == db.suppliers
  {
    if id !in db.suppliers {
      return Err(SupplierNotFound);
    }
    db.suppliers := db.suppliers[id := db.suppliers[id].(activo := false)];
    r := Ok(());
  }

  /** `cambiar_estado_proveedor`: negates activo of an existing supplier. */
  method CambiarEstadoProveedor(db: Database, id: int) returns (r: Result<()>)
    requires SupplierTable(db.suppliers, db.nextSupplierId)
    modifies db`suppliers
    ensures SupplierTable(db.suppliers, db.nextSupplierId)
    ensures id !in old(db.suppliers) ==> r == Err(SupplierNotFound) && db.suppliers == old(db.suppliers)
    ensures id in old(db.suppliers) ==>
      && r == Ok(())
      && db.suppliers == old(db.suppliers)[id := old(db.suppliers)[id].(activo := !old(db.suppliers)[id].activo)]
    ensures id in old(db.suppliers) ==>
      db.suppliers[id := db.suppliers[id].(activo := !db.suppliers[id].activo)] == old(db.suppliers)
  {
    if id !in db.suppliers {
      return Err(SupplierNotFound);
    }
    db.suppliers := db.suppliers[id := db.suppliers[id].(activo := !db.suppliers[id].activo)];
    SupplierSwitches(old(db.suppliers), id);
    r := Ok(());
  }

  /**
   * On the supplier table: switching a supplier twice gives back the table
   * it started from, and deactivating twice leaves it as deactivating once.
   */
  lemma {:induction false} SupplierSwitches(ss: map<int, Supplier>, id: int)
    requires id in ss
    ensures var once := ss[id := ss[id].(activo := !ss[id].activo)];
      once[id := once[id].(activo := !once[id].activo)] == ss
    ensures var off := ss[id := ss[id].(activo := false)];
      off[id := off[id].(activo := false)] == off
  {
    var once := ss[id := ss[id].(activo := !ss[id].activo)];
    assert once[id].(activo := !once[id].activo) == ss[id];
  }

  /** The filters of listar_proveedores; `texto` is used as given, and a NULL nit never matches. */
  predicate SupplierMatches(s: Supplier, texto: string, incluirInactivos: bool)
  {
    && (incluirInactivos || s.activo)
    && (texto != [] ==> ILike(s.nombre, texto) || (s.nit.Some? && ILike(s.nit.value, texto)))
  }

  /**
   * `listar_proveedores(texto, incluir_inactivos)`: the suppliers passing
   * the filters, every one of them, by id descending.
   */
  function ListarProveedores(ss: map<int, Supplier>, nextId: nat, texto: string, incluirInactivos: bool): (r: seq<Supplier>)
    ensures forall i :: 0 <= i < |r| ==> r[i] in ss.Values && SupplierMatches(r[i], texto, incluirInactivos)
    ensures forall k :: k in ss && 1 <= k < nextId && SupplierMatches(ss[k], texto, incluirInactivos) ==> ss[k] in r
    ensures (forall k :: k in ss ==> ss[k].id == k) ==> forall i, j :: 0 <= i < j < |r| ==> r[i].id > r[j].id
  {
    var ids := KeepIds(ss, IdsBelow(ss, nextId), s => SupplierMatches(s, texto, incluirInactivos));
    var r := Rows(ss, ids);
    assert forall i :: 0 <= i < |ids| ==> ids[i] in ids;
    assert forall k :: k in ids ==> exists i :: 0 <= i < |ids| && ids[i] == k && r[i] == ss[k];
    r
  }

  /** Only active suppliers are listed when inactive ones are excluded, and a blank text filters nothing else. */
  lemma ListingOfActive(ss: map<int, Supplier>, nextId: nat)
    requires SupplierTable(ss, nextId)
    ensures forall k :: k in ss ==> (ss[k] in ListarProveedores(ss, nextId, "", false) <==> ss[k].activo)
  {
  }
}
