/**
 * The three tables of server/index.js (`suppliers`, `supplier_products` and
 * `fiches`) and what its route handlers do to them. A table is a map from
 * primary key to row; the `UNIQUE` and `REFERENCES` constraints of the
 * `CREATE TABLE` statements are the invariant `Valid` of `Store`. Each
 * handler is specified by a function of the old tables (`SupplierPosted`,
 * `ProductPosted`, ...), and the lemmas state what the SQL promises about
 * those functions. `crypto.randomUUID()` and `new Date().toISOString()` are
 * the parameters `freshId` and `now`.
 */
module CatalogStore {
  import opened Wrappers
  import opened Fiche
  import Text

  /** What a handler answers: the row, 400, 404, or a rejected query (a violated key). */
  datatype Response<T> = Ok(value: T) | BadRequest | NotFound | DbError

  /** A handler's answer together with the table it leaves behind. */
  datatype Outcome<T> = Outcome(response: Response<T>, rows: map<string, T>)

  /** A row of `fiches`: the card itself is stored whole in `data`. */
  datatype FicheRow = FicheRow(id: string, title: string, data: FicheTechnique, createdAt: string, updatedAt: string)

  // ---------------------------------------------------------------------
  // The table constraints
  // ---------------------------------------------------------------------

  /** `id TEXT PRIMARY KEY`, `name TEXT UNIQUE NOT NULL`. */
  predicate SuppliersWellFormed(suppliers: map<string, Supplier>) {
    && (forall id :: id in suppliers ==> suppliers[id].id == id)
    && (forall a, b :: a in suppliers && b in suppliers && suppliers[a].name == suppliers[b].name ==> a == b)
  }

  /** `id TEXT PRIMARY KEY`, `supplier_id ... REFERENCES suppliers(id)`, `UNIQUE (supplier_id, name)`. */
  predicate ProductsWellFormed(products: map<string, SupplierProduct>, suppliers: map<string, Supplier>) {
    && (forall id :: id in products ==> products[id].id == id && products[id].supplierId in suppliers)
    && (forall a, b :: a in products && b in products && SameKey(products[a], products[b]) ==> a == b)
  }

  /** Two products under the key `(supplier_id, name)`. */
  predicate SameKey(p: SupplierProduct, q: SupplierProduct) {
    p.supplierId == q.supplierId && p.name == q.name
  }

  /** `id TEXT PRIMARY KEY` of `fiches`. */
  predicate FichesWellFormed(fiches: map<string, FicheRow>) {
    forall id :: id in fiches ==> fiches[id].id == id
  }

  // ---------------------------------------------------------------------
  // Lookups through the unique keys
  // ---------------------------------------------------------------------

  /** The key of the supplier called exactly `name`, if there is one. */
  ghost function SupplierNamed(suppliers: map<string, Supplier>, name: string): (r: Option<string>)
    ensures r.Some? ==> r.value in suppliers && suppliers[r.value].name == name
    ensures r.None? <==> forall id :: id in suppliers ==> suppliers[id].name != name
  {
    if exists id :: id in suppliers && suppliers[id].name == name then
      var id :| id in suppliers && suppliers[id].name == name;
      Some(id)
    else None
  }

  /** The key of the product `name` of supplier `supplierId`, if there is one. */
  ghost function ProductNamed(products: map<string, SupplierProduct>, supplierId: string, name: string): (r: Option<string>)
    ensures r.Some? ==> r.value in products && products[r.value].supplierId == supplierId && products[r.value].name == name
    ensures r.None? <==> forall id :: id in products ==> !(products[id].supplierId == supplierId && products[id].name == name)
  {
    if exists id :: id in products && products[id].supplierId == supplierId && products[id].name == name then
      var id :| id in products && products[id].supplierId == supplierId && products[id].name == name;
      Some(id)
    else None
  }

  /** Under the unique key, the supplier called `name` is the one found. */
  lemma SupplierNamedUnique(suppliers: map<string, Supplier>, name: string, id: string)
    requires SuppliersWellFormed(suppliers)
    requires id in suppliers && suppliers[id].name == name
    ensures SupplierNamed(suppliers, name) == Some(id)
  {
  }

  /** Under the unique key, the product `name` of `supplierId` is the one found. */
  lemma ProductNamedUnique(products: map<string, SupplierProduct>, suppliers: map<string, Supplier>,
                           supplierId: string, name: string, id: string)
    requires ProductsWellFormed(products, suppliers)
    requires id in products && products[id].supplierId == supplierId && products[id].name == name
    ensures ProductNamed(products, supplierId, name) == Some(id)
  {
  }

  // ---------------------------------------------------------------------
  // POST /api/suppliers
  // ---------------------------------------------------------------------

  /**
   * `INSERT INTO suppliers ... ON CONFLICT (name) DO UPDATE SET updated_at`:
   * a blank name is refused; an existing name only gets a new `updated_at`;
   * a new name is inserted under `freshId`, which must not be a key already.
   */
  ghost function SupplierPosted(suppliers: map<string, Supplier>, name: string, freshId: string, now: string): Outcome<Supplier> {
    var trimmed := Text.Trim(name);
    if trimmed == [] then Outcome(BadRequest, suppliers)
    else match SupplierNamed(suppliers, trimmed)
      case Some(id) =>
        var row := suppliers[id].(updatedAt := now);
        Outcome(Ok(row), suppliers[id := row])
      case None =>
        if freshId in suppliers then Outcome(DbError, suppliers)
        else
          var row := Supplier(freshId, trimmed, now, now);
          Outcome(Ok(row), suppliers[freshId := row])
  }

  /** A name that trims to nothing is refused with 400 and the table is unchanged. */
  lemma SupplierBlankRejected(suppliers: map<string, Supplier>, name: string, freshId: string, now: string)
    requires Text.Trim(name) == []
    ensures SupplierPosted(suppliers, name, freshId, now) == Outcome(BadRequest, suppliers)
  {
  }

  /**
   * Posting a name that is already there answers with that row, its id and
   * `created_at` kept; only its `updated_at` changes and no row is added.
   */
  lemma SupplierRepost(suppliers: map<string, Supplier>, name: string, freshId: string, now: string, id: string)
    requires SuppliersWellFormed(suppliers)
    requires Text.Trim(name) != [] && id in suppliers && suppliers[id].name == Text.Trim(name)
    ensures var out := SupplierPosted(suppliers, name, freshId, now);
      && out.response == Ok(Supplier(id, suppliers[id].name, suppliers[id].createdAt, now))
      && out.rows.Keys == suppliers.Keys
      && out.rows[id] == out.response.value
      && forall other :: other in suppliers && other != id ==> out.rows[other] == suppliers[other]
  {
    SupplierNamedUnique(suppliers, Text.Trim(name), id);
  }

  /**
   * Every accepted post leaves exactly one row with the trimmed name, the
   * one it answers with, and a new row, under the fresh id, only when the
   * name was new.
   */
  lemma SupplierPostedNamed(suppliers: map<string, Supplier>, name: string, freshId: string, now: string)
    requires SuppliersWellFormed(suppliers)
    ensures var out := SupplierPosted(suppliers, name, freshId, now);
      out.response.Ok? ==>
        && out.response.value.name == Text.Trim(name)
        && out.response.value.id in out.rows
        && out.rows[out.response.value.id] == out.response.value
        && (forall id :: id in out.rows && out.rows[id].name == Text.Trim(name) ==> id == out.response.value.id)
        && (out.rows.Keys == suppliers.Keys <==> SupplierNamed(suppliers, Text.Trim(name)).Some?)
        && (SupplierNamed(suppliers, Text.Trim(name)).None? ==>
              out.response.value.id == freshId && out.rows.Keys == suppliers.Keys + {freshId})
  {
  }

  /** Overwriting a row with one of the same id and name keeps the constraints. */
  lemma SupplierUpdateWellFormed(suppliers: map<string, Supplier>, id: string, row: Supplier)
    requires SuppliersWellFormed(suppliers)
    requires id in suppliers && row.id == id && row.name == suppliers[id].name
    ensures SuppliersWellFormed(suppliers[id := row])
  {
  }

  /** Adding a row under a new id and with a new name keeps the constraints. */
  lemma SupplierInsertWellFormed(suppliers: map<string, Supplier>, row: Supplier)
    requires SuppliersWellFormed(suppliers)
    requires row.id !in suppliers && forall id :: id in suppliers ==> suppliers[id].name != row.name
    ensures SuppliersWellFormed(suppliers[row.id := row])
  {
  }

  /** Supplier names stay pairwise distinct, and every row stays under its own id. */
  lemma SupplierPostedWellFormed(suppliers: map<string, Supplier>, name: string, freshId: string, now: string)
    requires SuppliersWellFormed(suppliers)
    ensures var out := SupplierPosted(suppliers, name, freshId, now);
      SuppliersWellFormed(out.rows) && suppliers.Keys <= out.rows.Keys
  {
    var trimmed := Text.Trim(name);
    if trimmed != [] {
      match SupplierNamed(suppliers, trimmed)
      case Some(id) =>
        SupplierUpdateWellFormed(suppliers, id, suppliers[id].(updatedAt := now));
      case None =>
        if freshId !in suppliers {
          SupplierInsertWellFormed(suppliers, Supplier(freshId, trimmed, now, now));
        }
    }
  }

  // ---------------------------------------------------------------------
  // POST /api/suppliers/:id/products
  // ---------------------------------------------------------------------

  /**
   * `INSERT INTO supplier_products ... ON CONFLICT (supplier_id, name) DO
   * UPDATE SET unit_price, unit, updated_at`: a blank name is refused; an
   * existing `(supplier_id, name)` keeps its id and takes the new price and
   * unit, absent ones included; otherwise a row is inserted under `freshId`,
   * which the foreign key and the primary key may reject.
   */
  ghost function ProductPosted(products: map<string, SupplierProduct>, suppliers: map<string, Supplier>,
                               supplierId: string, name: string, unitPrice: Option<real>, unit: Option<string>,
                               freshId: string, now: string): Outcome<SupplierProduct> {
    var trimmed := Text.Trim(name);
    if trimmed == [] then Outcome(BadRequest, products)
    else match ProductNamed(products, supplierId, trimmed)
      case Some(id) =>
        var row := products[id].(unitPrice := unitPrice, unit := unit, updatedAt := now);
        Outcome(Ok(row), products[id := row])
      case None =>
        if supplierId !in suppliers || freshId in products then Outcome(DbError, products)
        else
          var row := SupplierProduct(freshId, supplierId, trimmed, unitPrice, unit, now);
          Outcome(Ok(row), products[freshId := row])
  }

  /** A product name that trims to nothing is refused with 400 and the table is unchanged. */
  lemma ProductBlankRejected(products: map<string, SupplierProduct>, suppliers: map<string, Supplier>,
                             supplierId: string, name: string, unitPrice: Option<real>, unit: Option<string>,
                             freshId: string, now: string)
    requires Text.Trim(name) == []
    ensures ProductPosted(products, suppliers, supplierId, name, unitPrice, unit, freshId, now) == Outcome(BadRequest, products)
  {
  }

  /**
   * Posting an existing `(supplier_id, name)` keeps the row's id and
   * overwrites its price and unit with the posted ones, even when these are
   * absent; no other row changes and none is added.
   */
  lemma ProductRepost(products: map<string, SupplierProduct>, suppliers: map<string, Supplier>,
                      supplierId: string, name: string, unitPrice: Option<real>, unit: Option<string>,
                      freshId: string, now: string, id: string)
    requires ProductsWellFormed(products, suppliers)
    requires Text.Trim(name) != [] && id in products
    requires products[id].supplierId == supplierId && products[id].name == Text.Trim(name)
    ensures var out := ProductPosted(products, suppliers, supplierId, name, unitPrice, unit, freshId, now);
      && out.response == Ok(SupplierProduct(id, supplierId, products[id].name, unitPrice, unit, now))
      && out.rows.Keys == products.Keys
      && out.rows[id] == out.response.value
      && forall other :: other in products && other != id ==> out.rows[other] == products[other]
  {
    ProductNamedUnique(products, suppliers, supplierId, Text.Trim(name), id);
  }

  /** A new product for a supplier that is not in the table breaks the foreign key: nothing changes. */
  lemma ProductOfUnknownSupplier(products: map<string, SupplierProduct>, suppliers: map<string, Supplier>,
                                 supplierId: string, name: string, unitPrice: Option<real>, unit: Option<string>,
                                 freshId: string, now: string)
    requires ProductsWellFormed(products, suppliers)
    requires Text.Trim(name) != [] && supplierId !in suppliers
    ensures ProductPosted(products, suppliers, supplierId, name, unitPrice, unit, freshId, now) == Outcome(DbError, products)
  {
  }

  /** Overwriting a row with one of the same id and key keeps the constraints. */
  lemma ProductUpdateWellFormed(products: map<string, SupplierProduct>, suppliers: map<string, Supplier>,
                                id: string, row: SupplierProduct)
    requires ProductsWellFormed(products, suppliers)
    requires id in products && row.id == id && SameKey(row, products[id])
    ensures ProductsWellFormed(products[id := row], suppliers)
  {
    var rows := products[id := row];
    forall a, b | a in rows && b in rows && SameKey(rows[a], rows[b])
      ensures a == b
    {
      assert SameKey(products[a], products[b]);
    }
  }

  /** Adding a row under a new id, of a known supplier and with a new key, keeps the constraints. */
  lemma ProductInsertWellFormed(products: map<string, SupplierProduct>, suppliers: map<string, Supplier>,
                                row: SupplierProduct)
    requires ProductsWellFormed(products, suppliers)
    requires row.id !in products && row.supplierId in suppliers
    requires forall id :: id in products ==> !SameKey(products[id], row)
    ensures ProductsWellFormed(products[row.id := row], suppliers)
  {
  }

  /** The key `(supplier_id, name)` stays unique and every product keeps a supplier. */
  lemma ProductPostedWellFormed(products: map<string, SupplierProduct>, suppliers: map<string, Supplier>,
                                supplierId: string, name: string, unitPrice: Option<real>, unit: Option<string>,
                                freshId: string, now: string)
    requires ProductsWellFormed(products, suppliers)
    ensures var out := ProductPosted(products, suppliers, supplierId, name, unitPrice, unit, freshId, now);
      ProductsWellFormed(out.rows, suppliers) && products.Keys <= out.rows.Keys
  {
    var trimmed := Text.Trim(name);
    if trimmed != [] {
      match ProductNamed(products, supplierId, trimmed)
      case Some(id) =>
        ProductUpdateWellFormed(products, suppliers, id, products[id].(unitPrice := unitPrice, unit := unit, updatedAt := now));
      case None =>
        if supplierId in suppliers && freshId !in products {
          ProductInsertWellFormed(products, suppliers, SupplierProduct(freshId, supplierId, trimmed, unitPrice, unit, now));
        }
    }
  }

  /** Suppliers are never removed by a post, so the products keep their supplier. */
  lemma ProductsKeepSuppliers(products: map<string, SupplierProduct>, suppliers: map<string, Supplier>,
                              grown: map<string, Supplier>)
    requires ProductsWellFormed(products, suppliers) && suppliers.Keys <= grown.Keys
    ensures ProductsWellFormed(products, grown)
  {
  }

  // ---------------------------------------------------------------------
  // PUT and DELETE /api/suppliers/:id/products/:productId
  // ---------------------------------------------------------------------

  /** A row matches a product route when both its id and its supplier id do. */
  predicate Matches(products: map<string, SupplierProduct>, supplierId: string, productId: string) {
    productId in products && products[productId].supplierId == supplierId
  }

  /** `UPDATE supplier_products SET unit_price, unit, updated_at WHERE id AND supplier_id`, 404 when no row matches. */
  function ProductPut(products: map<string, SupplierProduct>, supplierId: string, productId: string,
                      unitPrice: Option<real>, unit: Option<string>, now: string): (out: Outcome<SupplierProduct>)
    ensures out.response.NotFound? <==> !Matches(products, supplierId, productId)
    ensures out.response.NotFound? ==> out.rows == products
    ensures out.response.Ok? ==>
      && out.response.value == products[productId].(unitPrice := unitPrice, unit := unit, updatedAt := now)
      && out.rows == products[productId := out.response.value]
  {
    if Matches(products, supplierId, productId) then
      var row := products[productId].(unitPrice := unitPrice, unit := unit, updatedAt := now);
      Outcome(Ok(row), products[productId := row])
    else Outcome(NotFound, products)
  }

  /** An update changes no key and no name, so the table stays well formed. */
  lemma ProductPutWellFormed(products: map<string, SupplierProduct>, suppliers: map<string, Supplier>,
                             supplierId: string, productId: string, unitPrice: Option<real>, unit: Option<string>, now: string)
    requires ProductsWellFormed(products, suppliers)
    ensures ProductsWellFormed(ProductPut(products, supplierId, productId, unitPrice, unit, now).rows, suppliers)
  {
  }

  /** `DELETE FROM supplier_products WHERE id AND supplier_id`. */
  function ProductDeleted(products: map<string, SupplierProduct>, supplierId: string, productId: string): map<string, SupplierProduct> {
    if Matches(products, supplierId, productId) then products - {productId} else products
  }

  /** Exactly the row matching both ids goes; every other row stays as it was. */
  lemma ProductDeletedRows(products: map<string, SupplierProduct>, supplierId: string, productId: string)
    ensures var rows := ProductDeleted(products, supplierId, productId);
      && (forall id :: id in rows <==> id in products && !(id == productId && products[id].supplierId == supplierId))
      && (forall id :: id in rows ==> rows[id] == products[id])
  {
  }

  lemma ProductDeletedWellFormed(products: map<string, SupplierProduct>, suppliers: map<string, Supplier>,
                                 supplierId: string, productId: string)
    requires ProductsWellFormed(products, suppliers)
    ensures ProductsWellFormed(ProductDeleted(products, supplierId, productId), suppliers)
  {
  }

  /** `SELECT ... FROM supplier_products WHERE supplier_id`: the rows of one supplier. */
  function ProductsOf(products: map<string, SupplierProduct>, supplierId: string): (r: map<string, SupplierProduct>)
    ensures forall id :: id in r <==> id in products && products[id].supplierId == supplierId
    ensures forall id :: id in r ==> r[id] == products[id]
  {
    map id | id in products && products[id].supplierId == supplierId :: products[id]
  }

  /** Within one supplier's rows, product names are distinct. */
  lemma ProductsOfNamesDistinct(products: map<string, SupplierProduct>, suppliers: map<string, Supplier>, supplierId: string)
    requires ProductsWellFormed(products, suppliers)
    ensures var r := ProductsOf(products, supplierId);
      forall a, b :: a in r && b in r && r[a].name == r[b].name ==> a == b
  {
  }

  // ---------------------------------------------------------------------
  // /api/fiches
  // ---------------------------------------------------------------------

  /** JavaScript's `s || fallback` on a string. */
  function OrElse(s: string, fallback: string): string {
    if s == [] then fallback else s
  }

  /**
   * `INSERT INTO fiches ... ON CONFLICT (id) DO UPDATE SET title, data,
   * updated_at`: a card with an empty id is refused (the table is returned
   * unchanged); another is stored under its id, keeping the row's
   * `created_at` when the id is there already.
   */
  function FicheSaved(fiches: map<string, FicheRow>, fiche: FicheTechnique, now: string): map<string, FicheRow> {
    if fiche.id == [] then fiches
    else
      var createdAt := if fiche.id in fiches then fiches[fiche.id].createdAt else OrElse(fiche.createdAt, now);
      fiches[fiche.id := FicheRow(fiche.id, fiche.title, fiche, createdAt, OrElse(fiche.updatedAt, now))]
  }

  /**
   * Saving a card again replaces its title, data and `updated_at` and
   * keeps its `created_at`; no other row changes.
   */
  lemma FicheResave(fiches: map<string, FicheRow>, fiche: FicheTechnique, now: string)
    requires fiche.id != [] && fiche.id in fiches
    ensures var rows := FicheSaved(fiches, fiche, now);
      && rows.Keys == fiches.Keys
      && rows[fiche.id].createdAt == fiches[fiche.id].createdAt
      && rows[fiche.id].title == fiche.title
      && rows[fiche.id].data == fiche
      && rows[fiche.id].updatedAt == OrElse(fiche.updatedAt, now)
      && forall id :: id in fiches && id != fiche.id ==> rows[id] == fiches[id]
  {
  }

  /** A first save takes the card's own timestamps, or `now` where they are empty. */
  lemma FicheFirstSave(fiches: map<string, FicheRow>, fiche: FicheTechnique, now: string)
    requires fiche.id != [] && fiche.id !in fiches
    ensures var rows := FicheSaved(fiches, fiche, now);
      && rows.Keys == fiches.Keys + {fiche.id}
      && rows[fiche.id] == FicheRow(fiche.id, fiche.title, fiche, OrElse(fiche.createdAt, now), OrElse(fiche.updatedAt, now))
      && (fiche.createdAt != [] ==> rows[fiche.id].createdAt == fiche.createdAt)
      && (fiche.createdAt == [] ==> rows[fiche.id].createdAt == now)
  {
  }

  /** The stored card is found again under its id, and a second identical save changes nothing. */
  lemma FicheSavedFound(fiches: map<string, FicheRow>, fiche: FicheTechnique, now: string)
    requires fiche.id != []
    ensures var rows := FicheSaved(fiches, fiche, now);
      && fiche.id in rows && rows[fiche.id].data == fiche
      && FicheSaved(rows, fiche, now) == rows
  {
  }

  lemma FicheSavedWellFormed(fiches: map<string, FicheRow>, fiche: FicheTechnique, now: string)
    requires FichesWellFormed(fiches)
    ensures FichesWellFormed(FicheSaved(fiches, fiche, now))
  {
  }

  /** `SELECT data FROM fiches WHERE id`, 404 when there is no such row. */
  function FicheData(fiches: map<string, FicheRow>, id: string): (r: Response<FicheTechnique>)
    ensures r.Ok? <==> id in fiches
    ensures r.Ok? ==> r.value == fiches[id].data
    ensures !r.Ok? ==> r == NotFound
  {
    if id in fiches then Ok(fiches[id].data) else NotFound
  }

  // ---------------------------------------------------------------------
  // The tables as one object
  // ---------------------------------------------------------------------

  /** The database: the three tables, changed in place by the handlers. */
  class Store {
    var suppliers: map<string, Supplier>
    var products: map<string, SupplierProduct>
    var fiches: map<string, FicheRow>

    /** The primary keys, the unique keys and the foreign key of the three tables. */
    ghost predicate Valid()
      reads this
    {
      SuppliersWellFormed(suppliers) && ProductsWellFormed(products, suppliers) && FichesWellFormed(fiches)
    }

    /** Empty tables, as `CREATE TABLE IF NOT EXISTS` leaves a new database. */
    constructor()
      ensures Valid()
      ensures suppliers == map[] && products == map[] && fiches == map[]
    {
      suppliers := map[];
      products := map[];
      fiches := map[];
    }

    /** The unique index on `suppliers.name`, searched row by row. */
    method FindSupplier(name: string) returns (r: Option<string>)
      requires Valid()
      ensures r == SupplierNamed(suppliers, name)
    {
      var keys := suppliers.Keys;
      while keys != {}
        invariant keys <= suppliers.Keys
        invariant forall id :: id in suppliers && id !in keys ==> suppliers[id].name != name
        decreases keys
      {
        var id :| id in keys;
        if suppliers[id].name == name {
          SupplierNamedUnique(suppliers, name, id);
          return Some(id);
        }
        keys := keys - {id};
      }
      return None;
    }

    /** The unique index on `supplier_products (supplier_id, name)`, searched row by row. */
    method FindProduct(supplierId: string, name: string) returns (r: Option<string>)
      requires Valid()
      ensures r == ProductNamed(products, supplierId, name)
    {
      var keys := products.Keys;
      while keys != {}
        invariant keys <= products.Keys
        invariant forall id :: id in products && id !in keys ==> !(products[id].supplierId == supplierId && products[id].name == name)
        decreases keys
      {
        var id :| id in keys;
        if products[id].supplierId == supplierId && products[id].name == name {
          ProductNamedUnique(products, suppliers, supplierId, name, id);
          return Some(id);
        }
        keys := keys - {id};
      }
      return None;
    }

    /** `POST /api/suppliers`. */
    method PostSupplier(name: string, freshId: string, now: string) returns (r: Response<Supplier>)
      requires Valid()
      modifies this
      ensures Valid()
      ensures r == SupplierPosted(old(suppliers), name, freshId, now).response
      ensures suppliers == SupplierPosted(old(suppliers), name, freshId, now).rows
      ensures products == old(products) && fiches == old(fiches)
    {
      SupplierPostedWellFormed(suppliers, name, freshId, now);
      var trimmed := Text.Trim(name);
      if trimmed == [] {
        return BadRequest;
      }
      var found := FindSupplier(trimmed);
      if found.Some? {
        var row := suppliers[found.value].(updatedAt := now);
        suppliers := suppliers[found.value := row];
        r := Ok(row);
      } else if freshId in suppliers {
        r := DbError;
      } else {
        var row := Supplier(freshId, trimmed, now, now);
        ProductsKeepSuppliers(products, suppliers, suppliers[freshId := row]);
        suppliers := suppliers[freshId := row];
        r := Ok(row);
      }
    }

    /** `POST /api/suppliers/:id/products`. */
    method PostProduct(supplierId: string, name: string, unitPrice: Option<real>, unit: Option<string>,
                       freshId: string, now: string) returns (r: Response<SupplierProduct>)
      requires Valid()
      modifies this
      ensures Valid()
      ensures r == ProductPosted(old(products), old(suppliers), supplierId, name, unitPrice, unit, freshId, now).response
      ensures products == ProductPosted(old(products), old(suppliers), supplierId, name, unitPrice, unit, freshId, now).rows
      ensures suppliers == old(suppliers) && fiches == old(fiches)
    {
      ProductPostedWellFormed(products, suppliers, supplierId, name, unitPrice, unit, freshId, now);
      var trimmed := Text.Trim(name);
      if trimmed == [] {
        return BadRequest;
      }
      var found := FindProduct(supplierId, trimmed);
      if found.Some? {
        var row := products[found.value].(unitPrice := unitPrice, unit := unit, updatedAt := now);
        products := products[found.value := row];
        r := Ok(row);
      } else if supplierId !in suppliers || freshId in products {
        r := DbError;
      } else {
        var row := SupplierProduct(freshId, supplierId, trimmed, unitPrice, unit, now);
        products := products[freshId := row];
        r := Ok(row);
      }
    }

    /** `PUT /api/suppliers/:id/products/:productId`. */
    method PutProduct(supplierId: string, productId: string, unitPrice: Option<real>, unit: Option<string>,
                      now: string) returns (r: Response<SupplierProduct>)
      requires Valid()
      modifies this
      ensures Valid()
      ensures r == ProductPut(old(products), supplierId, productId, unitPrice, unit, now).response
      ensures products == ProductPut(old(products), supplierId, productId, unitPrice, unit, now).rows
      ensures suppliers == old(suppliers) && fiches == old(fiches)
    {
      ProductPutWellFormed(products, suppliers, supplierId, productId, unitPrice, unit, now);
      if productId in products && products[productId].supplierId == supplierId {
        var row := products[productId].(unitPrice := unitPrice, unit := unit, updatedAt := now);
        products := products[productId := row];
        r := Ok(row);
      } else {
        r := NotFound;
      }
    }

    /** `DELETE /api/suppliers/:id/products/:productId`. */
    method DeleteProduct(supplierId: string, productId: string)
      requires Valid()
      modifies this
      ensures Valid()
      ensures products == ProductDeleted(old(products), supplierId, productId)
      ensures suppliers == old(suppliers) && fiches == old(fiches)
    {
      ProductDeletedWellFormed(products, suppliers, supplierId, productId);
      if productId in products && products[productId].supplierId == supplierId {
        products := products - {productId};
      }
    }

    /** `GET /api/suppliers/:id/products`, without the ordering by name. */
    function SupplierProducts(supplierId: string): map<string, SupplierProduct>
      reads this
    {
      ProductsOf(products, supplierId)
    }

    /** `POST /api/fiches`: 400 for a card without an id. */
    method PostFiche(fiche: FicheTechnique, now: string) returns (r: Response<()>)
      requires Valid()
      modifies this
      ensures Valid()
      ensures r == if fiche.id == [] then BadRequest else Ok(())
      ensures fiches == FicheSaved(old(fiches), fiche, now)
      ensures suppliers == old(suppliers) && products == old(products)
    {
      FicheSavedWellFormed(fiches, fiche, now);
      if fiche.id == [] {
        return BadRequest;
      }
      var createdAt := if fiche.createdAt == [] then now else fiche.createdAt;
      if fiche.id in fiches {
        createdAt := fiches[fiche.id].createdAt;
      }
      var updatedAt := if fiche.updatedAt == [] then now else fiche.updatedAt;
      fiches := fiches[fiche.id := FicheRow(fiche.id, fiche.title, fiche, createdAt, updatedAt)];
      r := Ok(());
    }

    /** `GET /api/fiches/:id`. */
    function GetFiche(id: string): Response<FicheTechnique>
      reads this
    {
      FicheData(fiches, id)
    }

    /** `DELETE /api/fiches/:id`: the row goes if it is there. */
    method DeleteFiche(id: string)
      requires Valid()
      modifies this
      ensures Valid()
      ensures fiches == old(fiches) - {id}
      ensures suppliers == old(suppliers) && products == old(products)
    {
      fiches := fiches - {id};
    }

    /** `POST /api/reset`: `TRUNCATE TABLE fiches, supplier_products, suppliers`. */
    method Reset()
      modifies this
      ensures Valid()
      ensures suppliers == map[] && products == map[] && fiches == map[]
    {
      suppliers := map[];
      products := map[];
      fiches := map[];
    }
  }
}
