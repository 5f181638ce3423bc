/**
 * The price index of the recipe editor (src/App.tsx): which catalog price an
 * ingredient line shows, how the index is rebuilt from the lines' supplier
 * references and a snapshot of the catalog, and how the lines of a card are
 * linked to catalog products. Names are compared through the shared matching
 * key `Text.NormalizeKey`.
 */
module PriceIndex {
  import opened Wrappers
  import Text
  import JsObject
  import opened Fiche

  /** The price and unit an index entry holds. */
  datatype PriceInfo = PriceInfo(unitPrice: Option<real>, unit: Option<string>)

  /** The two object literals of the index: by product id, and by supplier and product name. */
  datatype Index = Index(byProductId: map<string, PriceInfo>, bySupplierKey: map<string, PriceInfo>)

  const EmptyIndex: Index := Index(map[], map[])

  /** The entry a catalog product contributes. */
  function InfoOf(p: SupplierProduct): PriceInfo {
    PriceInfo(p.unitPrice, p.unit)
  }

  /** The key `${supplier}::${name}`. */
  function SupplierKey(supplier: string, name: string): string {
    supplier + "::" + name
  }

  /** `record[key]` on one of the index's object literals. */
  function Entry(m: map<string, PriceInfo>, key: string): JsObject.Lookup<PriceInfo> {
    JsObject.Get(if key in m then Some(m[key]) else None, key)
  }

  /** The entry under `key`, looked up as a dictionary. */
  function Find(m: map<string, PriceInfo>, key: string): Option<PriceInfo> {
    if key in m then Some(m[key]) else None
  }

  // ---------------------------------------------------------------------------
  // Price lookup

  /*
   * The lookups are stated for any key function `norm`; the program's is
   * `normalize`, `Text.NormalizeKey`.
   */

  /** The key of a line with supplier id `id`. */
  function IdKey(ing: IngredientLine, norm: string -> string): string
    requires ing.supplierId.Some?
  {
    SupplierKey(ing.supplierId.value, norm(ing.name))
  }

  /** The key of a line with the free-text supplier name only. */
  function NameKey(ing: IngredientLine, norm: string -> string): string
    requires ing.supplier.Some?
  {
    SupplierKey(norm(ing.supplier.value), norm(ing.name))
  }

  /**
   * `getPriceForIngredient` as written. The product-id lookup goes through the
   * object's prototype, so an id such as "constructor" that is not in the
   * index finds an inherited function, which is truthy and is returned.
   */
  function PriceAsWritten(index: Index, ing: IngredientLine, norm: string -> string): JsObject.Lookup<PriceInfo> {
    if Truthy(ing.supplierProductId) && !Entry(index.byProductId, ing.supplierProductId.value).Missing? then
      Entry(index.byProductId, ing.supplierProductId.value)
    else if Truthy(ing.supplierId) then Entry(index.bySupplierKey, IdKey(ing, norm))
    else if Truthy(ing.supplier) then Entry(index.bySupplierKey, NameKey(ing, norm))
    else JsObject.Missing
  }

  /** `getPriceForIngredient` with the index read as dictionaries. */
  function Price(index: Index, ing: IngredientLine, norm: string -> string): Option<PriceInfo> {
    if Truthy(ing.supplierProductId) && ing.supplierProductId.value in index.byProductId then
      Some(index.byProductId[ing.supplierProductId.value])
    else if Truthy(ing.supplierId) then Find(index.bySupplierKey, IdKey(ing, norm))
    else if Truthy(ing.supplier) then Find(index.bySupplierKey, NameKey(ing, norm))
    else None
  }

  /** `getPriceForIngredient` as written, with `normalize`. */
  function GetPriceForIngredientAsWritten(index: Index, ing: IngredientLine): JsObject.Lookup<PriceInfo> {
    PriceAsWritten(index, ing, Text.NormalizeKey)
  }

  /** `getPriceForIngredient` read as dictionaries, with `normalize`. */
  function GetPriceForIngredient(index: Index, ing: IngredientLine): Option<PriceInfo> {
    Price(index, ing, Text.NormalizeKey)
  }

  /** A known product id wins. */
  predicate ProductIdHit(index: Index, ing: IngredientLine) {
    Truthy(ing.supplierProductId) && ing.supplierProductId.value in index.byProductId
  }

  /**
   * The priority of the lookup: a known product id wins; otherwise a supplier
   * id decides alone, with the supplier text never consulted; otherwise the
   * supplier text; with no reference there is no price.
   */
  lemma PricePriority(index: Index, ing: IngredientLine, norm: string -> string)
    ensures ProductIdHit(index, ing) ==> Price(index, ing, norm) == Some(index.byProductId[ing.supplierProductId.value])
    ensures !ProductIdHit(index, ing) && Truthy(ing.supplierId) ==>
      Price(index, ing, norm) == Find(index.bySupplierKey, SupplierKey(ing.supplierId.value, norm(ing.name)))
    ensures !ProductIdHit(index, ing) && !Truthy(ing.supplierId) && Truthy(ing.supplier) ==>
      Price(index, ing, norm) == Find(index.bySupplierKey, SupplierKey(norm(ing.supplier.value), norm(ing.name)))
    ensures !ProductIdHit(index, ing) && !Truthy(ing.supplierId) && !Truthy(ing.supplier) ==> Price(index, ing, norm) == None
  {
  }

  /** With a supplier id, the free-text supplier makes no difference to the price. */
  lemma SupplierTextIgnored(index: Index, ing: IngredientLine, text: Option<string>, norm: string -> string)
    requires Truthy(ing.supplierId)
    ensures Price(index, ing.(supplier := text), norm) == Price(index, ing, norm)
  {
  }

  /** A price shown is always an entry of the index. */
  lemma PriceFromIndex(index: Index, ing: IngredientLine, norm: string -> string)
    ensures Price(index, ing, norm).Some? ==> Price(index, ing, norm).value in index.byProductId.Values + index.bySupplierKey.Values
  {
    var r := Price(index, ing, norm);
    if ProductIdHit(index, ing) {
      assert r.value == index.byProductId[ing.supplierProductId.value];
    } else if r.Some? {
      var key := if Truthy(ing.supplierId) then IdKey(ing, norm) else NameKey(ing, norm);
      assert r.value == index.bySupplierKey[key];
    }
  }

  /** No member of `Object.prototype` has a colon in its name. */
  lemma MembersWithoutColon(k: string)
    requires k in JsObject.PrototypeMembers
    ensures ':' !in k
  {
  }

  /** A supplier key holds "::", so its lookup never reaches the prototype. */
  lemma SupplierKeyNotMember(supplier: string, name: string)
    ensures SupplierKey(supplier, name) !in JsObject.PrototypeMembers
  {
    var k := SupplierKey(supplier, name);
    assert k[|supplier|] == ':';
    if k in JsObject.PrototypeMembers {
      MembersWithoutColon(k);
    }
  }

  /** A key that is no prototype member reads as a dictionary. */
  lemma EntryOwn(m: map<string, PriceInfo>, key: string)
    requires key !in JsObject.PrototypeMembers
    ensures Entry(m, key).Own? <==> Find(m, key).Some?
    ensures Find(m, key).Some? ==> Entry(m, key).value == Find(m, key).value
    ensures !Entry(m, key).Inherited?
  {
  }

  /**
   * The lookup as written and as dictionaries agree unless the product id
   * names a member of `Object.prototype`.
   */
  lemma PriceAgrees(index: Index, ing: IngredientLine, norm: string -> string)
    requires ing.supplierProductId.Some? ==> ing.supplierProductId.value !in JsObject.PrototypeMembers
    ensures PriceAsWritten(index, ing, norm).Own? <==> Price(index, ing, norm).Some?
    ensures Price(index, ing, norm).Some? ==> PriceAsWritten(index, ing, norm).value == Price(index, ing, norm).value
    ensures !PriceAsWritten(index, ing, norm).Inherited?
  {
    if ing.supplierProductId.Some? {
      EntryOwn(index.byProductId, ing.supplierProductId.value);
    }
    if ing.supplierId.Some? {
      SupplierKeyNotMember(ing.supplierId.value, norm(ing.name));
      EntryOwn(index.bySupplierKey, IdKey(ing, norm));
    }
    if ing.supplier.Some? {
      SupplierKeyNotMember(norm(ing.supplier.value), norm(ing.name));
      EntryOwn(index.bySupplierKey, NameKey(ing, norm));
    }
  }

  /**
   * A product id "constructor" that the index does not hold returns the
   * inherited `constructor` function as written, hiding the supplier-key
   * entry that the dictionary reading finds.
   */
  lemma PriceConstructor(index: Index, ing: IngredientLine, norm: string -> string)
    requires ing.supplierProductId == Some("constructor") && "constructor" !in index.byProductId
    ensures PriceAsWritten(index, ing, norm) == JsObject.Inherited("constructor")
    ensures Truthy(ing.supplierId) ==> Price(index, ing, norm) == Find(index.bySupplierKey, SupplierKey(ing.supplierId.value, norm(ing.name)))
  {
  }

  // ---------------------------------------------------------------------------
  // Supplier references of the lines

  /** `Set.add` on a set kept in insertion order. */
  function AddNew(xs: seq<string>, x: string): (r: seq<string>)
    ensures x in r
    ensures forall y :: y in r <==> y in xs || y == x
  {
    if x in xs then xs else xs + [x]
  }

  /**
   * The supplier a line refers to, by id (`byName` false) or by its non-blank
   * free text when it has no id (`byName` true). `norm` is the key function,
   * `normalize` in the program; the definitions from here on take it as a
   * parameter.
   */
  function Reference(ing: IngredientLine, byName: bool, norm: string -> string): Option<string> {
    if Truthy(ing.supplierId) then (if byName then None else ing.supplierId)
    else if byName && ing.supplier.Some? && Text.Trim(ing.supplier.value) != [] then Some(norm(ing.supplier.value))
    else None
  }

  /** The first loop of `rebuildPriceIndex`, for one of its two sets. */
  function References(ingredients: seq<IngredientLine>, byName: bool, norm: string -> string): seq<string> {
    if ingredients == [] then []
    else
      var refs := References(ingredients[..|ingredients| - 1], byName, norm);
      match Reference(ingredients[|ingredients| - 1], byName, norm)
      case Some(r) => AddNew(refs, r)
      case None => refs
  }

  /** The collected ids, and the collected names, are exactly those the lines refer to. */
  lemma {:induction false} ReferencesIff(ingredients: seq<IngredientLine>, byName: bool, norm: string -> string, r: string)
    ensures r in References(ingredients, byName, norm) <==>
      exists i :: 0 <= i < |ingredients| && Reference(ingredients[i], byName, norm) == Some(r)
  {
    if ingredients != [] {
      var init := ingredients[..|ingredients| - 1];
      ReferencesIff(init, byName, norm, r);
      if exists i :: 0 <= i < |init| && Reference(init[i], byName, norm) == Some(r) {
        var i :| 0 <= i < |init| && Reference(init[i], byName, norm) == Some(r);
        assert ingredients[i] == init[i];
      }
      if exists i :: 0 <= i < |ingredients| && Reference(ingredients[i], byName, norm) == Some(r) {
        var i :| 0 <= i < |ingredients| && Reference(ingredients[i], byName, norm) == Some(r);
        if i < |init| { assert init[i] == ingredients[i]; }
      }
    }
  }

  /** A line with a supplier id never contributes a name. */
  lemma ReferenceKinds(ing: IngredientLine, norm: string -> string)
    ensures Reference(ing, false, norm).Some? <==> Truthy(ing.supplierId)
    ensures Reference(ing, true, norm).Some? <==>
      !Truthy(ing.supplierId) && ing.supplier.Some? && Text.Trim(ing.supplier.value) != []
    ensures Reference(ing, true, norm).Some? ==> Reference(ing, true, norm).value == norm(ing.supplier.value)
  {
  }

  // ---------------------------------------------------------------------------
  // Catalog snapshot

  /** The suppliers and, per supplier id, the products `listSupplierProducts` returns. */
  datatype Catalog = Catalog(suppliers: seq<Supplier>, products: map<string, seq<SupplierProduct>>)

  /** `listSupplierProducts(id)`: no products for an id the catalog does not list. */
  function ProductsOf(catalog: Catalog, id: string): seq<SupplierProduct> {
    if id in catalog.products then catalog.products[id] else []
  }

  /** `new Map(suppliers.map(s => [normalize(s.name), s]))`: a later supplier replaces an earlier one with the same key. */
  function SuppliersByName(suppliers: seq<Supplier>, norm: string -> string): map<string, Supplier> {
    if suppliers == [] then map[]
    else SuppliersByName(suppliers[..|suppliers| - 1], norm)[norm(suppliers[|suppliers| - 1].name) := suppliers[|suppliers| - 1]]
  }

  /** The map holds a key exactly when some supplier's name normalizes to it, and then the last such supplier. */
  lemma {:induction false} SuppliersByNameLast(suppliers: seq<Supplier>, key: string, norm: string -> string)
    ensures key in SuppliersByName(suppliers, norm) <==> exists i :: 0 <= i < |suppliers| && norm(suppliers[i].name) == key
    ensures key in SuppliersByName(suppliers, norm) ==>
      exists i :: 0 <= i < |suppliers| && suppliers[i] == SuppliersByName(suppliers, norm)[key] && norm(suppliers[i].name) == key &&
        (forall j :: i < j < |suppliers| ==> norm(suppliers[j].name) != key)
  {
    if suppliers != [] {
      var init := suppliers[..|suppliers| - 1];
      var n := |suppliers| - 1;
      SuppliersByNameLast(init, key, norm);
      if norm(suppliers[n].name) != key {
        if key in SuppliersByName(init, norm) {
          var i :| 0 <= i < |init| && init[i] == SuppliersByName(init, norm)[key] && norm(init[i].name) == key &&
            (forall j :: i < j < |init| ==> norm(init[j].name) != key);
          assert suppliers[i] == init[i];
          assert forall j :: i < j < |suppliers| ==> norm(suppliers[j].name) != key by {
            forall j | i < j < |suppliers| ensures norm(suppliers[j].name) != key {
              if j < n { assert suppliers[j] == init[j]; }
            }
          }
        }
        if exists i :: 0 <= i < |suppliers| && norm(suppliers[i].name) == key {
          var i :| 0 <= i < |suppliers| && norm(suppliers[i].name) == key;
          assert init[i] == suppliers[i];
        }
      }
    }
  }

  /** `suppliers.find(s => s.id === id)`: the first supplier with that id. */
  function FindById(suppliers: seq<Supplier>, id: string): (r: Option<Supplier>)
    ensures r.None? <==> forall i :: 0 <= i < |suppliers| ==> suppliers[i].id != id
    ensures r.Some? ==>
      exists i :: 0 <= i < |suppliers| && suppliers[i] == r.value && r.value.id == id && (forall j :: 0 <= j < i ==> suppliers[j].id != id)
  {
    if suppliers == [] then None
    else if suppliers[0].id == id then Some(suppliers[0])
    else
      var r := FindById(suppliers[1..], id);
      assert forall j :: 0 <= j < |suppliers[1..]| ==> suppliers[1..][j] == suppliers[j + 1];
      r
  }

  /** The second loop of `rebuildPriceIndex`: each name that has a supplier adds that supplier's id. */
  function ResolveNames(ids: seq<string>, names: seq<string>, byName: map<string, Supplier>): seq<string> {
    if names == [] then ids
    else
      var rest := ResolveNames(ids, names[..|names| - 1], byName);
      var name := names[|names| - 1];
      if name in byName then AddNew(rest, byName[name].id) else rest
  }

  /** The resolved ids are the referenced ones plus those of the suppliers found by name; an unmatched name adds nothing. */
  lemma {:induction false} ResolveNamesIff(ids: seq<string>, names: seq<string>, byName: map<string, Supplier>, id: string)
    ensures id in ResolveNames(ids, names, byName) <==>
      id in ids || exists i :: 0 <= i < |names| && names[i] in byName && byName[names[i]].id == id
  {
    if names != [] {
      var init := names[..|names| - 1];
      ResolveNamesIff(ids, init, byName, id);
      if exists i :: 0 <= i < |init| && init[i] in byName && byName[init[i]].id == id {
        var i :| 0 <= i < |init| && init[i] in byName && byName[init[i]].id == id;
        assert names[i] == init[i];
      }
      if exists i :: 0 <= i < |names| && names[i] in byName && byName[names[i]].id == id {
        var i :| 0 <= i < |names| && names[i] in byName && byName[names[i]].id == id;
        if i < |init| { assert init[i] == names[i]; }
      }
    }
  }

  // ---------------------------------------------------------------------------
  // Building the index

  /** One pass of the innermost loop: product `product` of supplier `id`, found in the list as `supplier`. */
  datatype Write = Write(id: string, supplier: Option<Supplier>, product: SupplierProduct)

  /** The writes for the products of one supplier, in the order listed. */
  function WritesOf(id: string, supplier: Option<Supplier>, products: seq<SupplierProduct>): seq<Write> {
    if products == [] then []
    else WritesOf(id, supplier, products[..|products| - 1]) + [Write(id, supplier, products[|products| - 1])]
  }

  /** The writes for the suppliers `ids`, in order. */
  function Writes(ids: seq<string>, catalog: Catalog): seq<Write> {
    if ids == [] then []
    else
      var id := ids[|ids| - 1];
      Writes(ids[..|ids| - 1], catalog) + WritesOf(id, FindById(catalog.suppliers, id), ProductsOf(catalog, id))
  }

  /** The keys of `bySupplierKey` a write sets. */
  predicate WritesKey(w: Write, key: string, norm: string -> string) {
    || key == SupplierKey(w.id, norm(w.product.name))
    || (w.supplier.Some? && key == SupplierKey(norm(w.supplier.value.name), norm(w.product.name)))
  }

  /** The body of the innermost loop. */
  function AddProduct(index: Index, w: Write, norm: string -> string): Index {
    var info := InfoOf(w.product);
    var name := norm(w.product.name);
    var bySupplierKey := index.bySupplierKey[SupplierKey(w.id, name) := info];
    Index(index.byProductId[w.product.id := info],
      match w.supplier
      case None => bySupplierKey
      case Some(s) => bySupplierKey[SupplierKey(norm(s.name), name) := info])
  }

  /**
   * A write sets the product's id and its one or two supplier keys to the
   * same entry, the product's price and unit, and leaves every other key as
   * it was.
   */
  lemma AddProductEntries(index: Index, w: Write, norm: string -> string, key: string)
    ensures AddProduct(index, w, norm).byProductId == index.byProductId[w.product.id := InfoOf(w.product)]
    ensures key in AddProduct(index, w, norm).bySupplierKey <==> key in index.bySupplierKey || WritesKey(w, key, norm)
    ensures WritesKey(w, key, norm) ==> AddProduct(index, w, norm).bySupplierKey[key] == InfoOf(w.product)
    ensures !WritesKey(w, key, norm) && key in index.bySupplierKey ==>
      AddProduct(index, w, norm).bySupplierKey[key] == index.bySupplierKey[key]
  {
  }

  /** The index after the writes `ws`, from the empty one. */
  function IndexOf(ws: seq<Write>, norm: string -> string): Index {
    if ws == [] then EmptyIndex else AddProduct(IndexOf(ws[..|ws| - 1], norm), ws[|ws| - 1], norm)
  }

  /** The index holds a product id exactly when some write was for a product with that id. */
  lemma {:induction false} IndexProductIds(ws: seq<Write>, norm: string -> string, k: string)
    ensures k in IndexOf(ws, norm).byProductId <==> exists i :: 0 <= i < |ws| && ws[i].product.id == k
  {
    if ws != [] {
      var init := ws[..|ws| - 1];
      IndexProductIds(init, norm, k);
      AddProductEntries(IndexOf(init, norm), ws[|ws| - 1], norm, k);
      if exists i :: 0 <= i < |init| && init[i].product.id == k {
        var i :| 0 <= i < |init| && init[i].product.id == k;
        assert ws[i] == init[i];
      }
      if exists i :: 0 <= i < |ws| && ws[i].product.id == k {
        var i :| 0 <= i < |ws| && ws[i].product.id == k;
        if i < |init| { assert init[i] == ws[i]; }
      }
    }
  }

  /** A product id holds the entry of the last write for it. */
  lemma {:induction false} LastProductWrite(ws: seq<Write>, norm: string -> string, i: nat)
    requires i < |ws|
    requires forall j :: i < j < |ws| ==> ws[j].product.id != ws[i].product.id
    ensures ws[i].product.id in IndexOf(ws, norm).byProductId
    ensures IndexOf(ws, norm).byProductId[ws[i].product.id] == InfoOf(ws[i].product)
  {
    var init := ws[..|ws| - 1];
    AddProductEntries(IndexOf(init, norm), ws[|ws| - 1], norm, "");
    if i < |ws| - 1 {
      assert init[i] == ws[i];
      assert forall j :: i < j < |init| ==> init[j].product.id != init[i].product.id by {
        forall j | i < j < |init| ensures init[j].product.id != init[i].product.id {
          assert init[j] == ws[j];
        }
      }
      LastProductWrite(init, norm, i);
    }
  }

  /** The index holds a supplier key exactly when some write set it. */
  lemma {:induction false} IndexSupplierKeys(ws: seq<Write>, norm: string -> string, key: string)
    ensures key in IndexOf(ws, norm).bySupplierKey <==> exists i :: 0 <= i < |ws| && WritesKey(ws[i], key, norm)
  {
    if ws != [] {
      var init := ws[..|ws| - 1];
      IndexSupplierKeys(init, norm, key);
      AddProductEntries(IndexOf(init, norm), ws[|ws| - 1], norm, key);
      if exists i :: 0 <= i < |init| && WritesKey(init[i], key, norm) {
        var i :| 0 <= i < |init| && WritesKey(init[i], key, norm);
        assert ws[i] == init[i];
      }
      if exists i :: 0 <= i < |ws| && WritesKey(ws[i], key, norm) {
        var i :| 0 <= i < |ws| && WritesKey(ws[i], key, norm);
        if i < |init| { assert init[i] == ws[i]; }
      }
    }
  }

  /** A supplier key holds the entry of the last write that set it. */
  lemma {:induction false} LastSupplierKeyWrite(ws: seq<Write>, norm: string -> string, i: nat, key: string)
    requires i < |ws| && WritesKey(ws[i], key, norm)
    requires forall j :: i < j < |ws| ==> !WritesKey(ws[j], key, norm)
    ensures key in IndexOf(ws, norm).bySupplierKey
    ensures IndexOf(ws, norm).bySupplierKey[key] == InfoOf(ws[i].product)
  {
    var init := ws[..|ws| - 1];
    AddProductEntries(IndexOf(init, norm), ws[|ws| - 1], norm, key);
    if i < |ws| - 1 {
      assert init[i] == ws[i];
      assert forall j :: i < j < |init| ==> !WritesKey(init[j], key, norm) by {
        forall j | i < j < |init| ensures !WritesKey(init[j], key, norm) {
          assert init[j] == ws[j];
        }
      }
      LastSupplierKeyWrite(init, norm, i, key);
    }
  }

  /** The writes for one supplier are its products, in order, each with the supplier's id and list entry. */
  lemma {:induction false} WritesOfIff(id: string, supplier: Option<Supplier>, products: seq<SupplierProduct>, w: Write)
    ensures w in WritesOf(id, supplier, products) <==> w.id == id && w.supplier == supplier && w.product in products
  {
    if products != [] {
      var init := products[..|products| - 1];
      WritesOfIff(id, supplier, init, w);
      assert products == init + [products[|products| - 1]];
    }
  }

  /** The writes are, for each supplier id, its products, with its first entry in the supplier list. */
  lemma {:induction false} WritesIff(ids: seq<string>, catalog: Catalog, w: Write)
    ensures w in Writes(ids, catalog) <==>
      w.id in ids && w.supplier == FindById(catalog.suppliers, w.id) && w.product in ProductsOf(catalog, w.id)
  {
    if ids != [] {
      var init := ids[..|ids| - 1];
      var id := ids[|ids| - 1];
      WritesIff(init, catalog, w);
      WritesOfIff(id, FindById(catalog.suppliers, id), ProductsOf(catalog, id), w);
      assert ids == init + [id];
    }
  }

  /** `rebuildPriceIndex`: the index for the lines `ingredients` over the catalog snapshot. */
  function RebuiltIndex(ingredients: seq<IngredientLine>, catalog: Catalog, norm: string -> string): Index {
    var ids := References(ingredients, false, norm);
    var names := References(ingredients, true, norm);
    if ids == [] && names == [] then EmptyIndex
    else IndexOf(Writes(ResolveNames(ids, names, SuppliersByName(catalog.suppliers, norm)), catalog), norm)
  }

  /** `rebuildPriceIndex`, with the key function `normalize`. */
  method RebuildPriceIndex(ingredients: seq<IngredientLine>, catalog: Catalog) returns (index: Index)
    ensures index == RebuiltIndex(ingredients, catalog, Text.NormalizeKey)
  {
    index := RebuildIndexWith(ingredients, catalog, Text.NormalizeKey);
  }

  /**
   * The effect that refreshes the index when the lines change. The catalog
   * snapshot is absent when a read of it failed; the index is then reset to
   * the empty one, so that no line shows a price.
   */
  method RefreshPriceIndex(ingredients: seq<IngredientLine>, catalog: Option<Catalog>) returns (index: Index)
    ensures catalog.None? ==> index == EmptyIndex
    ensures catalog.Some? ==> index == RebuiltIndex(ingredients, catalog.value, Text.NormalizeKey)
  {
    if catalog.None? {
      return EmptyIndex;
    }
    index := RebuildPriceIndex(ingredients, catalog.value);
  }

  /** The empty index prices no line; read as written, it finds at most an inherited member. */
  lemma EmptyIndexPricesNothing(ing: IngredientLine, norm: string -> string)
    ensures Price(EmptyIndex, ing, norm) == None
    ensures !PriceAsWritten(EmptyIndex, ing, norm).Own?
  {
  }

  /** `rebuildPriceIndex` for the key function `norm`. */
  method RebuildIndexWith(ingredients: seq<IngredientLine>, catalog: Catalog, norm: string -> string) returns (index: Index)
    ensures index == RebuiltIndex(ingredients, catalog, norm)
  {
    var supplierIds, supplierNames := CollectReferences(ingredients, norm);
    if supplierIds == [] && supplierNames == [] {
      return EmptyIndex;
    }
    var byName := SuppliersByName(catalog.suppliers, norm);
    supplierIds := ResolveByName(supplierIds, supplierNames, byName);
    index := IndexSuppliers(supplierIds, catalog, norm);
  }

  /** One more line: each set grows by the line's reference, if it has one of that kind. */
  lemma ReferencesStep(ingredients: seq<IngredientLine>, k: nat, norm: string -> string)
    requires k < |ingredients|
    ensures References(ingredients[..k + 1], false, norm) ==
      if Truthy(ingredients[k].supplierId) then AddNew(References(ingredients[..k], false, norm), ingredients[k].supplierId.value)
      else References(ingredients[..k], false, norm)
    ensures References(ingredients[..k + 1], true, norm) ==
      if !Truthy(ingredients[k].supplierId) && ingredients[k].supplier.Some? && Text.Trim(ingredients[k].supplier.value) != []
      then AddNew(References(ingredients[..k], true, norm), norm(ingredients[k].supplier.value))
      else References(ingredients[..k], true, norm)
  {
    assert ingredients[..k + 1][..k] == ingredients[..k];
  }

  /** The first loop: the supplier ids, and the names of the lines without one. */
  method CollectReferences(ingredients: seq<IngredientLine>, norm: string -> string) returns (supplierIds: seq<string>, supplierNames: seq<string>)
    ensures supplierIds == References(ingredients, false, norm)
    ensures supplierNames == References(ingredients, true, norm)
  {
    supplierIds := [];
    supplierNames := [];
    var k := 0;
    while k < |ingredients|
      invariant k <= |ingredients|
      invariant supplierIds == References(ingredients[..k], false, norm)
      invariant supplierNames == References(ingredients[..k], true, norm)
    {
      var ing := ingredients[k];
      ReferencesStep(ingredients, k, norm);
      if Truthy(ing.supplierId) {
        supplierIds := AddNew(supplierIds, ing.supplierId.value);
      } else if ing.supplier.Some? && Text.Trim(ing.supplier.value) != [] {
        supplierNames := AddNew(supplierNames, norm(ing.supplier.value));
      }
      k := k + 1;
    }
    assert ingredients[..k] == ingredients;
  }

  /** The second loop: the id of each supplier found by name joins the set. */
  method ResolveByName(ids: seq<string>, names: seq<string>, byName: map<string, Supplier>) returns (supplierIds: seq<string>)
    ensures supplierIds == ResolveNames(ids, names, byName)
  {
    supplierIds := ids;
    var n := 0;
    while n < |names|
      invariant n <= |names|
      invariant supplierIds == ResolveNames(ids, names[..n], byName)
    {
      var name := names[n];
      assert names[..n + 1][..n] == names[..n];
      if name in byName {
        supplierIds := AddNew(supplierIds, byName[name].id);
      }
      n := n + 1;
    }
    assert names[..n] == names;
  }

  /** The third loop: the products of each supplier, in order. */
  method IndexSuppliers(supplierIds: seq<string>, catalog: Catalog, norm: string -> string) returns (index: Index)
    ensures index == IndexOf(Writes(supplierIds, catalog), norm)
  {
    index := EmptyIndex;
    var i := 0;
    while i < |supplierIds|
      invariant i <= |supplierIds|
      invariant index == IndexOf(Writes(supplierIds[..i], catalog), norm)
    {
      var id := supplierIds[i];
      var supplier := FindById(catalog.suppliers, id);
      var products := ProductsOf(catalog, id);
      index := IndexProducts(index, Writes(supplierIds[..i], catalog), id, supplier, products, norm);
      assert supplierIds[..i + 1][..i] == supplierIds[..i];
      i := i + 1;
    }
    assert supplierIds[..i] == supplierIds;
  }

  /** One more product: one more write, applied to the index so far. */
  lemma WriteStep(done: seq<Write>, id: string, supplier: Option<Supplier>, products: seq<SupplierProduct>, j: nat,
                  norm: string -> string)
    requires j < |products|
    ensures IndexOf(done + WritesOf(id, supplier, products[..j + 1]), norm) ==
      AddProduct(IndexOf(done + WritesOf(id, supplier, products[..j]), norm), Write(id, supplier, products[j]), norm)
  {
    var before := done + WritesOf(id, supplier, products[..j]);
    assert products[..j + 1][..j] == products[..j];
    assert done + WritesOf(id, supplier, products[..j + 1]) == before + [Write(id, supplier, products[j])];
    assert (before + [Write(id, supplier, products[j])])[..|before|] == before;
  }

  /** The innermost loop, for supplier `id` found in the list as `supplier`, after the writes `done`. */
  method IndexProducts(start: Index, ghost done: seq<Write>, id: string, supplier: Option<Supplier>, products: seq<SupplierProduct>,
                       norm: string -> string) returns (index: Index)
    requires start == IndexOf(done, norm)
    ensures index == IndexOf(done + WritesOf(id, supplier, products), norm)
  {
    index := start;
    var j := 0;
    assert done + WritesOf(id, supplier, products[..0]) == done;
    while j < |products|
      invariant j <= |products|
      invariant index == IndexOf(done + WritesOf(id, supplier, products[..j]), norm)
    {
      var p := products[j];
      WriteStep(done, id, supplier, products, j, norm);
      var info := InfoOf(p);
      index := Index(index.byProductId[p.id := info], index.bySupplierKey[SupplierKey(id, norm(p.name)) := info]);
      if supplier.Some? {
        index := index.(bySupplierKey := index.bySupplierKey[SupplierKey(norm(supplier.value.name), norm(p.name)) := info]);
      }
      j := j + 1;
    }
    assert products[..j] == products;
  }

  /** With no line naming a supplier, by id or by non-blank text, both maps stay empty. */
  lemma NoReferencesEmptyIndex(ingredients: seq<IngredientLine>, catalog: Catalog, norm: string -> string)
    requires forall i :: 0 <= i < |ingredients| ==> !Truthy(ingredients[i].supplierId)
    requires forall i :: 0 <= i < |ingredients| ==>
      ingredients[i].supplier.None? || Text.Trim(ingredients[i].supplier.value) == []
    ensures RebuiltIndex(ingredients, catalog, norm) == EmptyIndex
  {
    var ids := References(ingredients, false, norm);
    var names := References(ingredients, true, norm);
    if ids != [] {
      ReferencesIff(ingredients, false, norm, ids[0]);
    }
    if names != [] {
      ReferencesIff(ingredients, true, norm, names[0]);
    }
  }

  /**
   * Every product of every supplier the lines resolve to is in the index by
   * its id, and a product is there only if it is one of those.
   */
  lemma RebuiltProductIds(ingredients: seq<IngredientLine>, catalog: Catalog, norm: string -> string, k: string)
    ensures var ids := References(ingredients, false, norm);
      var resolved := ResolveNames(ids, References(ingredients, true, norm), SuppliersByName(catalog.suppliers, norm));
      k in RebuiltIndex(ingredients, catalog, norm).byProductId <==>
        exists id, p :: id in resolved && p in ProductsOf(catalog, id) && p.id == k
  {
    var ids := References(ingredients, false, norm);
    var names := References(ingredients, true, norm);
    var resolved := ResolveNames(ids, names, SuppliersByName(catalog.suppliers, norm));
    var ws := Writes(resolved, catalog);
    if ids == [] && names == [] {
      assert resolved == [];
    } else {
      IndexProductIds(ws, norm, k);
      if exists i :: 0 <= i < |ws| && ws[i].product.id == k {
        var i :| 0 <= i < |ws| && ws[i].product.id == k;
        WritesIff(resolved, catalog, ws[i]);
      }
      if exists id, p :: id in resolved && p in ProductsOf(catalog, id) && p.id == k {
        var id, p :| id in resolved && p in ProductsOf(catalog, id) && p.id == k;
        var w := Write(id, FindById(catalog.suppliers, id), p);
        WritesIff(resolved, catalog, w);
        var i :| 0 <= i < |ws| && ws[i] == w;
      }
    }
  }

  // ---------------------------------------------------------------------------
  // Linking lines to catalog products

  /**
   * The supplier `syncFicheFromSuppliers` resolves a line to: by id in the
   * list, otherwise by its free text (not trimmed here) in the name map.
   */
  function SupplierOf(ing: IngredientLine, suppliers: seq<Supplier>, byName: map<string, Supplier>, norm: string -> string): Option<Supplier> {
    if Truthy(ing.supplierId) then FindById(suppliers, ing.supplierId.value)
    else if Truthy(ing.supplier) && norm(ing.supplier.value) in byName then Some(byName[norm(ing.supplier.value)])
    else None
  }

  /** `products.find(p => normalize(p.name) === key)`: the first product whose name has that key. */
  function FirstNamed(products: seq<SupplierProduct>, key: string, norm: string -> string): (r: Option<SupplierProduct>)
    ensures r.None? <==> forall i :: 0 <= i < |products| ==> norm(products[i].name) != key
    ensures r.Some? ==>
      exists i :: 0 <= i < |products| && products[i] == r.value && norm(r.value.name) == key &&
        (forall j :: 0 <= j < i ==> norm(products[j].name) != key)
  {
    if products == [] then None
    else if norm(products[0].name) == key then Some(products[0])
    else
      var r := FirstNamed(products[1..], key, norm);
      assert forall j :: 0 <= j < |products[1..]| ==> products[1..][j] == products[j + 1];
      r
  }

  /** What the sync makes of one line. */
  function SyncIngredient(ing: IngredientLine, catalog: Catalog, byName: map<string, Supplier>, norm: string -> string): IngredientLine {
    var supplier := SupplierOf(ing, catalog.suppliers, byName, norm);
    if supplier.None? || Text.Trim(ing.name) == [] then ing
    else
      match FirstNamed(ProductsOf(catalog, supplier.value.id), norm(ing.name), norm)
      case None => ing
      case Some(p) => ing.(supplierId := Some(supplier.value.id), supplierProductId := Some(p.id))
  }

  /** The lines after the sync, in order. */
  function SyncedLines(ingredients: seq<IngredientLine>, catalog: Catalog, byName: map<string, Supplier>, norm: string -> string): seq<IngredientLine> {
    if ingredients == [] then []
    else SyncedLines(ingredients[..|ingredients| - 1], catalog, byName, norm) + [SyncIngredient(ingredients[|ingredients| - 1], catalog, byName, norm)]
  }

  /** The sync keeps the number and the order of the lines, each synced on its own. */
  lemma {:induction false} SyncedLinesEach(ingredients: seq<IngredientLine>, catalog: Catalog, byName: map<string, Supplier>, norm: string -> string)
    ensures |SyncedLines(ingredients, catalog, byName, norm)| == |ingredients|
    ensures forall i :: 0 <= i < |ingredients| ==>
      SyncedLines(ingredients, catalog, byName, norm)[i] == SyncIngredient(ingredients[i], catalog, byName, norm)
  {
    if ingredients != [] {
      var init := ingredients[..|ingredients| - 1];
      SyncedLinesEach(init, catalog, byName, norm);
      var r := SyncedLines(ingredients, catalog, byName, norm);
      var last := SyncIngredient(ingredients[|ingredients| - 1], catalog, byName, norm);
      assert r == SyncedLines(init, catalog, byName, norm) + [last];
      forall i | 0 <= i < |ingredients|
        ensures r[i] == SyncIngredient(ingredients[i], catalog, byName, norm)
      {
        if i < |init| {
          assert init[i] == ingredients[i];
        }
      }
    }
  }

  /** `syncFicheFromSuppliers`: a card without lines is left alone; otherwise its lines are synced and it is stamped `now`. */
  function SyncedFiche(fiche: FicheTechnique, catalog: Catalog, norm: string -> string, now: string): FicheTechnique {
    if fiche.ingredients == [] then fiche
    else fiche.(ingredients := SyncedLines(fiche.ingredients, catalog, SuppliersByName(catalog.suppliers, norm), norm), updatedAt := now)
  }

  /**
   * The sync of one line changes at most its supplier id and product id. It
   * leaves the line as it is when no supplier resolves, the name is blank, or
   * no product of the supplier has the line's name as key; otherwise it links
   * the line to the supplier and to the first such product.
   */
  lemma SyncIngredientIff(ing: IngredientLine, catalog: Catalog, byName: map<string, Supplier>, norm: string -> string)
    ensures var r := SyncIngredient(ing, catalog, byName, norm);
      r.(supplierId := ing.supplierId, supplierProductId := ing.supplierProductId) == ing
    ensures var supplier := SupplierOf(ing, catalog.suppliers, byName, norm);
      var linked := supplier.Some? && Text.Trim(ing.name) != [] &&
        FirstNamed(ProductsOf(catalog, supplier.value.id), norm(ing.name), norm).Some?;
      (!linked ==> SyncIngredient(ing, catalog, byName, norm) == ing) &&
      (linked ==>
        && SyncIngredient(ing, catalog, byName, norm).supplierId == Some(supplier.value.id)
        && SyncIngredient(ing, catalog, byName, norm).supplierProductId ==
          Some(FirstNamed(ProductsOf(catalog, supplier.value.id), norm(ing.name), norm).value.id))
  {
  }

  /**
   * `syncFicheFromSuppliers`, with the key function `normalize`. The catalog
   * is absent when one of its reads failed; the card is then left as it was.
   */
  method SyncFicheFromSuppliers(fiche: FicheTechnique, catalog: Option<Catalog>, now: string) returns (r: FicheTechnique)
    ensures catalog.None? ==> r == fiche
    ensures catalog.Some? ==> r == SyncedFiche(fiche, catalog.value, Text.NormalizeKey, now)
  {
    if catalog.None? {
      return fiche;
    }
    r := SyncWith(fiche, catalog.value, Text.NormalizeKey, now);
  }

  /**
   * `syncFicheFromSuppliers` for the key function `norm`, line by line, with
   * the products of each supplier fetched once into a cache.
   */
  method SyncWith(fiche: FicheTechnique, catalog: Catalog, norm: string -> string, now: string) returns (r: FicheTechnique)
    ensures r == SyncedFiche(fiche, catalog, norm, now)
  {
    var ingredients := fiche.ingredients;
    if |ingredients| == 0 {
      return fiche;
    }
    var byName := SuppliersByName(catalog.suppliers, norm);
    var productsCache: map<string, seq<SupplierProduct>> := map[];
    var updated: seq<IngredientLine> := [];
    var k := 0;
    while k < |ingredients|
      invariant k <= |ingredients|
      invariant updated == SyncedLines(ingredients[..k], catalog, byName, norm)
      invariant CacheValid(productsCache, catalog)
    {
      var next;
      next, productsCache := SyncLine(ingredients[k], catalog, byName, norm, productsCache);
      assert ingredients[..k + 1][..k] == ingredients[..k];
      updated := updated + [next];
      k := k + 1;
    }
    assert ingredients[..k] == ingredients;
    r := fiche.(ingredients := updated, updatedAt := now);
  }

  /** Every cached product list is the one the catalog returns for that supplier. */
  predicate CacheValid(productsCache: map<string, seq<SupplierProduct>>, catalog: Catalog) {
    forall id :: id in productsCache ==> productsCache[id] == ProductsOf(catalog, id)
  }

  /** The callback of `ingredients.map` in `syncFicheFromSuppliers`. */
  method SyncLine(ing: IngredientLine, catalog: Catalog, byName: map<string, Supplier>, norm: string -> string,
                  productsCache: map<string, seq<SupplierProduct>>) returns (next: IngredientLine, cache: map<string, seq<SupplierProduct>>)
    requires CacheValid(productsCache, catalog)
    ensures next == SyncIngredient(ing, catalog, byName, norm)
    ensures CacheValid(cache, catalog)
  {
    cache := productsCache;
    var supplier := SupplierOf(ing, catalog.suppliers, byName, norm);
    if supplier.None? || Text.Trim(ing.name) == [] {
      return ing, cache;
    }
    var id := supplier.value.id;
    if id !in cache {
      cache := cache[id := ProductsOf(catalog, id)];
    }
    var products := cache[id];
    var found := FirstNamed(products, norm(ing.name), norm);
    if found.None? {
      return ing, cache;
    }
    next := ing.(supplierId := Some(id), supplierProductId := Some(found.value.id));
  }

  /**
   * After the sync, every line it links (its supplier resolves, its name is
   * not blank and a product of that supplier has its name, whether or not the
   * line already carried those ids) gets a price from the index rebuilt for
   * the synced lines, provided the ids it received are not empty (the
   * server's ids never are).
   */
  lemma SyncedLinePriced(lines: seq<IngredientLine>, catalog: Catalog, byName: map<string, Supplier>, norm: string -> string, i: nat)
    requires i < |lines|
    requires var s := SupplierOf(lines[i], catalog.suppliers, byName, norm);
      s.Some? && Text.Trim(lines[i].name) != [] && FirstNamed(ProductsOf(catalog, s.value.id), norm(lines[i].name), norm).Some?
    requires SyncIngredient(lines[i], catalog, byName, norm).supplierId != Some([])
    requires SyncIngredient(lines[i], catalog, byName, norm).supplierProductId != Some([])
    ensures i < |SyncedLines(lines, catalog, byName, norm)|
    ensures var synced := SyncedLines(lines, catalog, byName, norm);
      Price(RebuiltIndex(synced, catalog, norm), synced[i], norm).Some?
  {
    SyncedLinesEach(lines, catalog, byName, norm);
    var synced := SyncedLines(lines, catalog, byName, norm);
    var ing := lines[i];
    SyncIngredientIff(ing, catalog, byName, norm);
    var supplier := SupplierOf(ing, catalog.suppliers, byName, norm).value;
    var products := ProductsOf(catalog, supplier.id);
    var p := FirstNamed(products, norm(ing.name), norm).value;
    assert p in products;
    assert synced[i].supplierId == Some(supplier.id) && synced[i].supplierProductId == Some(p.id);

    var ids := References(synced, false, norm);
    var names := References(synced, true, norm);
    ReferencesIff(synced, false, norm, supplier.id);
    assert Reference(synced[i], false, norm) == Some(supplier.id);
    var resolved := ResolveNames(ids, names, SuppliersByName(catalog.suppliers, norm));
    ResolveNamesIff(ids, names, SuppliersByName(catalog.suppliers, norm), supplier.id);
    RebuiltProductIds(synced, catalog, norm, p.id);
    assert ProductIdHit(RebuiltIndex(synced, catalog, norm), synced[i]);
  }
}
