/**
 * The records the application passes around (src/types/fiche.ts and the
 * catalog shapes of src/utils/suppliers.ts). Optional fields are `Option`s;
 * numbers are exact reals; timestamps are the ISO strings the server returns.
 */
module Fiche {
  import opened Wrappers

  /**
   * One ingredient line of a recipe card. `unitPriceUnit` is declared as one
   * of kg, g, l, ml, cl and pc, but callers fill it by casting the catalog's
   * free-text unit, so any string can reach it.
   */
  datatype IngredientLine = IngredientLine(
    name: string,
    qty: string,
    note: Option<string>,
    supplier: Option<string>,
    supplierId: Option<string>,
    supplierProductId: Option<string>,
    unitPrice: Option<real>,
    unitPriceUnit: Option<string>)

  /** A recipe card. */
  datatype FicheTechnique = FicheTechnique(
    id: string,
    title: string,
    category: Option<string>,
    portions: int,
    allergens: seq<string>,
    equipment: seq<string>,
    ingredients: seq<IngredientLine>,
    steps: seq<string>,
    notes: Option<string>,
    createdAt: string,
    updatedAt: string)

  /** A supplier of the catalog. */
  datatype Supplier = Supplier(id: string, name: string, createdAt: string, updatedAt: string)

  /** A product a supplier lists, with its price and unit when known. */
  datatype SupplierProduct = SupplierProduct(
    id: string, supplierId: string, name: string,
    unitPrice: Option<real>, unit: Option<string>, updatedAt: string)

  /** JavaScript truthiness of an optional string: present and not empty. */
  predicate Truthy(s: Option<string>) {
    s.Some? && s.value != []
  }
}
