/**
 * The list-editing helpers of the recipe-card form
 * (src/components/FicheForm.tsx): patching one ingredient line, removing,
 * moving and inserting list items, and the lookup of suppliers by
 * lower-cased name.
 */
module FicheForm {
  import opened Wrappers
  import opened Fiche
  import Text

  // ---------------------------------------------------------------------
  // Patching an ingredient line
  // ---------------------------------------------------------------------

  /**
   * `Partial<IngredientLine>`: the fields a patch sets. For an optional
   * field, `Some(None)` is a key present with the value `undefined`, which
   * the spread copies over the old value.
   */
  datatype IngredientPatch = IngredientPatch(
    name: Option<string>,
    qty: Option<string>,
    note: Option<Option<string>>,
    supplier: Option<Option<string>>,
    supplierId: Option<Option<string>>,
    supplierProductId: Option<Option<string>>,
    unitPrice: Option<Option<real>>,
    unitPriceUnit: Option<Option<string>>)

  /** The patch that sets nothing (`{}`). */
  const NoPatch := IngredientPatch(None, None, None, None, None, None, None, None)

  /** `{ ...ing, ...patch }`: every field the patch sets, over the line. */
  function ApplyPatch(ing: IngredientLine, p: IngredientPatch): IngredientLine {
    IngredientLine(
      p.name.GetOr(ing.name),
      p.qty.GetOr(ing.qty),
      p.note.GetOr(ing.note),
      p.supplier.GetOr(ing.supplier),
      p.supplierId.GetOr(ing.supplierId),
      p.supplierProductId.GetOr(ing.supplierProductId),
      p.unitPrice.GetOr(ing.unitPrice),
      p.unitPriceUnit.GetOr(ing.unitPriceUnit))
  }

  function Later<T>(first: Option<T>, second: Option<T>): Option<T> {
    if second.Some? then second else first
  }

  /** `{ ...p, ...q }`: the fields of `q`, then those only `p` sets. */
  function MergePatches(p: IngredientPatch, q: IngredientPatch): IngredientPatch {
    IngredientPatch(
      Later(p.name, q.name),
      Later(p.qty, q.qty),
      Later(p.note, q.note),
      Later(p.supplier, q.supplier),
      Later(p.supplierId, q.supplierId),
      Later(p.supplierProductId, q.supplierProductId),
      Later(p.unitPrice, q.unitPrice),
      Later(p.unitPriceUnit, q.unitPriceUnit))
  }

  /** The empty patch changes nothing. */
  lemma NoPatchIdentity(ing: IngredientLine)
    ensures ApplyPatch(ing, NoPatch) == ing
  {
  }

  /** Applying the same patch twice is applying it once. */
  lemma PatchIdempotent(ing: IngredientLine, p: IngredientPatch)
    ensures ApplyPatch(ApplyPatch(ing, p), p) == ApplyPatch(ing, p)
  {
  }

  /** Two patches in a row are their merge. */
  lemma PatchesCompose(ing: IngredientLine, p: IngredientPatch, q: IngredientPatch)
    ensures ApplyPatch(ApplyPatch(ing, p), q) == ApplyPatch(ing, MergePatches(p, q))
  {
  }

  /**
   * `updateIngredient(ingredients, index, patch)`: the line at `index`
   * patched, every other line as it was; an index outside the list
   * matches no position and the list comes back equal.
   */
  function UpdateIngredient(ingredients: seq<IngredientLine>, index: int, patch: IngredientPatch)
    : (r: seq<IngredientLine>)
    ensures |r| == |ingredients|
    ensures 0 <= index < |ingredients| ==>
      r == ingredients[..index] + [ApplyPatch(ingredients[index], patch)] + ingredients[index + 1..]
    ensures !(0 <= index < |ingredients|) ==> r == ingredients
  {
    seq(|ingredients|, i requires 0 <= i < |ingredients| =>
      if i == index then ApplyPatch(ingredients[i], patch) else ingredients[i])
  }

  // ---------------------------------------------------------------------
  // Removing by index
  // ---------------------------------------------------------------------

  /**
   * `items.filter((_, i) => i !== idx)`: every item whose position is not
   * `idx`, in order.
   */
  function RemoveAt<T>(items: seq<T>, idx: int): (r: seq<T>)
    ensures 0 <= idx < |items| ==> r == items[..idx] + items[idx + 1..]
    ensures !(0 <= idx < |items|) ==> r == items
  {
    if items == [] then []
    else
      var i := |items| - 1;
      RemoveAt(items[..i], idx) + (if i == idx then [] else [items[i]])
  }

  /** `set(patch)`: the card with the patch and a fresh `updatedAt`. */
  predicate OnlyListChanged(f: FicheTechnique, r: FicheTechnique, now: string) {
    r.updatedAt == now
    && r.(ingredients := f.ingredients, steps := f.steps, equipment := f.equipment,
          allergens := f.allergens, updatedAt := f.updatedAt) == f
  }

  /** `removeIngredient(idx)`: the card without ingredient `idx`, stamped `now`. */
  function RemoveIngredient(f: FicheTechnique, idx: int, now: string): (r: FicheTechnique)
    ensures OnlyListChanged(f, r, now)
    ensures r.steps == f.steps && r.equipment == f.equipment && r.allergens == f.allergens
    ensures 0 <= idx < |f.ingredients| ==> r.ingredients == f.ingredients[..idx] + f.ingredients[idx + 1..]
    ensures !(0 <= idx < |f.ingredients|) ==> r.ingredients == f.ingredients
  {
    f.(ingredients := RemoveAt(f.ingredients, idx), updatedAt := now)
  }

  /** `removeStep(idx)`. */
  function RemoveStep(f: FicheTechnique, idx: int, now: string): (r: FicheTechnique)
    ensures OnlyListChanged(f, r, now)
    ensures r.ingredients == f.ingredients && r.equipment == f.equipment && r.allergens == f.allergens
    ensures 0 <= idx < |f.steps| ==> r.steps == f.steps[..idx] + f.steps[idx + 1..]
    ensures !(0 <= idx < |f.steps|) ==> r.steps == f.steps
  {
    f.(steps := RemoveAt(f.steps, idx), updatedAt := now)
  }

  /** `removeEquipment(idx)`. */
  function RemoveEquipment(f: FicheTechnique, idx: int, now: string): (r: FicheTechnique)
    ensures OnlyListChanged(f, r, now)
    ensures r.ingredients == f.ingredients && r.steps == f.steps && r.allergens == f.allergens
    ensures 0 <= idx < |f.equipment| ==> r.equipment == f.equipment[..idx] + f.equipment[idx + 1..]
    ensures !(0 <= idx < |f.equipment|) ==> r.equipment == f.equipment
  {
    f.(equipment := RemoveAt(f.equipment, idx), updatedAt := now)
  }

  /** `removeAllergen(idx)`. */
  function RemoveAllergen(f: FicheTechnique, idx: int, now: string): (r: FicheTechnique)
    ensures OnlyListChanged(f, r, now)
    ensures r.ingredients == f.ingredients && r.steps == f.steps && r.equipment == f.equipment
    ensures 0 <= idx < |f.allergens| ==> r.allergens == f.allergens[..idx] + f.allergens[idx + 1..]
    ensures !(0 <= idx < |f.allergens|) ==> r.allergens == f.allergens
  {
    f.(allergens := RemoveAt(f.allergens, idx), updatedAt := now)
  }

  // ---------------------------------------------------------------------
  // Array.prototype.splice
  // ---------------------------------------------------------------------

  /**
   * Where `splice` starts for an integer `start` on an array of length
   * `len`: a negative start counts from the end, and both ends clamp.
   */
  function SpliceStart(start: int, len: nat): (k: nat)
    ensures k <= len
    ensures 0 <= start <= len ==> k == start
    ensures start > len ==> k == len
    ensures start < 0 ==> k == if len + start < 0 then 0 else len + start
  {
    if start < 0 then (if len + start < 0 then 0 else len + start)
    else if start > len then len
    else start
  }

  /**
   * `a.splice(start, deleteCount, ...items)` on an array holding `a`:
   * the array's new contents and the removed elements.
   */
  function Splice<T>(a: seq<T>, start: int, deleteCount: int, items: seq<T>): (seq<T>, seq<T>)
  {
    var k := SpliceStart(start, |a|);
    var count := if deleteCount < 0 then 0 else if deleteCount < |a| - k then deleteCount else |a| - k;
    (a[..k] + items + a[k + count..], a[k..k + count])
  }

  // ---------------------------------------------------------------------
  // Moving and inserting
  // ---------------------------------------------------------------------

  /** `moveItem`'s guard: the call leaves the list as it is. */
  predicate MoveIsNoop(len: nat, from: int, to: int) {
    from == to || from < 0 || to < 0 || from >= len || to >= len
  }

  /** `items` with `item` put at position `k`, the rest in order. */
  function InsertedAt<T>(items: seq<T>, k: nat, item: T): (r: seq<T>)
    requires k <= |items|
    ensures |r| == |items| + 1 && r[k] == item
  {
    items[..k] + [item] + items[k..]
  }

  /** Taking out an item just put in restores the list. */
  lemma InsertThenRemove<T>(items: seq<T>, k: nat, item: T)
    requires k <= |items|
    ensures RemoveAt(InsertedAt(items, k, item), k) == items
  {
    var r := InsertedAt(items, k, item);
    assert r[..k] == items[..k];
    assert r[k + 1..] == items[k..];
  }

  /**
   * What `moveItem(items, from, to)` returns: the list unchanged when the
   * guard holds, otherwise item `from` taken out and put back at `to`.
   */
  function Moved<T>(items: seq<T>, from: int, to: int): (r: seq<T>)
    ensures |r| == |items|
  {
    if MoveIsNoop(|items|, from, to) then items
    else InsertedAt(RemoveAt(items, from), to, items[from])
  }

  /**
   * `moveItem(items, from, to)`: copies the array, splices item `from` out
   * and splices it back in at `to`. The input is a value and is not
   * changed.
   */
  method MoveItem<T>(items: seq<T>, from: int, to: int) returns (r: seq<T>)
    ensures r == Moved(items, from, to)
    ensures MoveIsNoop(|items|, from, to) ==> r == items
    ensures !MoveIsNoop(|items|, from, to) ==>
      && |r| == |items|
      && r[to] == items[from]
      && multiset(r) == multiset(items)
      && RemoveAt(r, to) == RemoveAt(items, from)
  {
    if from == to || from < 0 || to < 0 || from >= |items| || to >= |items| {
      return items;
    }
    var next := items;
    var spliced := Splice(next, from, 1, []);
    next := spliced.0;
    var moved := spliced.1[0];
    assert next == RemoveAt(items, from);
    assert moved == items[from];
    spliced := Splice(next, to, 0, [moved]);
    next := spliced.0;
    r := next;
    assert r == InsertedAt(RemoveAt(items, from), to, moved);
    InsertThenRemove(RemoveAt(items, from), to, moved);
    MovedPermutes(items, from, to);
  }

  lemma MovedPermutes<T>(items: seq<T>, from: int, to: int)
    requires !MoveIsNoop(|items|, from, to)
    ensures multiset(Moved(items, from, to)) == multiset(items)
  {
    var rest := RemoveAt(items, from);
    InsertCounts(rest, to, items[from]);
    RemoveCounts(items, from);
  }

  lemma InsertCounts<T>(rest: seq<T>, k: nat, x: T)
    requires k <= |rest|
    ensures multiset(InsertedAt(rest, k, x)) == multiset(rest) + multiset{x}
  {
    assert rest == rest[..k] + rest[k..];
  }

  lemma RemoveCounts<T>(items: seq<T>, k: nat)
    requires k < |items|
    ensures multiset(items[..k] + items[k + 1..]) + multiset{items[k]} == multiset(items)
  {
    assert items == items[..k] + [items[k]] + items[k + 1..];
  }

  /** Putting an item back where it was taken out restores the list. */
  lemma RemoveThenInsert<T>(items: seq<T>, k: nat)
    requires k < |items|
    ensures InsertedAt(RemoveAt(items, k), k, items[k]) == items
  {
    Reassemble(items, RemoveAt(items, k), k);
  }

  lemma Reassemble<T>(items: seq<T>, rest: seq<T>, k: nat)
    requires k < |items| && rest == items[..k] + items[k + 1..]
    ensures rest[..k] + [items[k]] + rest[k..] == items
  {
    assert rest[..k] == items[..k];
    assert rest[k..] == items[k + 1..];
    assert items == items[..k] + [items[k]] + items[k + 1..];
  }

  /** Moving an item back where it came from restores the list. */
  lemma MoveBack<T>(items: seq<T>, from: int, to: int)
    ensures Moved(Moved(items, from, to), to, from) == items
  {
    if !MoveIsNoop(|items|, from, to) {
      var m := Moved(items, from, to);
      var rest := RemoveAt(items, from);
      assert m == InsertedAt(rest, to, items[from]);
      InsertThenRemove(rest, to, items[from]);
      assert Moved(m, to, from) == InsertedAt(RemoveAt(m, to), from, m[to]);
      RemoveThenInsert(items, from);
    }
  }

  /**
   * `insertItem(items, index, item)`: copies the array and splices `item`
   * in at `index`, clamped as `splice` clamps it.
   */
  method InsertItem<T>(items: seq<T>, index: int, item: T) returns (r: seq<T>)
    ensures r == InsertedAt(items, SpliceStart(index, |items|), item)
    ensures 0 <= index <= |items| ==>
      && |r| == |items| + 1
      && r[index] == item
      && r[..index] == items[..index]
      && r[index + 1..] == items[index..]
  {
    var next := items;
    var spliced := Splice(next, index, 0, [item]);
    next := spliced.0;
    r := next;
  }

  // ---------------------------------------------------------------------
  // Suppliers by name
  // ---------------------------------------------------------------------

  /**
   * The map `suppliersByName` holds after setting each supplier under its
   * lower-cased name, in order.
   */
  function ByLowerName(suppliers: seq<Supplier>): map<string, Supplier> {
    if suppliers == [] then map[]
    else
      var s := suppliers[|suppliers| - 1];
      ByLowerName(suppliers[..|suppliers| - 1])[Text.ToLower(s.name) := s]
  }

  /** The `for` loop of `suppliersByName`, with one `map.set` per supplier. */
  method SuppliersByName(suppliers: seq<Supplier>) returns (m: map<string, Supplier>)
    ensures m == ByLowerName(suppliers)
  {
    m := map[];
    for i := 0 to |suppliers|
      invariant m == ByLowerName(suppliers[..i])
    {
      assert suppliers[..i + 1][..i] == suppliers[..i];
      m := m[Text.ToLower(suppliers[i].name) := suppliers[i]];
    }
    assert suppliers[..|suppliers|] == suppliers;
  }

  /** The keys are exactly the lower-cased names. */
  lemma {:induction false} ByLowerNameKeys(suppliers: seq<Supplier>, key: string)
    ensures key in ByLowerName(suppliers) <==>
      exists i :: 0 <= i < |suppliers| && Text.ToLower(suppliers[i].name) == key
  {
    if suppliers != [] {
      var init := suppliers[..|suppliers| - 1];
      ByLowerNameKeys(init, key);
      if key in ByLowerName(init) {
        var i :| 0 <= i < |init| && Text.ToLower(init[i].name) == key;
        assert suppliers[i] == init[i];
      }
      if exists i :: 0 <= i < |suppliers| && Text.ToLower(suppliers[i].name) == key {
        var i :| 0 <= i < |suppliers| && Text.ToLower(suppliers[i].name) == key;
        if i < |init| {
          assert init[i] == suppliers[i];
        }
      }
    }
  }

  /** Under each name sits the last supplier with that lower-cased name. */
  lemma {:induction false} ByLowerNameLastWins(suppliers: seq<Supplier>, i: nat)
    requires i < |suppliers|
    requires forall j :: i < j < |suppliers| ==> Text.ToLower(suppliers[j].name) != Text.ToLower(suppliers[i].name)
    ensures Text.ToLower(suppliers[i].name) in ByLowerName(suppliers)
    ensures ByLowerName(suppliers)[Text.ToLower(suppliers[i].name)] == suppliers[i]
  {
    var last := |suppliers| - 1;
    if i < last {
      var init := suppliers[..last];
      assert init[i] == suppliers[i];
      forall j | i < j < |init|
        ensures Text.ToLower(init[j].name) != Text.ToLower(init[i].name)
      {
        assert init[j] == suppliers[j];
      }
      ByLowerNameLastWins(init, i);
      assert Text.ToLower(suppliers[last].name) != Text.ToLower(suppliers[i].name);
    }
  }
}
