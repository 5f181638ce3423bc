/**
 * The supplier price-list import of src/utils/csvImport.ts: `findHeaderIndexes`,
 * which gives each header cell at most one column role by keyword priority,
 * and `parseSupplierCsv`, which walks the parsed rows, switches to the column
 * mapping of every header row it meets and turns the other rows into items.
 */
module CsvImport {
  import opened Wrappers
  import Text
  import CsvParse
  import CsvFields

  // ---------------------------------------------------------------------------
  // Column roles

  /** The role a header cell can give its column, or none. */
  datatype Role = SupplierCode | Supplier | Product | SourcePrice | SourceUnit | UnitPrice | Unit | NoRole

  predicate HasSupplierWord(k: string) {
    Text.Contains(k, "fournisseur") || Text.Contains(k, "fornitore") || Text.Contains(k, "supplier")
  }

  predicate HasProductWord(k: string) {
    || Text.Contains(k, "designation") || Text.Contains(k, "produit") || Text.Contains(k, "prodotto")
    || Text.Contains(k, "product") || Text.Contains(k, "linea prodotto") || Text.Contains(k, "ligne produit")
  }

  predicate HasCodeWord(k: string) {
    || Text.Contains(k, "code fournisseur") || Text.Contains(k, "codice fornitore")
    || Text.Contains(k, "supplier code") || Text.Contains(k, "source code")
  }

  predicate HasSourceWord(k: string) {
    Text.Contains(k, "source") || Text.Contains(k, "origine")
  }

  predicate HasPriceWord(k: string) {
    Text.Contains(k, "prix") || Text.Contains(k, "prezzo") || Text.Contains(k, "price")
  }

  predicate HasUnitWord(k: string) {
    Text.Contains(k, "unite") || Text.Contains(k, "unita") || k == "unit"
  }

  /** The role of a header cell with matching key `k`: the first test that succeeds, in the source's order. */
  function Classify(k: string): Role {
    if k == [] then NoRole
    else if HasCodeWord(k) then SupplierCode
    else if HasSupplierWord(k) then Supplier
    else if HasProductWord(k) then Product
    else if HasPriceWord(k) && HasSourceWord(k) then SourcePrice
    else if HasUnitWord(k) && HasSourceWord(k) then SourceUnit
    else if HasPriceWord(k) then UnitPrice
    else if HasUnitWord(k) then Unit
    else NoRole
  }

  /** The role of a raw header cell. */
  function RoleOf(cell: string): Role {
    Classify(Text.NormalizeKey(cell))
  }

  /** The keywords that qualify a key for a role, each role taken on its own. */
  predicate Qualifies(k: string, r: Role) {
    match r
    case SupplierCode => HasCodeWord(k)
    case Supplier => HasSupplierWord(k)
    case Product => HasProductWord(k)
    case SourcePrice => HasPriceWord(k) && HasSourceWord(k)
    case SourceUnit => HasUnitWord(k) && HasSourceWord(k)
    case UnitPrice => HasPriceWord(k)
    case Unit => HasUnitWord(k)
    case NoRole => true
  }

  /** The priority of a role: code, supplier, product, source price, source unit, price, unit. */
  function Rank(r: Role): nat {
    match r
    case SupplierCode => 0
    case Supplier => 1
    case Product => 2
    case SourcePrice => 3
    case SourceUnit => 4
    case UnitPrice => 5
    case Unit => 6
    case NoRole => 7
  }

  /** The columns found so far, one optional index per role. */
  datatype Indexes = Indexes(
    supplier: Option<nat>, product: Option<nat>, supplierCode: Option<nat>,
    sourcePrice: Option<nat>, sourceUnit: Option<nat>, unit: Option<nat>, unitPrice: Option<nat>)

  const NoIndexes := Indexes(None, None, None, None, None, None, None)

  /** The index recorded for a role. */
  function Slot(ix: Indexes, r: Role): Option<nat> {
    match r
    case SupplierCode => ix.supplierCode
    case Supplier => ix.supplier
    case Product => ix.product
    case SourcePrice => ix.sourcePrice
    case SourceUnit => ix.sourceUnit
    case UnitPrice => ix.unitPrice
    case Unit => ix.unit
    case NoRole => None
  }

  /** `indexes.<role> = idx`. */
  function Assign(ix: Indexes, r: Role, idx: nat): (res: Indexes)
    ensures r != NoRole ==> Slot(res, r) == Some(idx)
    ensures forall q :: q != r ==> Slot(res, q) == Slot(ix, q)
  {
    match r
    case SupplierCode => ix.(supplierCode := Some(idx))
    case Supplier => ix.(supplier := Some(idx))
    case Product => ix.(product := Some(idx))
    case SourcePrice => ix.(sourcePrice := Some(idx))
    case SourceUnit => ix.(sourceUnit := Some(idx))
    case UnitPrice => ix.(unitPrice := Some(idx))
    case Unit => ix.(unit := Some(idx))
    case NoRole => ix
  }

  /** The roles `classify` gives a row's cells, in column order. */
  function Roles(row: seq<string>, classify: string -> Role): (rs: seq<Role>)
    ensures |rs| == |row| && forall i :: 0 <= i < |row| ==> rs[i] == classify(row[i])
  {
    seq(|row|, i requires 0 <= i < |row| => classify(row[i]))
  }

  /** The record after the `forEach` has visited the first `n` cells, whose roles are `roles`. */
  function HeaderScan(roles: seq<Role>, n: nat): Indexes
    requires n <= |roles|
  {
    if n == 0 then NoIndexes else Assign(HeaderScan(roles, n - 1), roles[n - 1], n - 1)
  }

  /** The mapping that cells with these roles define, when it names a supplier and a product column. */
  function HeaderOf(roles: seq<Role>): Option<Indexes> {
    var ix := HeaderScan(roles, |roles|);
    if ix.supplier.None? || ix.product.None? then None else Some(ix)
  }

  /** The mapping a row defines when it is a header. */
  function FindHeader(row: seq<string>): Option<Indexes> {
    HeaderOf(Roles(row, RoleOf))
  }

  /** An empty row is never a header. */
  lemma EmptyRowNoHeader()
    ensures FindHeader([]) == None
  {
    assert HeaderScan(Roles([], RoleOf), 0) == NoIndexes;
  }

  /**
   * The `forEach` of `findHeaderIndexes`: each cell, in column order, records
   * its index under the role `classify` gives it.
   */
  method ScanCells(row: seq<string>, classify: string -> Role) returns (indexes: Indexes)
    ensures indexes == HeaderScan(Roles(row, classify), |row|)
  {
    indexes := NoIndexes;
    var idx := 0;
    while idx < |row|
      invariant idx <= |row|
      invariant indexes == HeaderScan(Roles(row, classify), idx)
    {
      var role := classify(row[idx]);
      indexes := Assign(indexes, role, idx);
      idx := idx + 1;
    }
  }

  /** `findHeaderIndexes`: the cells' mapping, or none when it lacks a supplier or a product column. */
  method FindHeaderIndexes(row: seq<string>) returns (h: Option<Indexes>)
    ensures h == FindHeader(row)
  {
    var indexes := ScanCells(row, RoleOf);
    if indexes.supplier.None? || indexes.product.None? {
      h := None;
    } else {
      h := Some(indexes);
    }
  }

  // ---------------------------------------------------------------------------
  // What the header rules promise

  lemma ContainsNothing(sub: string)
    requires sub != []
    ensures !Text.Contains([], sub)
  {
  }

  lemma EmptyQualifiesForNothing(r: Role)
    requires r != NoRole
    ensures !Qualifies([], r)
  {
    ContainsNothing("fournisseur");
    ContainsNothing("fornitore");
    ContainsNothing("supplier");
    ContainsNothing("designation");
    ContainsNothing("produit");
    ContainsNothing("prodotto");
    ContainsNothing("product");
    ContainsNothing("linea prodotto");
    ContainsNothing("ligne produit");
    ContainsNothing("code fournisseur");
    ContainsNothing("codice fornitore");
    ContainsNothing("supplier code");
    ContainsNothing("source code");
    ContainsNothing("source");
    ContainsNothing("origine");
    ContainsNothing("prix");
    ContainsNothing("prezzo");
    ContainsNothing("price");
    ContainsNothing("unite");
    ContainsNothing("unita");
  }

  /**
   * A cell takes the highest-priority role whose keywords it carries: the role
   * it qualifies for such that it qualifies for no role ranked before it.
   */
  lemma ClassifyIsFirstQualifying(k: string, r: Role)
    ensures Classify(k) == r <==> Qualifies(k, r) && forall q :: Rank(q) < Rank(r) ==> !Qualifies(k, q)
  {
    if k == [] {
      forall q | q != NoRole ensures !Qualifies(k, q) {
        EmptyQualifiesForNothing(q);
      }
    } else {
      assert Rank(SupplierCode) == 0 && Rank(Supplier) == 1 && Rank(Product) == 2 && Rank(SourcePrice) == 3;
      assert Rank(SourceUnit) == 4 && Rank(UnitPrice) == 5 && Rank(Unit) == 6 && Rank(NoRole) == 7;
      assert Qualifies(k, SupplierCode) == HasCodeWord(k) && Qualifies(k, Supplier) == HasSupplierWord(k);
      assert Qualifies(k, Product) == HasProductWord(k) && Qualifies(k, UnitPrice) == HasPriceWord(k);
      assert Qualifies(k, Unit) == HasUnitWord(k);
    }
  }

  /**
   * The column recorded for a role is the last cell with that role, and no
   * column is recorded when no cell has it.
   */
  lemma {:induction false} HeaderScanLast(roles: seq<Role>, n: nat, r: Role)
    requires n <= |roles| && r != NoRole
    ensures Slot(HeaderScan(roles, n), r).None? <==> forall j :: 0 <= j < n ==> roles[j] != r
    ensures Slot(HeaderScan(roles, n), r).Some? ==>
      var i := Slot(HeaderScan(roles, n), r).value;
      i < n && roles[i] == r && forall j :: i < j < n ==> roles[j] != r
  {
    if n > 0 {
      HeaderScanLast(roles, n - 1, r);
    }
  }

  /** Cells make a header exactly when some cell has the supplier role and some cell the product role. */
  lemma HeaderOfIff(row: seq<string>, classify: string -> Role)
    ensures HeaderOf(Roles(row, classify)).Some? <==>
      (exists i :: 0 <= i < |row| && classify(row[i]) == Supplier) &&
      (exists j :: 0 <= j < |row| && classify(row[j]) == Product)
  {
    var roles := Roles(row, classify);
    HeaderScanLast(roles, |row|, Supplier);
    HeaderScanLast(roles, |row|, Product);
  }

  /** A row is a header exactly when some cell names the supplier and some cell the product. */
  lemma FindHeaderIff(row: seq<string>)
    ensures FindHeader(row).Some? <==>
      (exists i :: 0 <= i < |row| && RoleOf(row[i]) == Supplier) &&
      (exists j :: 0 <= j < |row| && RoleOf(row[j]) == Product)
  {
    HeaderOfIff(row, RoleOf);
  }

  // ---------------------------------------------------------------------------
  // Items

  /** One imported catalog line. */
  datatype Item = Item(
    supplier: string, product: string, supplierCode: Option<string>,
    sourcePrice: Option<real>, sourceUnit: Option<string>, unit: Option<string>, unitPrice: Option<real>)

  /** `row[i] ?? ""`: a missing cell reads as empty. */
  function CellAt(row: seq<string>, i: nat): string {
    if i < |row| then row[i] else ""
  }

  /** `header.x == null ? "" : row[header.x] ?? ""`. */
  function Field(row: seq<string>, col: Option<nat>): string {
    match col
    case None => ""
    case Some(i) => CellAt(row, i)
  }

  /** The filter on the trimmed supplier and product texts: rows that repeat a header, carry a notice or a total. */
  predicate Rejected(supplier: string, product: string) {
    var s := Text.NormalizeKey(supplier);
    var p := Text.NormalizeKey(product);
    || supplier == [] || product == []
    || Text.Contains(s, "fournisseur") || Text.Contains(p, "designation")
    || Text.Contains(s, "merci d'ajouter") || Text.Contains(p, "merci d'ajouter")
    || p == "total"
  }

  /** `trim() || undefined`. */
  function NonBlank(s: string): (r: Option<string>)
    ensures r.None? <==> Text.Trim(s) == []
    ensures r.Some? ==> r.value == Text.Trim(s)
  {
    var t := Text.Trim(s);
    if t == [] then None else Some(t)
  }

  /** A column the header lacks reads as a text with nothing in it. */
  lemma EmptyField()
    ensures Text.Trim("") == [] && CsvFields.ParsePrice("") == None
  {
    assert CsvFields.KeepPriceChars("") == [];
  }

  /** The item a data row gives under a header, or none when the row is filtered out. */
  function ItemOf(row: seq<string>, h: Indexes): (r: Option<Item>)
    ensures h.supplier.None? || h.product.None? ==> r.None?
    ensures h.supplier.Some? && h.product.Some? ==>
      (r.None? <==> Rejected(Text.Trim(CellAt(row, h.supplier.value)), Text.Trim(CellAt(row, h.product.value))))
    ensures r.Some? ==> r.value.supplier == Text.Trim(Field(row, h.supplier))
    ensures r.Some? ==> r.value.product == Text.Trim(Field(row, h.product))
    ensures r.Some? ==> r.value.supplierCode == NonBlank(Field(row, h.supplierCode))
    ensures r.Some? ==> r.value.sourcePrice == CsvFields.ParsePrice(Field(row, h.sourcePrice))
    ensures r.Some? ==> r.value.unitPrice == CsvFields.ParsePrice(Field(row, h.unitPrice))
    ensures r.Some? ==> r.value.sourceUnit == CsvFields.NormalizeUnit(Field(row, h.sourceUnit))
    ensures r.Some? ==> r.value.unit == CsvFields.NormalizeUnit(Field(row, h.unit))
    ensures r.Some? && r.value.sourceUnit.Some? ==> CsvFields.IsCanonicalUnit(r.value.sourceUnit.value)
    ensures r.Some? && r.value.unit.Some? ==> CsvFields.IsCanonicalUnit(r.value.unit.value)
    ensures r.Some? && h.supplierCode.None? ==> r.value.supplierCode.None?
    ensures r.Some? && h.sourcePrice.None? ==> r.value.sourcePrice.None?
    ensures r.Some? && h.unitPrice.None? ==> r.value.unitPrice.None?
    ensures r.Some? && h.sourceUnit.None? ==> r.value.sourceUnit.None?
    ensures r.Some? && h.unit.None? ==> r.value.unit.None?
  {
    EmptyField();
    if h.supplier.None? || h.product.None? then None
    else
      var supplier := Text.Trim(CellAt(row, h.supplier.value));
      var product := Text.Trim(CellAt(row, h.product.value));
      if Rejected(supplier, product) then None
      else
        Some(Item(
          supplier, product,
          NonBlank(Field(row, h.supplierCode)),
          CsvFields.ParsePrice(Field(row, h.sourcePrice)),
          CsvFields.NormalizeUnit(Field(row, h.sourceUnit)),
          CsvFields.NormalizeUnit(Field(row, h.unit)),
          CsvFields.ParsePrice(Field(row, h.unitPrice))))
  }

  /*
   * The walk over the rows is stated for any header detector `find` and any
   * row reader `read`; the import is the walk with FindHeader and ItemOf.
   */

  /** What one row contributes under the active mapping `header`. */
  function RowItems(header: Option<Indexes>, row: seq<string>,
                    find: seq<string> -> Option<Indexes>, read: (seq<string>, Indexes) -> Option<Item>): seq<Item> {
    if row == [] || find(row).Some? || header.None? then []
    else
      match read(row, header.value)
      case Some(it) => [it]
      case None => []
  }

  /** The active mapping after the first `n` rows: that of the last header row among them. */
  function HeaderAfter(rows: seq<seq<string>>, n: nat, find: seq<string> -> Option<Indexes>): (h: Option<Indexes>)
    requires n <= |rows|
  {
    if n == 0 then None
    else if rows[n - 1] != [] && find(rows[n - 1]).Some? then find(rows[n - 1])
    else HeaderAfter(rows, n - 1, find)
  }

  /** The items of the first `n` rows, in row order. */
  function ItemsAfter(rows: seq<seq<string>>, n: nat,
                      find: seq<string> -> Option<Indexes>, read: (seq<string>, Indexes) -> Option<Item>): seq<Item>
    requires n <= |rows|
  {
    if n == 0 then []
    else ItemsAfter(rows, n - 1, find, read) + RowItems(HeaderAfter(rows, n - 1, find), rows[n - 1], find, read)
  }

  /** The items of a whole price list. */
  function SupplierItems(text: string): seq<Item> {
    var rows := CsvParse.Rows(text);
    ItemsAfter(rows, |rows|, FindHeader, ItemOf)
  }

  /** One row of the walk. */
  lemma WalkStep(rows: seq<seq<string>>, k: nat,
                 find: seq<string> -> Option<Indexes>, read: (seq<string>, Indexes) -> Option<Item>)
    requires k < |rows|
    ensures rows[k] == [] ==>
      HeaderAfter(rows, k + 1, find) == HeaderAfter(rows, k, find) && ItemsAfter(rows, k + 1, find, read) == ItemsAfter(rows, k, find, read)
    ensures rows[k] != [] && find(rows[k]).Some? ==>
      HeaderAfter(rows, k + 1, find) == find(rows[k]) && ItemsAfter(rows, k + 1, find, read) == ItemsAfter(rows, k, find, read)
    ensures rows[k] != [] && find(rows[k]).None? ==> HeaderAfter(rows, k + 1, find) == HeaderAfter(rows, k, find)
    ensures rows[k] != [] && find(rows[k]).None? && HeaderAfter(rows, k, find).None? ==>
      ItemsAfter(rows, k + 1, find, read) == ItemsAfter(rows, k, find, read)
    ensures rows[k] != [] && find(rows[k]).None? && HeaderAfter(rows, k, find).Some? ==>
      ItemsAfter(rows, k + 1, find, read) == ItemsAfter(rows, k, find, read) +
        (match read(rows[k], HeaderAfter(rows, k, find).value) case Some(it) => [it] case None => [])
  {
    assert ItemsAfter(rows, k, find, read) + [] == ItemsAfter(rows, k, find, read);
  }

  /**
   * The loop of `parseSupplierCsv`: skip empty rows, switch to the mapping of
   * each header row, and read the other rows under the active mapping, if any.
   * `find` plays `findHeaderIndexes` (which FindHeaderIndexes computes) and
   * `read` the body that builds and filters one item.
   */
  method WalkRows(rows: seq<seq<string>>, find: seq<string> -> Option<Indexes>,
                  read: (seq<string>, Indexes) -> Option<Item>) returns (items: seq<Item>)
    ensures items == ItemsAfter(rows, |rows|, find, read)
  {
    items := [];
    var header: Option<Indexes> := None;
    var k := 0;
    while k < |rows|
      invariant k <= |rows|
      invariant header == HeaderAfter(rows, k, find)
      invariant items == ItemsAfter(rows, k, find, read)
    {
      var row := rows[k];
      WalkStep(rows, k, find, read);
      k := k + 1;
      if row == [] {
        continue;
      }
      var maybeHeader := find(row);
      if maybeHeader.Some? {
        header := maybeHeader;
        continue;
      }
      if header.None? {
        continue;
      }
      var item := read(row, header.value);
      if item.Some? {
        items := items + [item.value];
      }
    }
  }

  /** `parseSupplierCsv`: parse the text into rows and walk them with the header rules and the item reader. */
  method ParseSupplierCsv(text: string) returns (items: seq<Item>)
    ensures items == SupplierItems(text)
  {
    var rows := CsvParse.ParseCsv(text);
    items := WalkRows(rows, FindHeader, ItemOf);
  }

  // ---------------------------------------------------------------------------
  // What the import promises

  /** An item that passed the filter: trimmed, non-empty texts that are neither a header nor a notice nor a total. */
  predicate Kept(it: Item) {
    Text.Trim(it.supplier) == it.supplier && Text.Trim(it.product) == it.product
    && !Rejected(it.supplier, it.product)
  }

  lemma TrimTwice(s: string)
    ensures Text.Trim(Text.Trim(s)) == Text.Trim(s)
  {
    Text.TrimNoop(Text.Trim(s));
  }

  /** Every item ItemOf reads is trimmed and passes the filter. */
  lemma ItemOfKept(row: seq<string>, h: Indexes)
    ensures ItemOf(row, h).Some? ==> Kept(ItemOf(row, h).value)
  {
    if ItemOf(row, h).Some? {
      TrimTwice(CellAt(row, h.supplier.value));
      TrimTwice(CellAt(row, h.product.value));
    }
  }

  /** The walk emits only items that the reader produced. */
  lemma {:induction false} ItemsRead(rows: seq<seq<string>>, n: nat,
                                     find: seq<string> -> Option<Indexes>, read: (seq<string>, Indexes) -> Option<Item>)
    requires n <= |rows|
    ensures forall it :: it in ItemsAfter(rows, n, find, read) ==> exists j, h :: 0 <= j < n && read(rows[j], h) == Some(it)
  {
    if n > 0 {
      ItemsRead(rows, n - 1, find, read);
      WalkStep(rows, n - 1, find, read);
      var h := HeaderAfter(rows, n - 1, find);
      if rows[n - 1] != [] && find(rows[n - 1]).None? && h.Some? {
        var r := read(rows[n - 1], h.value);
        if r.Some? {
          assert read(rows[n - 1], h.value) == Some(r.value);
        }
      }
    }
  }

  /** Every imported item is trimmed and passes the filter. */
  lemma SupplierItemsKept(text: string)
    ensures forall it :: it in SupplierItems(text) ==> Kept(it)
  {
    var rows := CsvParse.Rows(text);
    ItemsRead(rows, |rows|, FindHeader, ItemOf);
    forall it | it in SupplierItems(text) ensures Kept(it) {
      var j, h :| 0 <= j < |rows| && ItemOf(rows[j], h) == Some(it);
      ItemOfKept(rows[j], h);
    }
  }

  /** A header row replaces the active mapping and emits no item. */
  lemma HeaderRowEmitsNothing(rows: seq<seq<string>>, n: nat)
    requires n < |rows| && FindHeader(rows[n]).Some?
    ensures HeaderAfter(rows, n + 1, FindHeader) == FindHeader(rows[n])
    ensures ItemsAfter(rows, n + 1, FindHeader, ItemOf) == ItemsAfter(rows, n, FindHeader, ItemOf)
  {
    EmptyRowNoHeader();
    WalkStep(rows, n, FindHeader, ItemOf);
  }

  /** Rows before the first header row emit nothing. */
  lemma {:induction false} NothingBeforeHeader(rows: seq<seq<string>>, n: nat,
                                               find: seq<string> -> Option<Indexes>, read: (seq<string>, Indexes) -> Option<Item>)
    requires n <= |rows|
    requires forall j :: 0 <= j < n ==> find(rows[j]).None?
    ensures HeaderAfter(rows, n, find).None?
    ensures ItemsAfter(rows, n, find, read) == []
  {
    if n > 0 {
      NothingBeforeHeader(rows, n - 1, find, read);
      WalkStep(rows, n - 1, find, read);
    }
  }

  /** The mapping in force after a header row lasts until the next header row. */
  lemma {:induction false} HeaderLasts(rows: seq<seq<string>>, k: nat, n: nat, find: seq<string> -> Option<Indexes>)
    requires k < n <= |rows| && rows[k] != [] && find(rows[k]).Some?
    requires forall j :: k < j < n ==> rows[j] == [] || find(rows[j]).None?
    ensures HeaderAfter(rows, n, find) == find(rows[k])
  {
    if n - 1 > k {
      HeaderLasts(rows, k, n - 1, find);
    }
  }

  /** Reading more rows only appends items: earlier items keep their order. */
  lemma {:induction false} ItemsGrow(rows: seq<seq<string>>, n: nat, m: nat,
                                     find: seq<string> -> Option<Indexes>, read: (seq<string>, Indexes) -> Option<Item>)
    requires n <= m <= |rows|
    ensures ItemsAfter(rows, n, find, read) <= ItemsAfter(rows, m, find, read)
    decreases m - n
  {
    if n < m {
      ItemsGrow(rows, n, m - 1, find, read);
    }
  }
}
