# fiches-recettes in Dafny

A Dafny model of the core of *fiches-recettes*. The application writes
recipe sheets (*fiches techniques*) and costs their ingredients. The prices
come from supplier price lists that are imported from CSV files.

The model covers these parts:

- **Key function.** `Text.NormalizeKey` is the key function (`normalize` /
  `normalizeText`) under which ingredient, supplier and unit names are
  compared. It trims, lower-cases, decomposes accents, drops the combining
  marks and collapses whitespace runs.
- **CSV import.**
  - `CsvParse` reads the cells of a CSV file, handling quotes, `""` escapes and
    the LF / CRLF / CR line ends.
  - `CsvFields` normalises unit cells and reads price cells written in the Italian or
    French style (`1.234,56`).
  - `CsvImport` finds a header row and turns the rows below it into supplier
    price items.
- **Costing.** `Costing` reads quantities such as `"1,5 kg"`, converts them into the
  unit the price is quoted in, and sums the known ingredient costs of a sheet.
- **Price index.** `PriceIndex` is the index of supplier prices that the
  application builds for the lines of the sheet being edited:
  - the lookup of a line's price;
  - the rebuild of the index from a catalog snapshot;
  - the "sync from suppliers" action, which links each line to a supplier
    product of the same name.
- **Editor.** `FicheForm` models the edit operations of the sheet editor:
  patching an ingredient line, removing, moving and inserting list items, and
  the by-name supplier map.
- **Export.**
  - `Exporters.SafeFilename` turns a sheet title into a file name.
  - `Zip` writes a stored (uncompressed) ZIP archive. It covers the CRC-32
    register loop, the little-endian fields, the concatenation of byte parts
    into one array, and the local headers, central directory and
    end-of-central-directory record.
- **Server.** `CatalogStore` models the Express/PostgreSQL server as a class
  `Store` with three tables (suppliers, supplier products, fiches) held as
  maps:
  - each route is a method that updates those maps, proved against a
    function of the old tables;
  - lemmas show that every route keeps the tables' constraints (primary keys,
    `UNIQUE`, the foreign key).
- **Shared modules.**
  - `Fiche` holds the data types of `src/types/fiche.ts`.
  - `JsObject` models JavaScript property lookup on a plain object literal,
    where a key such as `constructor` finds a member inherited from
    `Object.prototype`.
  - `Decimal` models the parts of `parseFloat` / `Number` that the core uses.
  - `Wrappers` and `Seqs` are small helpers.

Where the documented behaviour and the code disagree, the model
follows the code. The one exception is the three inherited-member lookups
listed under "## Findings": each is modelled as written, and beside it in
corrected form, and the rest of the model uses the corrected form. The
differences follow:

- **Whitespace.** The key function collapses whitespace runs. Punctuation is
  left as it is.
- **Key function not idempotent.** `Text.NormalizeKeyNotIdempotent` shows
  that applying the key function twice can change the key. A combining
  accent followed by a space and a letter gives `" a"`, and a second pass
  gives `"a"`. Idempotence holds when the key neither starts nor ends with
  a space (`Text.NormalizeKeyIdempotent`).
- **Exact-name uniqueness.** Supplier and product uniqueness on the server is
  SQL `UNIQUE` on the exact name, not on the normalised key.
- **Upsert overwrites.** Re-posting a product overwrites its price and unit
  with the posted values, including missing ones.
- **Extra import filter.** The CSV import also drops rows whose normalised
  supplier cell contains `merci d'ajouter` (a template hint row).

## Model

| member | source | states |
|---|---|---|
| Text.NormalizeKey | src/App.tsx:175-181 | The key has only single plain spaces between words, and no upper-case letter or combining mark. A blank name has the empty key. |
| Text.NormalizeKeyExamples | src/utils/csvImport.ts:11-18 | "Crème", "creme" and "CREME" all have the key "creme". |
| Text.NormalizeKeyAccent | src/utils/csvImport.ts:11-18 | An accented Latin-1 letter inside a clean word is replaced by its base letter. |
| Text.NormalizeKeyIgnoresCase | src/App.tsx:175-181 | Lower-casing the input first does not change the key. |
| Text.NormalizeKeyIdempotent | src/App.tsx:175-181 | When the key neither starts nor ends with a space, the key of the key is the key itself. |
| Text.NormalizeKeyNotIdempotent | src/App.tsx:175-181 | Idempotence fails in general: U+0301 followed by " a" has the key " a", whose own key is "a". |
| Text.CollapseSpaces | src/App.tsx:181 | The result has no whitespace but single spaces, is empty iff the input is, and starts with whitespace iff the input does. |
| Text.Trim | src/App.tsx:177 | The result is a slice of the input with only whitespace cut off before and after it, and it neither starts nor ends with whitespace. |
| Text.ContainsIff | src/utils/csvImport.ts:126-132 | Substring containment holds iff the substring occurs at some index. |
| CsvParse.ParseCsv | src/utils/csvImport.ts:20-82 | The character loop returns exactly the rows of the scanner specification; empty text gives no rows. |
| CsvParse.RowsRoundTrip | src/utils/csvImport.ts:20-82 | Rows encoded with quoted cells, `""` escapes and any of the LF, CRLF or CR line ends read back as the same rows. |
| CsvParse.RowsUnterminatedLastLine | src/utils/csvImport.ts:76-81 | A last line without a line end is still emitted as a row. |
| CsvParse.RowsUnterminatedQuote | src/utils/csvImport.ts:29-46 | A quote left open at the end of the text takes the rest of the text as one cell of one last row. |
| CsvParse.ScanQuotedBody | src/utils/csvImport.ts:29-46 | Inside quotes, `""` reads as one quote, and the closing quote ends the quoted part. |
| CsvParse.ScanComma | src/utils/csvImport.ts:48-52 | Outside quotes, a comma closes the current cell and starts an empty one. |
| CsvParse.ScanEol | src/utils/csvImport.ts:53-71 | Outside quotes, each of LF, CRLF and a lone CR closes the current cell and the current row. |
| CsvParse.Step | src/utils/csvImport.ts:26-75 | Each scanner step consumes one character, or two for `""` in quotes and for CRLF. |
| CsvFields.NormalizeUnit | src/utils/csvImport.ts:84-133 | The unit found is always one of kg, g, l, ml, cl, pc, and a blank cell has none. |
| CsvFields.NormalizeUnitCanonical | src/utils/csvImport.ts:86-123 | Each canonical unit normalises to itself. |
| CsvFields.NormalizeUnitIgnoresCase | src/utils/csvImport.ts:84-133 | Upper and lower case give the same unit. |
| CsvFields.NormalizeUnitKg | src/utils/csvImport.ts:86-124 | "Kg" is kg through the direct table. |
| CsvFields.NormalizeUnitPieces | src/utils/csvImport.ts:86-124 | "pièces" is pc: the accent is stripped before the table lookup. |
| CsvFields.NormalizeUnitKgs | src/utils/csvImport.ts:126-132 | "KGS" is not in the table and is kg by containment. |
| CsvFields.UnitFromTable | src/utils/csvImport.ts:124 | A key found in the direct table gives that table's unit. |
| CsvFields.UnitFromContainment | src/utils/csvImport.ts:126-132 | A key not in the table falls through to the ordered containment tests. |
| CsvFields.UnitWord | src/utils/csvImport.ts:86-123 | The direct table only yields canonical units. |
| CsvFields.UnitByContainment | src/utils/csvImport.ts:126-132 | The containment tests only yield canonical units. |
| CsvFields.NormalizeUnitAgrees | src/utils/csvImport.ts:124 | For every cell whose key is not a lower-case `Object.prototype` member name, the as-written lookup gives exactly the corrected unit. |
| CsvFields.NormalizeUnitPrototypeKeys | src/utils/csvImport.ts:124 | A cell whose key is an `Object.prototype` member name gets that inherited member as written, and no unit in the corrected model. |
| CsvFields.NormalizeUnitConstructor | src/utils/csvImport.ts:124 | The cell "Constructor" yields the inherited `constructor` function as written, and no unit when corrected. |
| CsvFields.ParsePrice | src/utils/csvImport.ts:135-148 | The price of a cell, taken from its digits, separators and minus signs only. |
| CsvFields.ParsePriceBlank | src/utils/csvImport.ts:137-140 | A cell whose kept characters are nothing, `-` or `--` has no price. |
| CsvFields.ParsePriceComma | src/utils/csvImport.ts:141-145 | "d,f" is the decimal d.f. |
| CsvFields.ParsePricePoint | src/utils/csvImport.ts:141-145 | "d.f" with no comma is the decimal d.f. |
| CsvFields.ParsePriceGrouped | src/utils/csvImport.ts:141-145 | With a comma present, points are thousands separators: "d1.d2,f" is d1d2.f. |
| CsvFields.ParsePriceNegative | src/utils/csvImport.ts:135-148 | A leading minus gives the negated value. |
| CsvFields.ParsePriceIgnoresOthers | src/utils/csvImport.ts:137 | Text around the number made of non-price characters (currency signs, letters) does not change the price. |
| CsvFields.ParsePriceExamples | src/utils/csvImport.ts:135-148 | "1.234,56" is 1234.56 and "12,5" is 12.5. |
| CsvFields.PriceThrough | src/utils/csvImport.ts:135-148 | The price is `parseFloat` of the cleaned and separator-rewritten cell. |
| Decimal.ParseFloatDecimal | src/utils/csvImport.ts:146 | `parseFloat` reads the longest decimal prefix "d.f" and ignores what follows; a minus sign negates it. |
| Decimal.ParseFloatInteger | src/utils/csvImport.ts:146 | `parseFloat` of digits followed by a non-point is that integer. |
| Decimal.NumberOfDecimal | src/utils/costing.ts:36-37 | `Number` of "d.f" is the decimal d.f, and `Number` of digits is that integer. |
| Decimal.NumberOfTwoPoints | src/utils/costing.ts:36-37 | `Number` of a string with two points is NaN (no value). |
| CsvImport.ClassifyIsFirstQualifying | src/utils/csvImport.ts:191-217 | A header cell gets a role iff it qualifies for that role and for none tested earlier. |
| CsvImport.ScanCells | src/utils/csvImport.ts:161-218 | The loop over header cells computes the scan specification over the cells' roles. |
| CsvImport.HeaderScanLast | src/utils/csvImport.ts:161-218 | A role's column is unset iff no cell has that role; otherwise it is the last cell with that role. |
| CsvImport.FindHeaderIndexes | src/utils/csvImport.ts:150-233 | The header search of one row equals its specification. |
| CsvImport.FindHeaderIff | src/utils/csvImport.ts:220-222 | A row is a header iff it has both a supplier column and a product column. |
| CsvImport.HeaderOfIff | src/utils/csvImport.ts:220-222 | The header of a row's roles exists iff both a supplier role and a product role occur. |
| CsvImport.NonBlank | src/utils/csvImport.ts:259-264 | A cell is absent iff it is blank after trimming, and otherwise it is the trimmed cell. |
| CsvImport.ItemOf | src/utils/csvImport.ts:259-300 | An item needs both columns and is dropped exactly when the filter rejects the trimmed cells. Its supplier and product are the trimmed cells. Its code is the non-blank trimmed code cell, its two prices are the parsed price cells, and its two units are the normalised unit cells, which are canonical when present. A column the header lacks gives no code, price or unit. The units come from the corrected `NormalizeUnit` (see "## Findings"), so a cell "Constructor" gives no unit where the source stores the inherited function. |
| CsvImport.ItemOfKept | src/utils/csvImport.ts:266-277 | Every item produced passes the filter: a non-blank supplier and product, and no template hint row. |
| CsvImport.WalkRows | src/utils/csvImport.ts:244-302 | The row loop computes the items of the row-walk specification. |
| CsvImport.ParseSupplierCsv | src/utils/csvImport.ts:235-304 | The parse equals the specification over the parsed rows. |
| CsvImport.SupplierItemsKept | src/utils/csvImport.ts:266-277 | Every imported item has a non-blank supplier and product. |
| CsvImport.HeaderRowEmitsNothing | src/utils/csvImport.ts:251-257 | A header row becomes the current header and emits no item. |
| CsvImport.NothingBeforeHeader | src/utils/csvImport.ts:251-257 | Rows before the first header row produce no item. |
| CsvImport.HeaderLasts | src/utils/csvImport.ts:251-257 | A header stays in force until the next header row. |
| CsvImport.ItemsGrow | src/utils/csvImport.ts:244-302 | Items only accumulate: the items of a prefix of the rows are a prefix of the items of the whole. |
| CsvImport.Assign | src/utils/csvImport.ts:191-217 | Recording a role's column sets that role's slot and leaves every other slot unchanged. |
| JsObject.Get | src/utils/costing.ts:42 | Property lookup on an object literal finds an own entry iff the key was set, and an inherited member iff it was not set and names an `Object.prototype` member. |
| Costing.UnitAlias | src/utils/costing.ts:10-27 | Every alias maps to a canonical unit. |
| Costing.MatchQuantity | src/utils/costing.ts:33 | The quantity regex matches iff the text has a digit or a point; the word it captures consists of letters found in the text. |
| Costing.MatchQuantityShape | src/utils/costing.ts:33 | In a text laid out as no digit or point, a maximal run of digits and points, whitespace, letters and a rest that extends none of these, the match is that run and those letters. |
| Costing.MatchQuantityLayout | src/utils/costing.ts:33 | Conversely, every match is the first maximal run of digits and points, and the letters after the whitespace that follows it, in such a layout of the text. |
| Costing.ParseQuantityShape | src/utils/costing.ts:29-46 | A quantity text laid out as above, with any rest after the word, has the value `Number(num)` and the word as its unit word, or is null when the run is not a number. |
| Costing.ParseQuantityApprox | src/utils/costing.ts:29-46 | "2 kg env." is 2 kg: text after the unit word is ignored. |
| Costing.ParseQuantityTwoPoints | src/utils/costing.ts:36-37 | A number with two points gives no quantity. |
| Costing.ParseQuantityKilos | src/utils/costing.ts:29-46 | "1,5 Kg" is 1.5 kg: the first comma becomes a point and the unit is lower-cased. |
| Costing.RawFirstComma | src/utils/costing.ts:30-32 | Only the first comma of the trimmed, lower-cased text becomes a point. |
| Costing.QuantityOf | src/utils/costing.ts:40-45 | A reading gives a quantity with the same value; its unit is present iff its word is an alias, and it is then `UNIT_ALIASES[word]`; an empty word gives no unit. This is the corrected alias lookup (see "## Findings"): the word `constructor` gives no unit here, while the source gives the inherited function. |
| Costing.ParseQuantityAsWrittenAgrees | src/utils/costing.ts:42 | Unless the unit word is `constructor`, the as-written parse and the corrected one are equal. |
| Costing.ParseQuantityConstructor | src/utils/costing.ts:42 | "2 constructor" gets the inherited `constructor` function as its unit as written, and no unit when corrected. |
| Costing.ConversionByFactors | src/utils/costing.ts:48-90 | Within one dimension (mass, volume, pieces), the quantity in the price unit is the value scaled by the ratio of the two base factors; across dimensions there is none. |
| Costing.ConversionRoundTrip | src/utils/costing.ts:48-90 | Converting into the unit itself is the identity, and converting there and back gives the value again. |
| Costing.ConversionWithoutUnit | src/utils/costing.ts:84-87 | A quantity without a unit counts only against a per-piece price. |
| Costing.ConversionUnknownPriceUnit | src/utils/costing.ts:49 | A missing, empty or unknown price unit converts nothing. |
| Costing.ConversionUnknownUnit | src/utils/costing.ts:54-89 | A quantity whose unit is an inherited member or not a unit name converts to nothing. |
| Costing.CostOfIff | src/utils/costing.ts:92-101 | A line has a cost iff it has a price, a parsed quantity and a conversion; the cost is price times converted quantity. |
| Costing.CostByFactors | src/utils/costing.ts:92-101 | The cost of a line with a unit is price times value times the ratio of base factors. |
| Costing.CostWithoutUnit | src/utils/costing.ts:92-101 | A unitless quantity is costed only against a per-piece price; an inherited unit is never costed. |
| Costing.ConstructorLineCost | src/utils/costing.ts:42 | Quoted per piece, a line "v constructor" has no cost as written, but costs price times v when corrected. |
| Costing.SumKnownCosts | src/utils/costing.ts:103-116 | The loop computes the total of the known costs, or none when no cost is known. |
| Costing.ComputeFoodCost | src/utils/costing.ts:103-116 | The food cost of the lines equals its specification. |
| Costing.FoodCostNone | src/utils/costing.ts:113-115 | The food cost is missing iff no line has a cost. |
| Costing.KnownCostsEmpty | src/utils/costing.ts:104-112 | The known costs are empty iff every line's cost is missing. |
| Costing.TotalAppend | src/utils/costing.ts:103-116 | The total of two lists of lines is the sum of their totals when both are known, and otherwise the one that is known. |
| Costing.TotalSingle | src/utils/costing.ts:103-116 | The total of one line is its cost. |
| PriceIndex.PricePriority | src/App.tsx:183-196 | A line's price comes from its product id if that hits the index. Otherwise it comes from its supplier id key, then its supplier text key. Otherwise there is none. |
| PriceIndex.SupplierTextIgnored | src/App.tsx:187-190 | With a supplier id set, the supplier text does not change the price. |
| PriceIndex.PriceFromIndex | src/App.tsx:183-196 | Every price found is one the index holds. |
| PriceIndex.PriceAgrees | src/App.tsx:184 | When the product id is not an `Object.prototype` member name, the as-written lookup finds an own entry iff the corrected one finds a price, the same one, and never an inherited member. |
| PriceIndex.PriceConstructor | src/App.tsx:184 | A line whose product id is "constructor", not indexed, gets the inherited `constructor` function as written, while the corrected lookup falls through to the supplier key. |
| PriceIndex.SupplierKeyNotMember | src/App.tsx:188-193 | `supplier::name` keys contain a colon, so they never hit an `Object.prototype` member. |
| PriceIndex.EntryOwn | src/App.tsx:189 | Looking up a supplier key finds an own entry iff the index has that key, and never an inherited member. |
| PriceIndex.ReferencesIff | src/App.tsx:199-211 | A supplier id (or a normalised supplier name) is collected iff some line refers to it. |
| PriceIndex.ReferenceKinds | src/App.tsx:202-210 | A line refers to its supplier id iff it has one; otherwise it refers to its normalised supplier text iff that is non-empty. |
| PriceIndex.AddNew | src/App.tsx:199-211 | Adding to a set keeps its members and adds the new one. |
| PriceIndex.SuppliersByNameLast | src/App.tsx:212 | A name key is in the by-name map iff some supplier has that key, and it maps to the last such supplier. |
| PriceIndex.FindById | src/App.tsx:222-224 | The supplier with the id is absent iff no supplier has it; otherwise it is the first one. |
| PriceIndex.ResolveNamesIff | src/App.tsx:213-220 | The resolved ids are the referenced ids plus the ids of suppliers found by name. |
| PriceIndex.WritesIff | src/App.tsx:221-234 | The index receives a write for a product iff its supplier id was resolved and the product belongs to that supplier. |
| PriceIndex.AddProductEntries | src/App.tsx:226-232 | Indexing a product sets its product-id entry and its two supplier keys, and leaves every other key as it was. |
| PriceIndex.IndexProductIds | src/App.tsx:221-234 | A product id is in the index iff some write has it. |
| PriceIndex.LastProductWrite | src/App.tsx:221-234 | The entry for a product id is the one written last. |
| PriceIndex.IndexSupplierKeys | src/App.tsx:221-234 | A supplier key is in the index iff some write produces it. |
| PriceIndex.LastSupplierKeyWrite | src/App.tsx:221-234 | The entry for a supplier key is the one written last. |
| PriceIndex.RebuildPriceIndex | src/App.tsx:198-235 | The rebuild returns the index of its specification for the lines and the catalog snapshot. |
| PriceIndex.RebuildIndexWith | src/App.tsx:198-235 | The same, for any key function. |
| PriceIndex.RefreshPriceIndex | src/App.tsx:236-249 | The effect sets the rebuilt index, or the empty index when the catalog could not be read. |
| PriceIndex.EmptyIndexPricesNothing | src/App.tsx:243 | The empty index gives no line a price. |
| PriceIndex.CollectReferences | src/App.tsx:199-211 | The loop collects exactly the referenced supplier ids and names. |
| PriceIndex.ResolveByName | src/App.tsx:213-220 | The loop resolves exactly the ids of its specification. |
| PriceIndex.IndexSuppliers | src/App.tsx:221-234 | The loop fills the index with exactly the writes of its specification. |
| PriceIndex.NoReferencesEmptyIndex | src/App.tsx:212 | When no line refers to a supplier, the index is empty. |
| PriceIndex.RebuiltProductIds | src/App.tsx:198-235 | A product id is in the rebuilt index iff it belongs to a product of a resolved supplier. |
| PriceIndex.FirstNamed | src/App.tsx:276-279 | The product matched by name is absent iff no product has that key; otherwise it is the first one. |
| PriceIndex.SyncIngredientIff | src/App.tsx:262-287 | Sync changes at most a line's supplier id and product id. The line is left unchanged when no supplier resolves, the name is blank, or no product matches. Otherwise it is linked to the supplier and its first matching product. |
| PriceIndex.SyncedLinesEach | src/App.tsx:262-288 | The synced lines are the lines synced one by one, in order. |
| PriceIndex.SyncedLinePriced | src/App.tsx:252-301 | A line that sync links to a product gets a price from the index rebuilt over the synced lines. This holds even when the line already had those ids, as on a second sync. The price is read with the corrected lookup `Price` (see "## Findings"). |
| PriceIndex.SyncFicheFromSuppliers | src/App.tsx:252-301 | The sync returns the synced sheet of its specification, with `updatedAt` stamped. A sheet without ingredients is left unchanged, and so is any sheet when a read of the catalog fails. Its lookups go through a `Map` and `find`, not a plain object, so none of the inherited-member cases under "## Findings" arises here. |
| PriceIndex.SyncWith | src/App.tsx:252-301 | The same, for any key function. |
| PriceIndex.SyncLine | src/App.tsx:262-287 | Syncing one line gives the specified line and keeps the per-supplier products cache consistent with the catalog. |
| Zip.U16Value | src/utils/zip.ts:20-22 | The two bytes read back little-endian as the value modulo 2^16. |
| Zip.U32Value | src/utils/zip.ts:24-26 | The four bytes read back little-endian as the value modulo 2^32. |
| Zip.FieldRoundTrip | src/utils/zip.ts:20-26 | In-range values round-trip through both field encoders. |
| Zip.Crc32 | src/utils/zip.ts:8-18 | The register loop computes the CRC-32 of its specification. |
| Zip.AddByte | src/utils/zip.ts:11-15 | The inner bit loop performs the eight shift-and-xor rounds for one byte. |
| Zip.RegisterStep | src/utils/zip.ts:10-16 | The register after one more byte is the eight rounds applied to the previous register. |
| Zip.Crc32Of | src/utils/zip.ts:8-18 | The CRC of no bytes is 0. |
| Zip.CheckValue | src/utils/zip.ts:8-18 | The CRC-32 of "123456789" is the standard check value 0xCBF43926. |
| Zip.Concat | src/utils/zip.ts:28-37 | The array filled part by part is a fresh array holding the parts' concatenation. |
| Zip.SetAt | src/utils/zip.ts:33 | Copying a part at an offset sets those cells and leaves the cells after them unchanged. |
| Zip.SumLengths | src/utils/zip.ts:29 | The reduce computes the total length of the parts. |
| Zip.PartAt | src/utils/zip.ts:28-37 | Part k lies in the concatenation at the total length of the parts before it. |
| Zip.FlattenAppend | src/utils/zip.ts:104 | Concatenating two lists of parts concatenates their flattenings. |
| Zip.LocalHeaderLayout | src/utils/zip.ts:50-63 | A local header has 30 bytes plus the name, with every field at its offset: signature, version, flags, method, time and date 0, CRC, both sizes, name length, no extra field, then the name. |
| Zip.CentralHeaderLayout | src/utils/zip.ts:67-86 | A central header has 46 bytes plus the name, with every field at its offset: signature, both versions, flags, method, time and date 0, CRC, both sizes, name length, extra, comment, disk and both attribute fields 0, the local header's offset, then the name. |
| Zip.EndRecordLayout | src/utils/zip.ts:93-102 | The end record has 22 bytes, with every field at its offset: signature, both disk numbers 0, the entry count twice, the directory size and offset, and no comment. |
| Zip.LocalSignatureBytes | src/utils/zip.ts:51 | The local signature is the bytes "PK\x03\x04". |
| Zip.CentralSignatureBytes | src/utils/zip.ts:68 | The central signature is the bytes "PK\x01\x02". |
| Zip.EndSignatureBytes | src/utils/zip.ts:94 | The end signature is the bytes "PK\x05\x06". |
| Zip.ArchiveLayout | src/utils/zip.ts:39-108 | The archive is the local parts, then the central directory, then an end record that points at them. Its length is the sum of the three. |
| Zip.LocalEntryAt | src/utils/zip.ts:50-65 | Entry k's local header lies at the total size of the entries before it, and its data follows the header. |
| Zip.CentralOffsetIsLocalPosition | src/utils/zip.ts:84-89 | Entry k's central header records the local header's offset. |
| Zip.EndRecordFields | src/utils/zip.ts:93-102 | The end record holds the entry count, the directory size and the directory offset, each modulo its field width. |
| Zip.WriteLocalHeader | src/utils/zip.ts:50-63 | Writing the local header gives the specified header bytes. |
| Zip.WriteCentralHeader | src/utils/zip.ts:67-86 | Writing the central header gives the specified header bytes. |
| Zip.WriteEndRecord | src/utils/zip.ts:93-102 | Writing the end record gives the specified record bytes. |
| Zip.WriteEntry | src/utils/zip.ts:45-89 | One loop iteration writes entry k's headers at the running offset. |
| Zip.CreateZip | src/utils/zip.ts:39-108 | The loop builds exactly the specified archive. |
| FicheForm.NoPatchIdentity | src/components/FicheForm.tsx:22-28 | An empty patch changes nothing. |
| FicheForm.PatchIdempotent | src/components/FicheForm.tsx:22-28 | Applying a patch twice is the same as once. |
| FicheForm.PatchesCompose | src/components/FicheForm.tsx:22-28 | Two patches in a row are one merged patch, where the later one wins. |
| FicheForm.UpdateIngredient | src/components/FicheForm.tsx:22-28 | Only the line at the index is patched, and the length is kept; an index out of range changes nothing. |
| FicheForm.RemoveAt | src/components/FicheForm.tsx:68-70 | The item at the index is dropped; an index out of range changes nothing. |
| FicheForm.RemoveIngredient | src/components/FicheForm.tsx:58-70 | Only the ingredients and `updatedAt` change, and the line at the index is dropped. |
| FicheForm.RemoveStep | src/components/FicheForm.tsx:73 | Only the steps and `updatedAt` change, and the step at the index is dropped. |
| FicheForm.RemoveEquipment | src/components/FicheForm.tsx:90 | Only the equipment and `updatedAt` change, and the item at the index is dropped. |
| FicheForm.RemoveAllergen | src/components/FicheForm.tsx:93 | Only the allergens and `updatedAt` change, and the item at the index is dropped. |
| FicheForm.SpliceStart | src/components/FicheForm.tsx:83-87 | `splice`'s start rule: negative starts count from the end, and starts are clamped to the list. |
| FicheForm.InsertedAt | src/components/FicheForm.tsx:83-87 | Inserting makes the list one longer, with the item at that position. |
| FicheForm.InsertThenRemove | src/components/FicheForm.tsx:83-87 | Removing what was inserted gives back the list. |
| FicheForm.MoveItem | src/components/FicheForm.tsx:75-81 | The move is a no-op when from equals to or either index is out of range. Otherwise it puts the item at `to`, keeps the length and the multiset, and leaves the others in order. |
| FicheForm.MovedPermutes | src/components/FicheForm.tsx:75-81 | A move is always a permutation. |
| FicheForm.RemoveThenInsert | src/components/FicheForm.tsx:75-81 | Re-inserting a removed item at its place gives back the list. |
| FicheForm.MoveBack | src/components/FicheForm.tsx:75-81 | Moving back undoes a move. |
| FicheForm.InsertItem | src/components/FicheForm.tsx:83-87 | The result is the insertion at the clamped start. In range, the item sits at the index with the list around it. |
| FicheForm.SuppliersByName | src/components/FicheForm.tsx:50-56 | The loop builds the lower-cased-name map of its specification. |
| FicheForm.ByLowerNameKeys | src/components/FicheForm.tsx:50-56 | A key is in the map iff it is some supplier's lower-cased name. |
| FicheForm.ByLowerNameLastWins | src/components/FicheForm.tsx:50-56 | Each key maps to the last supplier with that lower-cased name. |
| Exporters.SafeFilenameShape | src/utils/exporters.ts:20-26 | The file name has no reserved or control character, has at most 120 characters, has only single plain spaces, and does not start with whitespace. |
| Exporters.ReplaceForbidden | src/utils/exporters.ts:23 | Each reserved or control character becomes one `_` in place, and the length is kept. |
| Exporters.ReplaceOneForOne | src/utils/exporters.ts:23 | A name without reserved characters is left as it is. |
| Exporters.Take | src/utils/exporters.ts:25 | `slice(0, n)` is the prefix of length at most n, and the whole string when it is shorter. |
| Exporters.PlainNameKept | src/utils/exporters.ts:20-26 | A name without whitespace or reserved characters comes back cut to 120 characters. |
| Exporters.SafeFilenameStable | src/utils/exporters.ts:20-26 | When the result does not end in whitespace, sanitising it again changes nothing. |
| Exporters.TrailingSpaceAfterCut | src/utils/exporters.ts:22-25 | The cut can leave a trailing space that a second pass trims, so the function is not idempotent in general. |
| CatalogStore.SupplierNamed | server/index.js:32-37 | The supplier found by name has that name, and none is found iff no row has it. |
| CatalogStore.SupplierNamedUnique | server/index.js:34 | Under the `UNIQUE` name constraint, the row with a given name is the one found. |
| CatalogStore.ProductNamed | server/index.js:41-49 | The product found by supplier and name has both, and none is found iff no row has them. |
| CatalogStore.ProductNamedUnique | server/index.js:48 | Under `UNIQUE (supplier_id, name)`, the row with that supplier and name is the one found. |
| CatalogStore.SupplierBlankRejected | server/index.js:123-125 | A blank supplier name is a 400, and the table is unchanged. |
| CatalogStore.SupplierRepost | server/index.js:130-137 | Posting an existing name returns that row with only `updated_at` moved on; every other row is unchanged. |
| CatalogStore.SupplierPostedNamed | server/index.js:122-139 | After a successful post, exactly one row has the trimmed name. The id set is unchanged iff the name already existed. Otherwise the answer is the row under the fresh id, and the id set grows by exactly that id. |
| CatalogStore.SupplierPostedWellFormed | server/index.js:122-139 | Posting a supplier keeps the primary key and the unique name constraint. |
| CatalogStore.SupplierUpdateWellFormed | server/index.js:133 | Overwriting a row with the same id and name keeps the constraints. |
| CatalogStore.SupplierInsertWellFormed | server/index.js:130-132 | Inserting a row with a fresh id and a fresh name keeps the constraints. |
| CatalogStore.ProductBlankRejected | server/index.js:160-164 | A blank product name is a 400, and the table is unchanged. |
| CatalogStore.ProductRepost | server/index.js:173-177 | Posting an existing supplier and name overwrites price, unit and `updated_at` of that row only; its id, supplier and name are kept. |
| CatalogStore.ProductOfUnknownSupplier | server/index.js:40-50 | A product of an unknown supplier violates the foreign key, so the post fails and the table is unchanged. |
| CatalogStore.ProductPostedWellFormed | server/index.js:159-187 | Posting a product keeps the primary key, the foreign key and `UNIQUE (supplier_id, name)`, and never drops a row. |
| CatalogStore.ProductUpdateWellFormed | server/index.js:173-177 | Overwriting a row in place keeps the constraints. |
| CatalogStore.ProductInsertWellFormed | server/index.js:170-172 | Inserting a fresh-id row of a known supplier with a fresh name keeps the constraints. |
| CatalogStore.ProductsKeepSuppliers | server/index.js:40-50 | The product constraints survive any growth of the supplier table. |
| CatalogStore.ProductPut | server/index.js:189-214 | The update is a 404 iff no row has that id and supplier, and then nothing changes. Otherwise only that row's price, unit and `updated_at` change. |
| CatalogStore.ProductPutWellFormed | server/index.js:189-214 | An update keeps the product constraints. |
| CatalogStore.ProductDeletedRows | server/index.js:216-224 | Deleting removes exactly the row with that id and supplier, if any, and keeps all others. |
| CatalogStore.ProductDeletedWellFormed | server/index.js:216-224 | A delete keeps the product constraints. |
| CatalogStore.ProductsOf | server/index.js:141-157 | A supplier's product list holds exactly the rows with that supplier id. |
| CatalogStore.ProductsOfNamesDistinct | server/index.js:48 | No two products in one supplier's list share a name. |
| CatalogStore.FicheResave | server/index.js:77-99 | Re-saving a sheet keeps its first `created_at` and replaces its data. |
| CatalogStore.FicheFirstSave | server/index.js:77-99 | A first save takes `created_at` and `updated_at` from the sheet, or the clock when they are empty. |
| CatalogStore.FicheSavedFound | server/index.js:77-99 | A saved sheet can be read back, and saving it again with the same clock changes nothing. |
| CatalogStore.FicheSavedWellFormed | server/index.js:77-99 | Saving keeps every sheet stored under its own id. |
| CatalogStore.FicheData | server/index.js:68-75 | Reading a sheet returns its data iff its id is stored, and is a 404 otherwise. |
| CatalogStore.Store.FindSupplier | server/index.js:130-133 | The search over the rows finds the supplier of its specification. |
| CatalogStore.Store.FindProduct | server/index.js:170-173 | The search over the rows finds the product of its specification. |
| CatalogStore.Store.PostSupplier | server/index.js:122-139 | The route answers and updates exactly as its specification says, touches no other table, and keeps every constraint. |
| CatalogStore.Store.PostProduct | server/index.js:159-187 | The route answers and updates exactly as its specification says, touches no other table, and keeps every constraint. |
| CatalogStore.Store.PutProduct | server/index.js:189-214 | The route answers and updates exactly as its specification says, touches no other table, and keeps every constraint. |
| CatalogStore.Store.DeleteProduct | server/index.js:216-224 | The route removes the row of its specification and keeps every constraint. |
| CatalogStore.Store.PostFiche | server/index.js:77-99 | A sheet without an id is a 400. Otherwise the row is saved as specified, and the other tables are unchanged. |
| CatalogStore.Store.DeleteFiche | server/index.js:101-104 | The sheet with the id is gone, and nothing else changes. |
| CatalogStore.Store.Reset | server/index.js:106-113 | All three tables are empty and the constraints hold. |
| CatalogStore.Store.constructor | server/index.js:21-50 | The tables start empty and well-formed. |

## Left out

- Number formatting (`formatCurrency`, src/utils/costing.ts:118-122) is left out. Numbers are exact reals, so IEEE rounding is not modelled.
- CsvFields.ParsePrice: a price cell is read as an exact real, so overflow is not modelled. In the source, a cell of more than about 309 digits makes `Number.parseFloat` give `Infinity`, and the `isFinite` test (src/utils/csvImport.ts:146-147) then turns it into null. The model gives that cell its exact value. The same holds for `Number` in Costing.ParseQuantity.
- `parseFloat` and `Number` are modelled only for plain decimals. Exponents, `Infinity` and hexadecimal literals cannot reach the price parser, because it keeps only digits, separators and minus signs.
- Text.ToLower: lower-casing covers ASCII and Latin-1 only, where `toLowerCase` covers all of Unicode. It is used by Text.NormalizeKey, by Costing.Raw (src/utils/costing.ts:31) and by FicheForm.ByLowerName and FicheForm.SuppliersByName (src/components/FicheForm.tsx:50-56). So "ŒUFS" (U+0152) stays as it is, where the source gives "œufs", and a by-name map can keep two keys where the source has one.
- Text.NormalizeKey: the Unicode tables are reduced to a subset.
  - Lower-casing is Text.ToLower, above.
  - NFD covers the Latin-1 accented lower-case letters only.
  - `\p{Diacritic}` covers `^`, `` ` ``, U+00A8, U+00AF, U+00B4, U+00B7, U+00B8, U+02B0-U+034E, U+0350-U+0357 and U+035D-U+0362.
- Exporters.Take: `slice(0, 120)` counts UTF-16 code units, while the model counts Unicode scalar values. The two differ only on characters outside the Basic Multilingual Plane.
- Zip: names and data are byte sequences, so `TextEncoder` and `Blob` (src/utils/zip.ts:6, 45-46, 105-107) are left out. Bytes are the range 0..255.
- Zip.Crc32: the loop works on a `bv32` register. The signed JavaScript mask `-(crc & 1)` is modelled as the conditional xor it amounts to.
- FicheForm.UpdateIngredient: the index is an integer, so the behaviour of a non-integer JavaScript index is not modelled.
- The React state, the `add*` and `ensure*` list helpers of the editor, `localStorage`, PDF export (src/utils/pdf.ts), the preview and the browser-side API wrappers (src/utils/db.ts, src/utils/suppliers.ts) are not part of this model. The remove operations model `set`'s `updatedAt` stamp with an explicit `now` parameter.
- PriceIndex: the concurrent fetches (`Promise.all`) and the async/asynchronous fetches are modelled sequentially over one catalog snapshot. The products cache of `syncFicheFromSuppliers` is modelled as a map kept consistent with that snapshot. A failed read becomes an absent snapshot, so a read that fails after some products were fetched is not told apart from one that fails at once; both leave the sheet unchanged, as the `catch` does.
- PriceIndex.RefreshPriceIndex: the `active` flag that discards the result of an effect whose lines have since changed is a React concurrency detail and is left out.
- CatalogStore: the Express and `pg` wiring, CORS, the health check and the `CREATE TABLE` bootstrap are left out. The table definitions become the constraint predicates.
- CatalogStore: `randomUUID()` and the clock become the `freshId` and `now` parameters.
- CatalogStore: `ORDER BY` is not modelled, so the list routes are the table contents. The listing of all suppliers and of all sheets is only the maps' contents.
- CatalogStore: a database failure is a `DbError` answer with no change. An unhandled rejection that ends the process is not modelled.
- CatalogStore: request bodies are typed. The name is a string, the price an optional real and the unit an optional string. A sheet body without an id is a sheet whose id is empty.
- CatalogStore: a supplier is never deleted by any route, so the `ON DELETE CASCADE` of the product table only matters for `/api/reset`, which empties all three tables.
- CatalogStore.Store.SupplierProducts and CatalogStore.Store.GetFiche are reads of the current state; their meaning is given by CatalogStore.ProductsOf and CatalogStore.FicheData.

## Findings

| source | as written | input that shows it | evidently intended | confidence | as-written member | corrected member |
|---|---|---|---|---|---|---|
| src/utils/csvImport.ts:124 | `directMap[cleaned]` looks the unit key up in a plain object literal, so a key naming an `Object.prototype` member finds that inherited member | a unit cell "Constructor" yields the `constructor` function instead of `null`, and that non-string becomes the item's unit | a unit only for keys of the table itself | not executed | CsvFields.NormalizeUnitAsWritten, CsvFields.NormalizeUnitConstructor | CsvFields.NormalizeUnit, CsvFields.NormalizeUnitAgrees |
| src/utils/costing.ts:42 | `UNIT_ALIASES[unitRaw]` has the same inherited-member lookup | the quantity "2 constructor" gets the `constructor` function as its unit, so a per-piece line is not costed | no unit, so the line counts as pieces | not executed | Costing.ParseQuantityAsWritten, Costing.ParseQuantityConstructor, Costing.ConstructorLineCost | Costing.ParseQuantity, Costing.ParseQuantityAsWrittenAgrees |
| src/App.tsx:184 | `priceIndex.byProductId[supplierProductId]` is truthy for an inherited member | a line whose `supplierProductId` is "constructor" is priced with the `constructor` function instead of falling through to its supplier key | fall through to the supplier key lookup | not executed | PriceIndex.PriceAsWritten, PriceIndex.PriceConstructor | PriceIndex.Price, PriceIndex.PricePriority, PriceIndex.PriceAgrees |
