/**
 * The two cell readers of the supplier price-list import
 * (src/utils/csvImport.ts): `normalizeUnit`, which maps a unit word in
 * French, Italian or English to one of kg, g, l, ml, cl and pc, and
 * `parsePrice`, which reads a price written with a decimal comma or point and
 * optional thousands separators.
 */
module CsvFields {
  import opened Wrappers
  import Text
  import Decimal
  import Seqs
  import JsObject

  // ---------------------------------------------------------------------------
  // Units

  /** The units a price or a quantity can be expressed in. */
  predicate IsCanonicalUnit(u: string) {
    u == "kg" || u == "g" || u == "l" || u == "ml" || u == "cl" || u == "pc"
  }

  /** The table of unit words, keyed by their matching key: the unit a key names, if any. */
  function UnitWord(key: string): (r: Option<string>)
    ensures r.Some? ==> IsCanonicalUnit(r.value)
  {
    match key
    case "kg" => Some("kg")
    case "g" => Some("g")
    case "l" => Some("l")
    case "litre" => Some("l")
    case "litres" => Some("l")
    case "liter" => Some("l")
    case "liters" => Some("l")
    case "ml" => Some("ml")
    case "cl" => Some("cl")
    case "pc" => Some("pc")
    case "pz" => Some("pc")
    case "piece" => Some("pc")
    case "pieces" => Some("pc")
    case "piece " => Some("pc")
    case "pieces " => Some("pc")
    case "unite" => Some("pc")
    case "unites" => Some("pc")
    case "unitee" => Some("pc")
    case "unitees" => Some("pc")
    case "unite " => Some("pc")
    case "unites " => Some("pc")
    case "sachet" => Some("pc")
    case "sachets" => Some("pc")
    case "seau" => Some("pc")
    case "sceau" => Some("pc")
    case "bouteille" => Some("pc")
    case "bouteilles" => Some("pc")
    case "boite" => Some("pc")
    case "boites" => Some("pc")
    case "barquette" => Some("pc")
    case "barquettes" => Some("pc")
    case "carton" => Some("pc")
    case "cartons" => Some("pc")
    case _ => None
  }

  /** The unit named by a word found by containment, in the order kg, g, ml, cl, l. */
  function UnitByContainment(cleaned: string): (r: Option<string>)
    ensures r.Some? ==> IsCanonicalUnit(r.value)
  {
    if Text.Contains(cleaned, "kg") then Some("kg")
    else if Text.Contains(cleaned, "g") then Some("g")
    else if Text.Contains(cleaned, "ml") then Some("ml")
    else if Text.Contains(cleaned, "cl") then Some("cl")
    else if Text.Contains(cleaned, "l") then Some("l")
    else None
  }

  /**
   * `normalizeUnit`: the table entry for the word's matching key, else the
   * first unit whose name the key contains; nothing for a blank word.
   */
  function NormalizeUnit(value: string): (r: Option<string>)
    ensures r.Some? ==> IsCanonicalUnit(r.value)
    ensures Text.Trim(value) == [] ==> r == None
  {
    UnitOfKey(Text.NormalizeKey(value))
  }

  /** The unit a matching key names. */
  function UnitOfKey(cleaned: string): (r: Option<string>)
    ensures r.Some? ==> IsCanonicalUnit(r.value)
    ensures cleaned == [] ==> r == None
  {
    if cleaned == [] then None
    else if UnitWord(cleaned).Some? then UnitWord(cleaned)
    else UnitByContainment(cleaned)
  }

  /**
   * `normalizeUnit` as written: `directMap[cleaned]` is an object lookup, so a
   * key naming an `Object.prototype` member finds that member, which is truthy
   * and is returned in place of a unit.
   */
  function NormalizeUnitAsWritten(value: string): JsObject.Lookup<string> {
    var cleaned := Text.NormalizeKey(value);
    if cleaned == [] then JsObject.Missing
    else
      match JsObject.Get(UnitWord(cleaned), cleaned)
      case Own(u) => JsObject.Own(u)
      case Inherited(name) => JsObject.Inherited(name)
      case Missing =>
        match UnitByContainment(cleaned)
        case Some(u) => JsObject.Own(u)
        case None => JsObject.Missing
  }

  /** The lookup outcome that a unit result corresponds to. */
  function AsLookup(r: Option<string>): JsObject.Lookup<string> {
    match r
    case Some(u) => JsObject.Own(u)
    case None => JsObject.Missing
  }

  /** A key made of key characters names no prototype member other than the lower-case ones. */
  lemma KeyNotMember(k: string)
    requires Text.AllKeyChars(k) && k !in JsObject.LowerCaseMembers
    ensures k !in JsObject.PrototypeMembers
  {
    if k in JsObject.PrototypeMembers {
      JsObject.MembersWithCapitals(k);
    }
  }

  /** Keys other than "constructor" and "__proto__" are read the same as by the corrected lookup. */
  lemma NormalizeUnitAgrees(value: string)
    requires Text.NormalizeKey(value) !in JsObject.LowerCaseMembers
    ensures NormalizeUnitAsWritten(value) == AsLookup(NormalizeUnit(value))
  {
    KeyNotMember(Text.NormalizeKey(value));
  }

  /** A word without the letters g, m and l names no unit by containment. */
  lemma NoUnitLetters(s: string)
    requires forall i :: 0 <= i < |s| ==> s[i] != 'g' && s[i] != 'm' && s[i] != 'l'
    ensures UnitByContainment(s) == None
  {
    Text.NotContains(s, "kg", 1);
    Text.NotContains(s, "g", 0);
    Text.NotContains(s, "ml", 1);
    Text.NotContains(s, "cl", 1);
    Text.NotContains(s, "l", 0);
  }

  lemma ConstructorNotInTable()
    ensures UnitWord("constructor") == None && "constructor" in JsObject.PrototypeMembers
  {
  }

  lemma ConstructorNoUnit()
    ensures UnitByContainment("constructor") == None
  {
    NoUnitLetters("constructor");
  }

  lemma ProtoNotInTable()
    ensures UnitWord("__proto__") == None && "__proto__" in JsObject.PrototypeMembers
  {
  }

  lemma ProtoNoUnit()
    ensures UnitByContainment("__proto__") == None
  {
    NoUnitLetters("__proto__");
  }

  /** A word whose key is in the table is read through the table. */
  lemma UnitFromTable(value: string, key: string, u: string)
    requires Text.NormalizeKey(value) == key && UnitWord(key) == Some(u)
    ensures NormalizeUnit(value) == Some(u)
  {
    assert key != [];
  }

  /** A word whose key is not in the table is read by containment. */
  lemma UnitFromContainment(value: string, key: string)
    requires Text.NormalizeKey(value) == key && key != [] && UnitWord(key) == None
    ensures NormalizeUnit(value) == UnitByContainment(key)
  {
  }

  /**
   * The two keys on which the lookup as written goes wrong: it returns the
   * inherited `Object.prototype` member, where the table and the containment
   * rules give no unit.
   */
  lemma NormalizeUnitPrototypeKeys(value: string)
    requires Text.NormalizeKey(value) in JsObject.LowerCaseMembers
    ensures NormalizeUnitAsWritten(value) == JsObject.Inherited(Text.NormalizeKey(value))
    ensures NormalizeUnit(value) == None
  {
    var key := Text.NormalizeKey(value);
    PrototypeKeyFacts(key);
    assert JsObject.Get(UnitWord(key), key) == JsObject.Inherited(key);
    UnitFromContainment(value, key);
  }

  lemma PrototypeKeyFacts(key: string)
    requires key in JsObject.LowerCaseMembers
    ensures key != [] && UnitWord(key) == None && key in JsObject.PrototypeMembers
    ensures UnitByContainment(key) == None
  {
    if key == "constructor" {
      ConstructorNotInTable();
      ConstructorNoUnit();
    } else {
      ProtoNotInTable();
      ProtoNoUnit();
    }
  }

  lemma ConstructorLower()
    ensures Text.ToLower("Constructor") == "constructor"
  {
    Text.LowerWord("Constructor", "constructor");
  }

  lemma ConstructorClean()
    ensures Text.IsCleanKey("constructor")
  {
    Text.PlainKey("constructor");
  }

  lemma ConstructorKey()
    ensures Text.NormalizeKey("Constructor") == "constructor"
  {
    Text.NormalizeKeyIgnoresCase("Constructor");
    ConstructorLower();
    ConstructorClean();
    Text.NormalizeKeyFixed("constructor");
  }

  /** The unit column "Constructor" yields a function object as written, and no unit once corrected. */
  lemma NormalizeUnitConstructor()
    ensures NormalizeUnitAsWritten("Constructor") == JsObject.Inherited("constructor")
    ensures NormalizeUnit("Constructor") == None
  {
    ConstructorKey();
    NormalizeUnitPrototypeKeys("Constructor");
  }

  lemma CanonicalInTable(u: string)
    requires IsCanonicalUnit(u)
    ensures UnitWord(u) == Some(u)
  {
  }

  lemma CanonicalClean(u: string)
    requires IsCanonicalUnit(u)
    ensures Text.IsCleanKey(u)
  {
    Text.PlainKey(u);
  }

  /** Each unit name is read as itself. */
  lemma NormalizeUnitCanonical(u: string)
    requires IsCanonicalUnit(u)
    ensures NormalizeUnit(u) == Some(u)
  {
    CanonicalInTable(u);
    CanonicalClean(u);
    Text.NormalizeKeyFixed(u);
    UnitFromTable(u, u, u);
  }

  /** Letter case does not matter. */
  lemma NormalizeUnitIgnoresCase(value: string)
    ensures NormalizeUnit(Text.ToLower(value)) == NormalizeUnit(value)
  {
    Text.NormalizeKeyIgnoresCase(value);
  }

  lemma PiecesParts()
    ensures "pièces" == "pi" + ['è'] + "ces" && "pieces" == "pi" + ['e'] + "ces"
    ensures Text.Decompose('è') == ['e', '\U{0300}']
    ensures Text.IsCleanKey("pieces")
  {
    Text.PlainKey("pieces");
  }

  lemma PiecesInTable()
    ensures UnitWord("pieces") == Some("pc")
  {
  }

  lemma PiecesKey()
    ensures Text.NormalizeKey("pièces") == "pieces"
  {
    PiecesParts();
    Text.NormalizeKeyAccent("pi", 'è', 'e', '\U{0300}', "ces");
  }

  lemma KgLower()
    ensures Text.ToLower("Kg") == "kg" && Text.ToLower("KGS") == "kgs"
    ensures Text.IsCleanKey("kg") && Text.IsCleanKey("kgs")
  {
    Text.LowerWord("Kg", "kg");
    Text.LowerWord("KGS", "kgs");
    Text.PlainKey("kg");
    Text.PlainKey("kgs");
  }

  lemma KgKey()
    ensures Text.NormalizeKey("Kg") == "kg"
  {
    Text.NormalizeKeyIgnoresCase("Kg");
    KgLower();
    Text.NormalizeKeyFixed("kg");
  }

  lemma KgsKey()
    ensures Text.NormalizeKey("KGS") == "kgs"
  {
    Text.NormalizeKeyIgnoresCase("KGS");
    KgLower();
    Text.NormalizeKeyFixed("kgs");
  }

  lemma KgsByContainment()
    ensures UnitWord("kgs") == None && UnitByContainment("kgs") == Some("kg")
  {
    assert "kgs"[..2] == "kg";
  }

  /** "Kg" is kg. */
  lemma NormalizeUnitKg()
    ensures NormalizeUnit("Kg") == Some("kg")
  {
    KgKey();
    CanonicalInTable("kg");
    UnitFromTable("Kg", "kg", "kg");
  }

  /** "pièces" is pc. */
  lemma NormalizeUnitPieces()
    ensures NormalizeUnit("pièces") == Some("pc")
  {
    PiecesKey();
    PiecesInTable();
    UnitFromTable("pièces", "pieces", "pc");
  }

  /** "KGS" is not in the table and contains kg, which is tried before g. */
  lemma NormalizeUnitKgs()
    ensures NormalizeUnit("KGS") == Some("kg")
  {
    KgsKey();
    KgsByContainment();
    UnitFromContainment("KGS", "kgs");
  }

  // ---------------------------------------------------------------------------
  // Prices

  /** The characters `parsePrice` keeps: `[\d,.-]`. */
  predicate IsPriceChar(c: char) {
    Decimal.IsDigit(c) || c == ',' || c == '.' || c == '-'
  }

  predicate AllPriceChars(s: string) {
    forall i :: 0 <= i < |s| ==> IsPriceChar(s[i])
  }

  /** `replace(/[^\d,.-]/g, "")`. */
  function KeepPriceChars(s: string): (r: string)
    ensures |r| <= |s| && AllPriceChars(r)
  {
    if s == [] then []
    else if IsPriceChar(s[0]) then [s[0]] + KeepPriceChars(s[1..])
    else KeepPriceChars(s[1..])
  }

  /** `replace(/c/g, "")` for a one-character pattern `c`. */
  function RemoveAll(s: string, c: char): (r: string)
    ensures |r| <= |s| && c !in r
  {
    if s == [] then []
    else if s[0] == c then RemoveAll(s[1..], c)
    else [s[0]] + RemoveAll(s[1..], c)
  }

  /** `replace(a, b)` for one-character strings: only the first `a` is replaced. */
  function ReplaceFirst(s: string, a: char, b: char): (r: string)
    ensures |r| == |s|
  {
    if s == [] then []
    else if s[0] == a then [b] + s[1..]
    else [s[0]] + ReplaceFirst(s[1..], a, b)
  }

  /**
   * The separator rewriting of `parsePrice`: with both a comma and a point the
   * points are dropped and the first comma becomes the decimal point; otherwise
   * only the first comma becomes a point.
   */
  function Separators(cleaned: string): string {
    if ',' in cleaned && '.' in cleaned then ReplaceFirst(RemoveAll(cleaned, '.'), ',', '.')
    else ReplaceFirst(cleaned, ',', '.')
  }

  /** `parsePrice`: keep the price characters, reject a blank or lone sign, rewrite the separators, `parseFloat`. */
  function ParsePrice(value: string): Option<real> {
    var cleaned := Text.Trim(KeepPriceChars(value));
    if cleaned == [] || cleaned == "-" || cleaned == "--" then None
    else Decimal.ParseFloat(Separators(cleaned))
  }

  /** A price text made of price characters, neither blank nor a lone sign, is read through its separator rewriting. */
  lemma PriceThrough(s: string, n: string)
    requires AllPriceChars(s) && s != [] && s != "-" && s != "--" && Separators(s) == n
    ensures ParsePrice(s) == Decimal.ParseFloat(n)
  {
    Cleaned(s);
  }

  lemma {:induction false} KeepAppend(a: string, b: string)
    ensures KeepPriceChars(a + b) == KeepPriceChars(a) + KeepPriceChars(b)
  {
    if a == [] {
      assert a + b == b;
    } else {
      assert (a + b)[1..] == a[1..] + b;
      KeepAppend(a[1..], b);
    }
  }

  lemma {:induction false} KeepNoop(s: string)
    requires AllPriceChars(s)
    ensures KeepPriceChars(s) == s
  {
    if s != [] {
      KeepNoop(s[1..]);
    }
  }

  lemma {:induction false} KeepNone(s: string)
    requires forall i :: 0 <= i < |s| ==> !IsPriceChar(s[i])
    ensures KeepPriceChars(s) == []
  {
    if s != [] {
      KeepNone(s[1..]);
    }
  }

  /** Filtering leaves no whitespace, so the `trim` after it changes nothing. */
  lemma TrimPriceChars(s: string)
    requires AllPriceChars(s)
    ensures Text.Trim(s) == s
  {
    if s != [] {
      assert IsPriceChar(s[0]) && IsPriceChar(s[|s| - 1]);
    }
    Text.TrimNoop(s);
  }

  lemma {:induction false} RemoveAllAppend(a: string, b: string, c: char)
    ensures RemoveAll(a + b, c) == RemoveAll(a, c) + RemoveAll(b, c)
  {
    if a == [] {
      assert a + b == b;
    } else {
      assert (a + b)[1..] == a[1..] + b;
      RemoveAllAppend(a[1..], b, c);
    }
  }

  lemma {:induction false} RemoveAllAbsent(s: string, c: char)
    requires c !in s
    ensures RemoveAll(s, c) == s
  {
    if s != [] {
      RemoveAllAbsent(s[1..], c);
    }
  }

  lemma {:induction false} ReplaceFirstAbsent(s: string, a: char, b: char)
    requires a !in s
    ensures ReplaceFirst(s, a, b) == s
  {
    if s != [] {
      ReplaceFirstAbsent(s[1..], a, b);
    }
  }

  /** The first `a` is the one replaced; everything before and after it is kept. */
  lemma {:induction false} ReplaceFirstAt(pre: string, a: char, b: char, post: string)
    requires a !in pre
    ensures ReplaceFirst(pre + [a] + post, a, b) == pre + [b] + post
  {
    if pre == [] {
      assert pre + [a] + post == [a] + post;
    } else {
      assert (pre + [a] + post)[1..] == pre[1..] + [a] + post;
      ReplaceFirstAt(pre[1..], a, b, post);
    }
  }

  /** The characters other than digits, separators and signs play no part: "12,50 €" reads as "12,50". */
  lemma ParsePriceIgnoresOthers(pre: string, s: string, post: string)
    requires forall i :: 0 <= i < |pre| ==> !IsPriceChar(pre[i])
    requires forall i :: 0 <= i < |post| ==> !IsPriceChar(post[i])
    ensures ParsePrice(pre + s + post) == ParsePrice(s)
  {
    KeepAppend(pre + s, post);
    KeepAppend(pre, s);
    KeepNone(pre);
    KeepNone(post);
    Seqs.AppendEmpty(KeepPriceChars(s));
  }

  /** No digit and separator text, a lone sign or two signs give no price. */
  lemma ParsePriceBlank(value: string)
    requires KeepPriceChars(value) == [] || KeepPriceChars(value) == "-" || KeepPriceChars(value) == "--"
    ensures ParsePrice(value) == None
  {
    TrimPriceChars(KeepPriceChars(value));
  }

  /** The price text is kept whole when it is made of price characters only. */
  lemma Cleaned(s: string)
    requires AllPriceChars(s)
    ensures Text.Trim(KeepPriceChars(s)) == s
  {
    KeepNoop(s);
    TrimPriceChars(s);
  }

  lemma DigitsArePriceChars(d: string)
    requires Decimal.AllDigits(d)
    ensures AllPriceChars(d) && ',' !in d && '.' !in d && '-' !in d
  {
    assert forall i :: 0 <= i < |d| ==> Decimal.IsDigit(d[i]);
  }

  lemma HoldsComma(d: string, f: string)
    requires ',' !in d
    ensures ',' in d + "," + f
  {
    assert (d + "," + f)[|d|] == ',';
  }

  lemma HoldsPoint(d: string, f: string)
    ensures '.' in d + "." + f
  {
    assert (d + "." + f)[|d|] == '.';
  }

  lemma DigitsNotBlank(d: string, f: string, sep: string)
    requires Decimal.AllDigits(d) && |d| + |f| > 0 && (sep == "," || sep == ".")
    ensures d + sep + f != [] && d + sep + f != "-" && d + sep + f != "--"
  {
    if d != [] {
      assert (d + sep + f)[0] == d[0];
    } else {
      assert |d + sep + f| >= 2;
      assert (d + sep + f)[0] == sep[0];
    }
  }

  lemma SeparatorsComma(d: string, f: string)
    requires Decimal.AllDigits(d) && Decimal.AllDigits(f)
    ensures Separators(d + "," + f) == d + "." + f
  {
    DigitsArePriceChars(d);
    DigitsArePriceChars(f);
    var s := d + "," + f;
    assert '.' !in s;
    ReplaceFirstAt(d, ',', '.', f);
  }

  /** A decimal comma: "12,5" is 12.5. */
  lemma ParsePriceComma(d: string, f: string)
    requires Decimal.AllDigits(d) && Decimal.AllDigits(f) && |d| + |f| > 0
    ensures ParsePrice(d + "," + f) == Some(Decimal.DecimalValue(d, f))
  {
    DigitsArePriceChars(d);
    DigitsArePriceChars(f);
    PriceChars3(d, ",", f);
    DigitsNotBlank(d, f, ",");
    SeparatorsComma(d, f);
    PriceThrough(d + "," + f, d + "." + f);
    Decimal.ParseFloatDecimal(d, f, []);
    Seqs.AppendEmpty(d + "." + f);
  }

  lemma PriceChars3(a: string, b: string, c: string)
    requires AllPriceChars(a) && AllPriceChars(b) && AllPriceChars(c)
    ensures AllPriceChars(a + b + c)
  {
    assert forall i :: 0 <= i < |a + b + c| ==> (a + b + c)[i] == if i < |a| then a[i] else if i < |a| + |b| then b[i - |a|] else c[i - |a| - |b|];
  }

  lemma SeparatorsPoint(d: string, f: string)
    requires Decimal.AllDigits(d) && Decimal.AllDigits(f)
    ensures Separators(d + "." + f) == d + "." + f
  {
    DigitsArePriceChars(d);
    DigitsArePriceChars(f);
    assert ',' !in d + "." + f;
    ReplaceFirstAbsent(d + "." + f, ',', '.');
  }

  /** A decimal point: "12.5" is 12.5, and a lone point reads as a decimal point, so "1.234" is 1.234. */
  lemma ParsePricePoint(d: string, f: string)
    requires Decimal.AllDigits(d) && Decimal.AllDigits(f) && |d| + |f| > 0
    ensures ParsePrice(d + "." + f) == Some(Decimal.DecimalValue(d, f))
  {
    DigitsArePriceChars(d);
    DigitsArePriceChars(f);
    PriceChars3(d, ".", f);
    DigitsNotBlank(d, f, ".");
    SeparatorsPoint(d, f);
    PriceThrough(d + "." + f, d + "." + f);
    Decimal.ParseFloatDecimal(d, f, []);
    Seqs.AppendEmpty(d + "." + f);
  }

  lemma ParsePriceInteger(d: string)
    requires Decimal.AllDigits(d) && |d| > 0
    ensures ParsePrice(d) == Some(Decimal.DecimalValue(d, []))
  {
    DigitsArePriceChars(d);
    assert d != "-" && d != "--" by { assert Decimal.IsDigit(d[0]); }
    ReplaceFirstAbsent(d, ',', '.');
    PriceThrough(d, d);
    Decimal.ParseFloatInteger(d, []);
    Seqs.AppendEmpty(d);
  }

  lemma DigitsConcat(a: string, b: string)
    requires Decimal.AllDigits(a) && Decimal.AllDigits(b)
    ensures Decimal.AllDigits(a + b)
  {
    assert forall i :: 0 <= i < |a + b| ==> (a + b)[i] == if i < |a| then a[i] else b[i - |a|];
  }

  /** Removing `c` from a string with `c` in it drops just that character. */
  lemma RemoveAllDrop(a: string, c: char, b: string)
    ensures RemoveAll(a + [c] + b, c) == RemoveAll(a, c) + RemoveAll(b, c)
  {
    RemoveAllAppend(a + [c], b, c);
    RemoveAllAppend(a, [c], c);
    assert RemoveAll([c], c) == [];
    Seqs.AppendEmpty(RemoveAll(a, c));
  }

  /** Removing `c` keeps every other character. */
  lemma RemoveAllKeep(a: string, x: char, b: string, c: char)
    requires x != c
    ensures RemoveAll(a + [x] + b, c) == RemoveAll(a, c) + [x] + RemoveAll(b, c)
  {
    RemoveAllAppend(a + [x], b, c);
    RemoveAllAppend(a, [x], c);
    assert RemoveAll([x], c) == [x];
  }

  lemma RemovePoints(d1: string, d2: string, f: string)
    requires '.' !in d1 && '.' !in d2 && '.' !in f
    ensures RemoveAll(d1 + "." + d2 + "," + f, '.') == d1 + d2 + "," + f
  {
    var t := d2 + "," + f;
    Seqs.Assoc5(d1, ".", d2, ",", f);
    Seqs.Assoc4(".", d2, ",", f);
    Seqs.Assoc3(d2, ",", f);
    Seqs.Assoc3(d1, ".", t);
    RemoveAllDrop(d1, '.', t);
    RemoveAllKeep(d2, ',', f, '.');
    RemoveAllAbsent(d1, '.');
    RemoveAllAbsent(d2, '.');
    RemoveAllAbsent(f, '.');
    Seqs.Assoc4(d1, d2, ",", f);
  }

  lemma SeparatorsGrouped(d1: string, d2: string, f: string)
    requires Decimal.AllDigits(d1) && Decimal.AllDigits(d2) && Decimal.AllDigits(f)
    ensures Separators(d1 + "." + d2 + "," + f) == d1 + d2 + "." + f
  {
    var s := d1 + "." + d2 + "," + f;
    DigitsArePriceChars(d1);
    DigitsArePriceChars(d2);
    DigitsArePriceChars(f);
    assert s[|d1|] == '.' && s[|d1| + 1 + |d2|] == ',';
    RemovePoints(d1, d2, f);
    DigitsConcat(d1, d2);
    DigitsArePriceChars(d1 + d2);
    ReplaceFirstAt(d1 + d2, ',', '.', f);
  }

  /** With both separators, points group thousands and the comma is the decimal mark: "1.234,56" is 1234.56. */
  lemma ParsePriceGrouped(d1: string, d2: string, f: string)
    requires Decimal.AllDigits(d1) && Decimal.AllDigits(d2) && Decimal.AllDigits(f)
    requires |d1| + |d2| + |f| > 0
    ensures Decimal.AllDigits(d1 + d2)
    ensures ParsePrice(d1 + "." + d2 + "," + f) == Some(Decimal.DecimalValue(d1 + d2, f))
  {
    var s := d1 + "." + d2 + "," + f;
    DigitsArePriceChars(d1);
    DigitsArePriceChars(d2);
    DigitsArePriceChars(f);
    PriceChars3(d1 + "." + d2, ",", f) by {
      PriceChars3(d1, ".", d2);
    }
    DigitsNotBlank(d1, d2 + "," + f, ".") by {
      assert d1 + "." + (d2 + "," + f) == s;
    }
    SeparatorsGrouped(d1, d2, f);
    DigitsConcat(d1, d2);
    var n := d1 + d2 + "." + f;
    PriceThrough(s, n);
    Decimal.ParseFloatDecimal(d1 + d2, f, []);
    Seqs.AppendEmpty(n);
  }

  lemma SeparatorsNegative(d: string, f: string)
    requires Decimal.AllDigits(d) && Decimal.AllDigits(f)
    ensures Separators("-" + d + "," + f) == "-" + d + "." + f
  {
    DigitsArePriceChars(d);
    DigitsArePriceChars(f);
    assert '.' !in "-" + d + "," + f;
    assert ',' !in "-" + d;
    ReplaceFirstAt("-" + d, ',', '.', f);
  }

  /** A leading minus sign negates the price. */
  lemma ParsePriceNegative(d: string, f: string)
    requires Decimal.AllDigits(d) && Decimal.AllDigits(f) && |d| + |f| > 0
    ensures ParsePrice("-" + d + "," + f).Some?
    ensures ParsePrice("-" + d + "," + f).value == -Decimal.DecimalValue(d, f)
  {
    var s := "-" + d + "," + f;
    DigitsArePriceChars(d);
    DigitsArePriceChars(f);
    PriceChars3("-" + d, ",", f);
    assert |s| >= 3;
    SeparatorsNegative(d, f);
    PriceThrough(s, "-" + d + "." + f);
    Decimal.ParseFloatDecimal(d, f, []);
    Seqs.AppendEmpty("-" + d + "." + f);
  }

  lemma ValueExamples()
    ensures Decimal.Value("1234") == 1234 && Decimal.Value("12") == 12
    ensures Decimal.Fraction("56") == 0.56 && Decimal.Fraction("5") == 0.5
  {
    assert "1234"[..3] == "123" && "123"[..2] == "12" && "12"[..1] == "1" && "1"[..0] == [];
    assert "56"[1..] == "6" && "6"[1..] == [] && "5"[1..] == [];
    assert Decimal.Value("1") == 1;
    assert Decimal.Value("12") == 12;
    assert Decimal.Value("123") == 123;
    assert Decimal.Fraction("6") == 0.6;
  }

  lemma PriceExampleParts()
    ensures "1.234,56" == "1" + "." + "234" + "," + "56" && "1" + "234" == "1234"
    ensures "12,5" == "12" + "," + "5"
    ensures Decimal.AllDigits("1") && Decimal.AllDigits("234") && Decimal.AllDigits("56")
    ensures Decimal.AllDigits("12") && Decimal.AllDigits("5")
  {
  }

  /** "1.234,56" is 1234.56 and "12,5" is 12.5. */
  lemma ParsePriceExamples()
    ensures ParsePrice("1.234,56") == Some(1234.56)
    ensures ParsePrice("12,5") == Some(12.5)
  {
    PriceExampleParts();
    ParsePriceGrouped("1", "234", "56");
    ParsePriceComma("12", "5");
    ValueExamples();
  }
}
