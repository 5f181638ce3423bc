/**
 * Recipe costing (src/utils/costing.ts): reading a quantity such as "200 g",
 * converting it into the unit a price is quoted in, the cost of one
 * ingredient line and the food cost of a recipe.
 */
module Costing {
  import opened Wrappers
  import Text
  import Decimal
  import CsvFields
  import JsObject
  import opened Fiche

  // ---------------------------------------------------------------------------
  // Quantities

  /** `UNIT_ALIASES`: the unit a word after the number names, if it is one of the table's own keys. */
  function UnitAlias(word: string): (r: Option<string>)
    ensures r.Some? ==> CsvFields.IsCanonicalUnit(r.value)
  {
    match word
    case "kg" => Some("kg")
    case "g" => Some("g")
    case "gr" => Some("g")
    case "grammo" => Some("g")
    case "grammi" => Some("g")
    case "l" => Some("l")
    case "lt" => Some("l")
    case "litro" => Some("l")
    case "litri" => Some("l")
    case "ml" => Some("ml")
    case "cl" => Some("cl")
    case "pc" => Some("pc")
    case "pcs" => Some("pc")
    case "pz" => Some("pc")
    case "pezzo" => Some("pc")
    case "pezzi" => Some("pc")
    case _ => None
  }

  /** `[\d.]`. */
  predicate IsNumberChar(c: char) {
    Decimal.IsDigit(c) || c == '.'
  }

  /**
   * `[a-zà-ù]` under the `i` flag: ASCII letters, U+00E0 to U+00F9 (which
   * includes ÷) and the capitals U+00C0 to U+00D9 whose lower case is in that
   * range (all but ×).
   */
  predicate IsUnitLetter(c: char) {
    || 'a' <= c <= 'z' || 'A' <= c <= 'Z'
    || '\U{00E0}' <= c <= '\U{00F9}'
    || ('\U{00C0}' <= c <= '\U{00D9}' && c != '\U{00D7}')
  }

  predicate NotNumberChar(c: char) {
    !IsNumberChar(c)
  }

  /** The length of the longest prefix of `s` whose characters all satisfy `p`. */
  function LeadingRun(s: string, p: char -> bool): (n: nat)
    ensures n <= |s|
    ensures forall j :: 0 <= j < n ==> p(s[j])
    ensures n < |s| ==> !p(s[n])
  {
    if s == [] || !p(s[0]) then 0
    else
      var n := 1 + LeadingRun(s[1..], p);
      assert forall j :: 1 <= j < n ==> s[j] == s[1..][j - 1];
      n
  }

  /** The two groups of a match of the quantity pattern: the number and the unit word. */
  datatype QuantityMatch = QuantityMatch(number: string, word: string)

  /**
   * A text laid out as `pre + num + sp + w + tail` where the pattern's match
   * is `num`, `sp`, `w`: `pre` has no digit or point, `num` is a non-empty
   * run of digits and points, `sp` whitespace and `w` letters, each run
   * maximal, so the rest cannot extend the last non-empty part.
   */
  predicate QuantityLayout(pre: string, num: string, sp: string, w: string, tail: string) {
    && (forall i :: 0 <= i < |pre| ==> !IsNumberChar(pre[i]))
    && num != [] && (forall i :: 0 <= i < |num| ==> IsNumberChar(num[i]))
    && (forall i :: 0 <= i < |sp| ==> Text.IsSpace(sp[i]))
    && (forall i :: 0 <= i < |w| ==> IsUnitLetter(w[i]))
    && (tail == [] || !IsUnitLetter(tail[0]))
    && (w == [] && tail != [] ==> !Text.IsSpace(tail[0]))
    && (sp == [] && w == [] && tail != [] ==> !IsNumberChar(tail[0]))
  }

  /**
   * `raw.match(/([\d.]+)\s*([a-zà-ù]*)/i)`: the leftmost match starts at the
   * first digit or point; each part is greedy and the later ones may be empty,
   * so the match is the digit-and-point run there, the whitespace after it and
   * the letters after that.
   */
  function MatchQuantity(raw: string): (r: Option<QuantityMatch>)
    ensures r.None? <==> forall i :: 0 <= i < |raw| ==> !IsNumberChar(raw[i])
    ensures r.Some? ==> forall j :: 0 <= j < |r.value.word| ==> IsUnitLetter(r.value.word[j]) && r.value.word[j] in raw
  {
    var i := LeadingRun(raw, NotNumberChar);
    if i == |raw| then None
    else
      var rest := raw[i..];
      var n := LeadingRun(rest, IsNumberChar);
      var after := rest[n..];
      var k := LeadingRun(after, Text.IsSpace);
      var tail := after[k..];
      var l := LeadingRun(tail, IsUnitLetter);
      var word := tail[..l];
      assert forall j :: 0 <= j < |word| ==> word[j] == raw[i + n + k + j];
      Some(QuantityMatch(rest[..n], word))
  }

  /** `qty.trim().toLowerCase().replace(",", ".")`: only the first comma becomes a point. */
  function Raw(qty: string): string {
    CsvFields.ReplaceFirst(Text.ToLower(Text.Trim(qty)), ',', '.')
  }

  /** What a quantity text reads as before the unit table is consulted: the number and the word after it. */
  datatype Reading = Reading(value: real, word: string)

  /** The common part of `parseQuantity`: null for a blank text, no digit or point, or a run that is not one number. */
  function ReadQuantity(qty: string): (r: Option<Reading>)
    ensures Text.Trim(qty) == [] ==> r.None?
    ensures r.Some? ==> LowerWord(r.value.word)
  {
    RawLower(qty);
    ReadRaw(Raw(qty))
  }

  /** A word the pattern can match in a lowered text: letters, none of them an ASCII capital. */
  predicate LowerWord(w: string) {
    forall j :: 0 <= j < |w| ==> IsUnitLetter(w[j]) && !('A' <= w[j] <= 'Z')
  }

  /** The reading of the lowered, comma-fixed text. */
  function ReadRaw(raw: string): (r: Option<Reading>)
    ensures r.Some? ==> forall j :: 0 <= j < |r.value.word| ==> IsUnitLetter(r.value.word[j]) && r.value.word[j] in raw
  {
    if raw == [] then None
    else
      match MatchQuantity(raw)
      case None => None
      case Some(m) =>
        match Decimal.NumberOf(m.number)
        case None => None
        case Some(v) => Some(Reading(v, m.word))
  }

  /**
   * A parsed quantity. The unit slot holds the JavaScript value found for it:
   * `Own(u)` a unit name, `Missing` for `undefined`, `Inherited` for an
   * `Object.prototype` member.
   */
  datatype Quantity = Quantity(value: real, unit: JsObject.Lookup<string>)

  /** `parseQuantity` with the alias table read as a dictionary: a word that is not one of its keys gives no unit. */
  function ParseQuantity(qty: string): Option<Quantity> {
    QuantityOf(ReadQuantity(qty))
  }

  /** The quantity a reading gives: the unit the alias table names for the word, if any. */
  function QuantityOf(rd: Option<Reading>): (r: Option<Quantity>)
    ensures r.Some? <==> rd.Some?
    ensures r.Some? ==> r.value.value == rd.value.value && !r.value.unit.Inherited?
    ensures r.Some? && r.value.unit.Own? ==> CsvFields.IsCanonicalUnit(r.value.unit.value)
    ensures r.Some? ==> (r.value.unit.Own? <==> UnitAlias(rd.value.word).Some?)
    ensures r.Some? && r.value.unit.Own? ==> UnitAlias(rd.value.word) == Some(r.value.unit.value)
    ensures r.Some? && rd.value.word == [] ==> r.value.unit.Missing?
  {
    match rd
    case None => None
    case Some(rd) =>
      if rd.word == [] then Some(Quantity(rd.value, JsObject.Missing))
      else Some(Quantity(rd.value, CsvFields.AsLookup(UnitAlias(rd.word))))
  }

  /**
   * `parseQuantity` as written: `UNIT_ALIASES[unitRaw]` is an object lookup, so
   * the word "constructor" finds the inherited `Object` function, which is
   * truthy and becomes the unit.
   */
  function ParseQuantityAsWritten(qty: string): Option<Quantity> {
    QuantityOfAsWritten(ReadQuantity(qty))
  }

  function QuantityOfAsWritten(rd: Option<Reading>): Option<Quantity> {
    match rd
    case None => None
    case Some(rd) =>
      if rd.word == [] then Some(Quantity(rd.value, JsObject.Missing))
      else Some(Quantity(rd.value, JsObject.Get(UnitAlias(rd.word), rd.word)))
  }

  // ---------------------------------------------------------------------------
  // What the quantity reader promises

  /** The run LeadingRun measures is `n` long when `n` characters satisfy `p` and the next one does not. */
  lemma {:induction false} LeadingRunAt(s: string, p: char -> bool, n: nat)
    requires n <= |s| && (forall j :: 0 <= j < n ==> p(s[j]))
    requires n == |s| || !p(s[n])
    ensures LeadingRun(s, p) == n
  {
    if n > 0 {
      assert p(s[0]);
      assert forall j :: 0 <= j < n - 1 ==> s[1..][j] == s[j + 1];
      if n < |s| { assert s[1..][n - 1] == s[n]; }
      LeadingRunAt(s[1..], p, n - 1);
    }
  }

  /** A run of characters satisfying `p` followed by one that does not: LeadingRun stops between the two parts. */
  lemma RunThen(a: string, b: string, p: char -> bool)
    requires forall j :: 0 <= j < |a| ==> p(a[j])
    requires b == [] || !p(b[0])
    ensures LeadingRun(a + b, p) == |a| && (a + b)[..|a|] == a && (a + b)[|a|..] == b
  {
    var s := a + b;
    assert forall j :: 0 <= j < |a| ==> s[j] == a[j];
    if b != [] { assert s[|a|] == b[0]; }
    LeadingRunAt(s, p, |a|);
  }

  /** Whitespace, letters and the characters of numbers are three disjoint classes. */
  lemma CharClasses(c: char)
    ensures Text.IsSpace(c) ==> !IsNumberChar(c) && !IsUnitLetter(c)
    ensures IsUnitLetter(c) ==> !IsNumberChar(c)
  {
  }

  /** The first character of a possibly empty run followed by the rest. */
  lemma HeadOf(a: string, b: string)
    requires a + b != []
    ensures (a + b)[0] == if a != [] then a[0] else b[0]
  {
  }

  /**
   * The pattern's match in a text laid out as: characters that are neither
   * digits nor points, a run of digits and points, whitespace, letters, and a
   * rest that starts with none of these.
   */
  lemma MatchQuantityShape(pre: string, num: string, sp: string, w: string, tail: string)
    requires QuantityLayout(pre, num, sp, w, tail)
    ensures MatchQuantity(pre + (num + (sp + (w + tail)))) == Some(QuantityMatch(num, w))
  {
    var t := w + tail;
    var after := sp + t;
    var rest := num + after;
    var raw := pre + rest;
    RunThen(w, tail, IsUnitLetter);
    if t != [] {
      HeadOf(w, tail);
      CharClasses(t[0]);
    }
    RunThen(sp, t, Text.IsSpace);
    if after != [] {
      HeadOf(sp, t);
      CharClasses(after[0]);
    }
    RunThen(num, after, IsNumberChar);
    HeadOf(num, after);
    RunThen(pre, rest, NotNumberChar);
    MatchParts(raw, |pre|, |num|, |sp|, |w|);
  }

  /** MatchQuantity in terms of the four runs it measures. */
  lemma MatchParts(raw: string, i: nat, n: nat, k: nat, l: nat)
    requires i < |raw| && LeadingRun(raw, NotNumberChar) == i
    requires LeadingRun(raw[i..], IsNumberChar) == n
    requires LeadingRun(raw[i..][n..], Text.IsSpace) == k
    requires LeadingRun(raw[i..][n..][k..], IsUnitLetter) == l
    ensures MatchQuantity(raw) == Some(QuantityMatch(raw[i..][..n], raw[i..][n..][k..][..l]))
  {
  }

  /** `s` is the run `a` of characters satisfying `p` followed by a rest `b` that does not start with one. */
  predicate Split(s: string, p: char -> bool, a: string, b: string) {
    s == a + b && (forall j :: 0 <= j < |a| ==> p(a[j])) && (b == [] || !p(b[0]))
  }

  /** The run LeadingRun measures splits `s` that way. */
  lemma RunSplit(s: string, p: char -> bool)
    ensures Split(s, p, s[..LeadingRun(s, p)], s[LeadingRun(s, p)..])
  {
    var n := LeadingRun(s, p);
    var a := s[..n];
    assert forall j :: 0 <= j < |a| ==> a[j] == s[j];
    if n < |s| { assert s[n..][0] == s[n]; }
    assert s == a + s[n..];
  }

  /**
   * Conversely, every match comes from a layout: the number is the first run
   * of digits and points, and the word the letters after the whitespace that
   * follows it.
   */
  lemma MatchQuantityLayout(raw: string)
    requires MatchQuantity(raw).Some?
    ensures var m := MatchQuantity(raw).value;
      exists pre, sp, tail :: LaidOut(raw, pre, m.number, sp, m.word, tail)
  {
    var i := LeadingRun(raw, NotNumberChar);
    var n := LeadingRun(raw[i..], IsNumberChar);
    var k := LeadingRun(raw[i..][n..], Text.IsSpace);
    var l := LeadingRun(raw[i..][n..][k..], IsUnitLetter);
    MatchParts(raw, i, n, k, l);
    SplitsLayout(raw, i, n, k, l);
  }

  /** The four splits MatchQuantity makes lay the text out. */
  lemma SplitsLayout(raw: string, i: nat, n: nat, k: nat, l: nat)
    requires i < |raw| && LeadingRun(raw, NotNumberChar) == i
    requires LeadingRun(raw[i..], IsNumberChar) == n
    requires LeadingRun(raw[i..][n..], Text.IsSpace) == k
    requires LeadingRun(raw[i..][n..][k..], IsUnitLetter) == l
    ensures exists pre, sp, tail :: LaidOut(raw, pre, raw[i..][..n], sp, raw[i..][n..][k..][..l], tail)
  {
    var rest := raw[i..];
    var after := rest[n..];
    var t := after[k..];
    RunSplit(raw, NotNumberChar);
    RunSplit(rest, IsNumberChar);
    RunSplit(after, Text.IsSpace);
    RunSplit(t, IsUnitLetter);
    LayoutOfSplits(raw, raw[..i], rest, rest[..n], after, after[..k], t, t[..l], t[l..]);
    LayoutExists(raw, raw[..i], rest[..n], after[..k], t[..l], t[l..]);
  }

  /** The layout conditions, from the four splits. */
  lemma LayoutOfSplits(raw: string, pre: string, rest: string, num: string, after: string, sp: string, t: string, w: string, tail: string)
    requires rest != []
    requires Split(raw, NotNumberChar, pre, rest) && Split(rest, IsNumberChar, num, after)
    requires Split(after, Text.IsSpace, sp, t) && Split(t, IsUnitLetter, w, tail)
    ensures LaidOut(raw, pre, num, sp, w, tail)
  {
    if w == [] { assert t == tail; }
    if sp == [] { assert after == t; }
  }

  /** `raw` is `pre + num + sp + w + tail` with that layout. */
  predicate LaidOut(raw: string, pre: string, num: string, sp: string, w: string, tail: string) {
    QuantityLayout(pre, num, sp, w, tail) && raw == pre + (num + (sp + (w + tail)))
  }

  /** A layout of the text, as the witness it is. */
  lemma LayoutExists(raw: string, pre: string, num: string, sp: string, w: string, tail: string)
    requires LaidOut(raw, pre, num, sp, w, tail)
    ensures exists pre', sp', tail' :: LaidOut(raw, pre', num, sp', w, tail')
  {
  }

  /** The reading of a text with that layout: the run is read with `Number`, the letters are the word. */
  lemma ReadRawShape(pre: string, num: string, sp: string, w: string, tail: string)
    requires QuantityLayout(pre, num, sp, w, tail)
    ensures ReadRaw(pre + (num + (sp + (w + tail)))) ==
      match Decimal.NumberOf(num) case None => None case Some(v) => Some(Reading(v, w))
  {
    MatchQuantityShape(pre, num, sp, w, tail);
  }

  /**
   * `parseQuantity` on a text whose lowered, comma-fixed form has that layout:
   * the run is read with `Number`, and the word names a unit only when it is
   * one of the table's keys.
   */
  lemma ParseQuantityShape(qty: string, pre: string, num: string, sp: string, w: string, tail: string)
    requires Raw(qty) == pre + (num + (sp + (w + tail)))
    requires QuantityLayout(pre, num, sp, w, tail)
    ensures ReadQuantity(qty) == match Decimal.NumberOf(num) case None => None case Some(v) => Some(Reading(v, w))
  {
    ReadRawShape(pre, num, sp, w, tail);
  }

  /** A run with two points is not a number, so "1.2.3 kg" has no quantity. */
  lemma ParseQuantityTwoPoints(qty: string, pre: string, d: string, f: string, g: string, sp: string, w: string, tail: string)
    requires Decimal.AllDigits(d) && Decimal.AllDigits(f) && Decimal.AllDigits(g) && |d| + |f| > 0
    requires Raw(qty) == pre + ((d + "." + f + "." + g) + (sp + (w + tail)))
    requires forall i :: 0 <= i < |pre| ==> !IsNumberChar(pre[i])
    requires forall i :: 0 <= i < |sp| ==> Text.IsSpace(sp[i])
    requires forall i :: 0 <= i < |w| ==> IsUnitLetter(w[i])
    requires tail == [] || !IsUnitLetter(tail[0])
    requires w == [] && tail != [] ==> !Text.IsSpace(tail[0])
    requires sp == [] && w == [] && tail != [] ==> !IsNumberChar(tail[0])
    ensures ParseQuantity(qty) == None
  {
    var num := d + "." + f + "." + g;
    TwoPointsChars(d, f, g);
    Decimal.NumberOfTwoPoints(d, f, g);
    ParseQuantityShape(qty, pre, num, sp, w, tail);
    assert ReadQuantity(qty) == None;
  }

  /** Digits and points are all number characters. */
  lemma TwoPointsChars(d: string, f: string, g: string)
    requires Decimal.AllDigits(d) && Decimal.AllDigits(f) && Decimal.AllDigits(g)
    ensures forall i :: 0 <= i < |d + "." + f + "." + g| ==> IsNumberChar((d + "." + f + "." + g)[i])
  {
    var num := d + "." + f + "." + g;
    forall i | 0 <= i < |num| ensures IsNumberChar(num[i]) {
      if i < |d| { assert num[i] == d[i]; }
      else if i == |d| || i == |d| + 1 + |f| { }
      else if i < |d| + 1 + |f| { assert num[i] == f[i - |d| - 1]; }
      else { assert num[i] == g[i - |d| - 2 - |f|]; }
    }
  }

  lemma {:induction false} ToLowerAppend(a: string, b: string)
    ensures Text.ToLower(a + b) == Text.ToLower(a) + Text.ToLower(b)
  {
  }

  /** Only the first comma of the trimmed, lowered text becomes a point: "1,5 kg" reads as "1.5 kg". */
  lemma RawFirstComma(qty: string, before: string, after: string)
    requires Text.Trim(qty) == before + [','] + after && ',' !in before
    ensures Raw(qty) == Text.ToLower(before) + ['.'] + Text.ToLower(after)
  {
    ToLowerAppend(before + [','], after);
    ToLowerAppend(before, [',']);
    assert Text.ToLower([',']) == [','];
    assert ',' !in Text.ToLower(before);
    CsvFields.ReplaceFirstAt(Text.ToLower(before), ',', '.', Text.ToLower(after));
  }

  /** A text without a comma is only trimmed and lowered. */
  lemma RawNoComma(qty: string)
    requires ',' !in Text.Trim(qty)
    ensures Raw(qty) == Text.ToLower(Text.Trim(qty))
  {
    assert ',' !in Text.ToLower(Text.Trim(qty));
    CsvFields.ReplaceFirstAbsent(Text.ToLower(Text.Trim(qty)), ',', '.');
  }

  lemma {:induction false} ReplaceFirstChars(s: string, a: char, b: char)
    ensures forall i :: 0 <= i < |s| ==> CsvFields.ReplaceFirst(s, a, b)[i] == s[i] || CsvFields.ReplaceFirst(s, a, b)[i] == b
  {
    if s != [] && s[0] != a {
      ReplaceFirstChars(s[1..], a, b);
    }
  }

  /** The text the pattern searches holds no ASCII capital. */
  lemma RawLower(qty: string)
    ensures forall i :: 0 <= i < |Raw(qty)| ==> !('A' <= Raw(qty)[i] <= 'Z')
  {
    ReplaceFirstChars(Text.ToLower(Text.Trim(qty)), ',', '.');
  }

  lemma ProtoIsNoWord()
    ensures !IsUnitLetter("__proto__"[0])
  {
  }

  /**
   * The alias lookup as written and as a dictionary agree on every word of
   * lower-case letters except "constructor", the one lower-case
   * `Object.prototype` member such a word can spell.
   */
  lemma AliasLookupAgrees(w: string)
    requires LowerWord(w)
    requires w != "constructor"
    ensures JsObject.Get(UnitAlias(w), w) == CsvFields.AsLookup(UnitAlias(w))
  {
    ProtoIsNoWord();
    if UnitAlias(w).None? && w in JsObject.PrototypeMembers && w !in JsObject.LowerCaseMembers {
      JsObject.MembersWithCapitals(w);
    }
  }

  /** `parseQuantity` as written gives the same result as the dictionary reading unless the word is "constructor". */
  lemma ParseQuantityAsWrittenAgrees(qty: string)
    requires ReadQuantity(qty).Some? ==> ReadQuantity(qty).value.word != "constructor"
    ensures ParseQuantityAsWritten(qty) == ParseQuantity(qty)
  {
    QuantityOfAgrees(ReadQuantity(qty));
  }

  lemma QuantityOfAgrees(rd: Option<Reading>)
    requires rd.Some? ==> LowerWord(rd.value.word) && rd.value.word != "constructor"
    ensures QuantityOfAsWritten(rd) == QuantityOf(rd)
  {
    if rd.Some? && rd.value.word != [] {
      AliasLookupAgrees(rd.value.word);
    }
  }

  // ---------------------------------------------------------------------------
  // Examples

  lemma TrimConstructor()
    ensures Text.Trim("2 constructor") == "2 constructor"
  {
    Text.TrimNoop("2 constructor");
  }

  lemma LowerConstructor()
    ensures Text.ToLower("2 constructor") == "2 constructor"
  {
    Text.LowerNoop("2 constructor");
  }

  lemma NoCommaConstructor()
    ensures CsvFields.ReplaceFirst("2 constructor", ',', '.') == "2 constructor"
  {
    CsvFields.ReplaceFirstAbsent("2 constructor", ',', '.');
  }

  lemma PartsConstructor()
    ensures "2 constructor" == "" + ("2" + (" " + ("constructor" + "")))
  {
  }

  lemma RawConstructor()
    ensures Raw("2 constructor") == "" + ("2" + (" " + ("constructor" + "")))
  {
    TrimConstructor();
    LowerConstructor();
    NoCommaConstructor();
    PartsConstructor();
  }

  /** A quantity text that is a number, one space and a word reads as that number and word. */
  lemma ReadsNumberWord(qty: string, num: string, w: string, v: real)
    requires Raw(qty) == "" + (num + (" " + (w + "")))
    requires num != [] && forall i :: 0 <= i < |num| ==> IsNumberChar(num[i])
    requires forall i :: 0 <= i < |w| ==> IsUnitLetter(w[i])
    requires Decimal.NumberOf(num) == Some(v)
    ensures ReadQuantity(qty) == Some(Reading(v, w))
  {
    NumberSpaceWord(num, w);
    ParseQuantityShape(qty, "", num, " ", w, "");
  }

  /** A number, one space and a word, with nothing around them, is a layout. */
  lemma NumberSpaceWord(num: string, w: string)
    requires num != [] && forall i :: 0 <= i < |num| ==> IsNumberChar(num[i])
    requires forall i :: 0 <= i < |w| ==> IsUnitLetter(w[i])
    ensures QuantityLayout("", num, " ", w, "")
  {
    assert Text.IsSpace(" "[0]);
  }

  lemma NumberConstructor()
    ensures Decimal.NumberOf("2") == Some(2.0) && IsNumberChar("2"[0])
    ensures forall i :: 0 <= i < |"constructor"| ==> IsUnitLetter("constructor"[i])
  {
    Decimal.NumberOfDecimal("2", "");
    assert Decimal.DecimalValue("2", []) == 2.0;
  }

  /**
   * "2 constructor" as written gets the inherited `constructor` function as
   * its unit; the dictionary reading has no unit.
   */
  lemma ParseQuantityConstructor()
    ensures ParseQuantityAsWritten("2 constructor") == Some(Quantity(2.0, JsObject.Inherited("constructor")))
    ensures ParseQuantity("2 constructor") == Some(Quantity(2.0, JsObject.Missing))
  {
    RawConstructor();
    ConstructorUnitOf("2 constructor");
  }

  lemma ConstructorNoAlias()
    ensures UnitAlias("constructor") == None && "constructor" in JsObject.PrototypeMembers
  {
  }

  lemma ConstructorUnitOf(qty: string)
    requires Raw(qty) == "" + ("2" + (" " + ("constructor" + "")))
    ensures ParseQuantityAsWritten(qty) == Some(Quantity(2.0, JsObject.Inherited("constructor")))
    ensures ParseQuantity(qty) == Some(Quantity(2.0, JsObject.Missing))
  {
    ConstructorReads(qty);
    ConstructorNoAlias();
  }

  lemma ReadConstructor()
    ensures ReadQuantity("2 constructor") == Some(Reading(2.0, "constructor"))
  {
    RawConstructor();
    ConstructorReads("2 constructor");
  }

  lemma ConstructorReads(qty: string)
    requires Raw(qty) == "" + ("2" + (" " + ("constructor" + "")))
    ensures ReadQuantity(qty) == Some(Reading(2.0, "constructor"))
  {
    NumberConstructor();
    ReadsNumberWord(qty, "2", "constructor", 2.0);
  }

  lemma TrimKilos()
    ensures Text.Trim("1,5 Kg") == "1" + [','] + "5 Kg"
  {
    Text.TrimNoop("1,5 Kg");
    SplitKilos();
  }

  lemma SplitKilos()
    ensures "1,5 Kg" == "1" + [','] + "5 Kg"
  {
  }

  lemma RawKilos()
    ensures Raw("1,5 Kg") == Text.ToLower("1") + ['.'] + Text.ToLower("5 Kg")
  {
    TrimKilos();
    RawFirstComma("1,5 Kg", "1", "5 Kg");
  }

  lemma LowerKilos()
    ensures Text.ToLower("1") + ['.'] + Text.ToLower("5 Kg") == "" + ("1.5" + (" " + ("kg" + "")))
  {
    Text.LowerWord("1", "1");
    Text.LowerWord("5 Kg", "5 kg");
  }

  lemma NumberKilos()
    ensures Decimal.NumberOf("1.5") == Some(1.5)
  {
    Decimal.NumberOfDecimal("1", "5");
    assert "1" + "." + "5" == "1.5";
    assert Decimal.DecimalValue("1", "5") == 1.5;
  }

  /** "1,5 Kg" is one and a half kilogrammes: the comma is a decimal point and case does not matter. */
  lemma ParseQuantityKilos()
    ensures ParseQuantity("1,5 Kg") == Some(Quantity(1.5, JsObject.Own("kg")))
  {
    RawKilos();
    LowerKilos();
    KilosUnitOf("1,5 Kg");
  }

  lemma KilosUnitOf(qty: string)
    requires Raw(qty) == "" + ("1.5" + (" " + ("kg" + "")))
    ensures ParseQuantity(qty) == Some(Quantity(1.5, JsObject.Own("kg")))
  {
    KilosReads(qty);
    KilosAlias();
  }

  lemma KilosReads(qty: string)
    requires Raw(qty) == "" + ("1.5" + (" " + ("kg" + "")))
    ensures ReadQuantity(qty) == Some(Reading(1.5, "kg"))
  {
    NumberKilos();
    assert forall i :: 0 <= i < |"1.5"| ==> IsNumberChar("1.5"[i]);
    ReadsNumberWord(qty, "1.5", "kg", 1.5);
  }

  lemma KilosAlias()
    ensures QuantityOf(Some(Reading(1.5, "kg"))) == Some(Quantity(1.5, JsObject.Own("kg")))
  {
    assert UnitAlias("kg") == Some("kg");
  }

  lemma TrimApprox()
    ensures Text.Trim("2 kg env.") == "2 kg env."
  {
    Text.TrimNoop("2 kg env.");
  }

  lemma LowerApprox()
    ensures Text.ToLower("2 kg env.") == "2 kg env."
  {
    Text.LowerNoop("2 kg env.");
  }

  lemma NoCommaApprox()
    ensures CsvFields.ReplaceFirst("2 kg env.", ',', '.') == "2 kg env."
  {
    CsvFields.ReplaceFirstAbsent("2 kg env.", ',', '.');
  }

  lemma PartsApprox()
    ensures "2 kg env." == "" + ("2" + (" " + ("kg" + " env.")))
  {
  }

  lemma RawApprox()
    ensures Raw("2 kg env.") == "" + ("2" + (" " + ("kg" + " env.")))
  {
    TrimApprox();
    LowerApprox();
    NoCommaApprox();
    PartsApprox();
  }

  lemma LayoutApprox()
    ensures QuantityLayout("", "2", " ", "kg", " env.")
  {
    assert Text.IsSpace(" "[0]) && !IsUnitLetter(" env."[0]);
    assert forall i :: 0 <= i < |"kg"| ==> IsUnitLetter("kg"[i]);
  }

  /** Text after the unit word is ignored: "2 kg env." is 2 kg. */
  lemma ParseQuantityApprox()
    ensures ParseQuantity("2 kg env.") == Some(Quantity(2.0, JsObject.Own("kg")))
  {
    RawApprox();
    NumberConstructor();
    LayoutApprox();
    ParseQuantityShape("2 kg env.", "", "2", " ", "kg", " env.");
  }

  // ---------------------------------------------------------------------------
  // Conversion

  /** `parsed.unit === name`. */
  predicate UnitIs(unit: JsObject.Lookup<string>, name: string) {
    unit == JsObject.Own(name)
  }

  /** `qtyInPriceUnit`: the quantity expressed in the price's unit, when the two units convert. */
  function QtyInPriceUnit(parsed: Quantity, unitPriceUnit: Option<string>): Option<real> {
    var u := parsed.unit;
    var v := parsed.value;
    if !Truthy(unitPriceUnit) then None
    else if unitPriceUnit.value == "kg" then
      if UnitIs(u, "kg") then Some(v) else if UnitIs(u, "g") then Some(v / 1000.0) else None
    else if unitPriceUnit.value == "g" then
      if UnitIs(u, "kg") then Some(v * 1000.0) else if UnitIs(u, "g") then Some(v) else None
    else if unitPriceUnit.value == "l" then
      if UnitIs(u, "l") then Some(v)
      else if UnitIs(u, "ml") then Some(v / 1000.0)
      else if UnitIs(u, "cl") then Some(v / 100.0)
      else None
    else if unitPriceUnit.value == "ml" then
      if UnitIs(u, "l") then Some(v * 1000.0)
      else if UnitIs(u, "ml") then Some(v)
      else if UnitIs(u, "cl") then Some(v * 10.0)
      else None
    else if unitPriceUnit.value == "cl" then
      if UnitIs(u, "l") then Some(v * 100.0)
      else if UnitIs(u, "ml") then Some(v / 10.0)
      else if UnitIs(u, "cl") then Some(v)
      else None
    else if unitPriceUnit.value == "pc" then
      if u.Missing? || UnitIs(u, "pc") then Some(v) else None
    else None
  }

  /** What a unit measures. */
  datatype Dimension = Mass | Volume | Count

  function DimensionOf(u: string): Dimension
    requires CsvFields.IsCanonicalUnit(u)
  {
    if u == "kg" || u == "g" then Mass
    else if u == "pc" then Count
    else Volume
  }

  /** The size of a unit in grams, millilitres or pieces. */
  function BaseFactor(u: string): (f: real)
    requires CsvFields.IsCanonicalUnit(u)
    ensures f > 0.0
  {
    if u == "kg" then 1000.0
    else if u == "l" then 1000.0
    else if u == "cl" then 10.0
    else 1.0
  }

  /**
   * The conversion table is the one the base sizes define: units of the same
   * dimension convert by the ratio of their sizes, and units of different
   * dimensions do not convert.
   */
  lemma ConversionByFactors(v: real, u: string, p: string)
    requires CsvFields.IsCanonicalUnit(u) && CsvFields.IsCanonicalUnit(p)
    ensures DimensionOf(u) == DimensionOf(p) ==>
      QtyInPriceUnit(Quantity(v, JsObject.Own(u)), Some(p)) == Some(v * BaseFactor(u) / BaseFactor(p))
    ensures DimensionOf(u) != DimensionOf(p) ==> QtyInPriceUnit(Quantity(v, JsObject.Own(u)), Some(p)) == None
  {
  }

  /** A quantity without a unit is counted in pieces: only a price per piece accepts it. */
  lemma ConversionWithoutUnit(v: real, p: Option<string>)
    ensures QtyInPriceUnit(Quantity(v, JsObject.Missing), p) == (if p == Some("pc") then Some(v) else None)
  {
  }

  /** A missing or empty price unit, and a price unit the table does not know, convert nothing. */
  lemma ConversionUnknownPriceUnit(q: Quantity, p: Option<string>)
    requires !Truthy(p) || !CsvFields.IsCanonicalUnit(p.value)
    ensures QtyInPriceUnit(q, p) == None
  {
  }

  /** A quantity unit that is not a unit name converts to nothing. */
  lemma ConversionUnknownUnit(v: real, u: JsObject.Lookup<string>, p: Option<string>)
    requires u.Inherited? || (u.Own? && !CsvFields.IsCanonicalUnit(u.value))
    ensures QtyInPriceUnit(Quantity(v, u), p) == None
  {
  }

  /** Converting into the quantity's own unit changes nothing, and converting there and back is the identity. */
  lemma ConversionRoundTrip(v: real, u: string, p: string)
    requires CsvFields.IsCanonicalUnit(u) && CsvFields.IsCanonicalUnit(p) && DimensionOf(u) == DimensionOf(p)
    ensures QtyInPriceUnit(Quantity(v, JsObject.Own(u)), Some(u)) == Some(v)
    ensures var w := QtyInPriceUnit(Quantity(v, JsObject.Own(u)), Some(p)).value;
      QtyInPriceUnit(Quantity(w, JsObject.Own(p)), Some(u)) == Some(v)
  {
    ConversionByFactors(v, u, u);
    ConversionByFactors(v, u, p);
    var w := v * BaseFactor(u) / BaseFactor(p);
    ConversionByFactors(w, p, u);
    assert w * BaseFactor(p) / BaseFactor(u) == v;
  }

  // ---------------------------------------------------------------------------
  // Costs

  /** The cost of a line given the quantity read from it. */
  function CostOf(ingredient: IngredientLine, parsed: Option<Quantity>): (r: Option<real>)
  {
    if ingredient.unitPrice.None? || !Truthy(ingredient.unitPriceUnit) then None
    else
      match parsed
      case None => None
      case Some(q) =>
        match QtyInPriceUnit(q, ingredient.unitPriceUnit)
        case None => None
        case Some(amount) => Some(ingredient.unitPrice.value * amount)
  }

  /** `computeIngredientCost`. */
  function ComputeIngredientCost(ingredient: IngredientLine): Option<real> {
    CostOf(ingredient, ParseQuantity(ingredient.qty))
  }

  /** `computeIngredientCost` as written, with the alias lookup going through the prototype. */
  function ComputeIngredientCostAsWritten(ingredient: IngredientLine): Option<real> {
    CostOf(ingredient, ParseQuantityAsWritten(ingredient.qty))
  }

  /**
   * A line has a cost exactly when it has a price and a price unit and its
   * quantity reads and converts; the cost is the price times the converted
   * quantity.
   */
  lemma CostOfIff(ing: IngredientLine, parsed: Option<Quantity>)
    ensures CostOf(ing, parsed).Some? <==>
      && ing.unitPrice.Some? && Truthy(ing.unitPriceUnit)
      && parsed.Some? && QtyInPriceUnit(parsed.value, ing.unitPriceUnit).Some?
    ensures CostOf(ing, parsed).Some? ==>
      CostOf(ing, parsed).value == ing.unitPrice.value * QtyInPriceUnit(parsed.value, ing.unitPriceUnit).value
  {
  }

  /** With a unit on both sides, the cost is price times quantity scaled by the ratio of the units' sizes. */
  lemma CostByFactors(ing: IngredientLine, v: real, u: string, p: string)
    requires ing.unitPrice.Some? && ing.unitPriceUnit == Some(p)
    requires CsvFields.IsCanonicalUnit(u) && CsvFields.IsCanonicalUnit(p)
    ensures DimensionOf(u) == DimensionOf(p) ==>
      CostOf(ing, Some(Quantity(v, JsObject.Own(u)))).Some? &&
      CostOf(ing, Some(Quantity(v, JsObject.Own(u)))).value == ing.unitPrice.value * (v * BaseFactor(u) / BaseFactor(p))
    ensures DimensionOf(u) != DimensionOf(p) ==> CostOf(ing, Some(Quantity(v, JsObject.Own(u)))) == None
  {
    ConversionByFactors(v, u, p);
  }

  /**
   * A line whose quantity word is "constructor" never gets a cost as written,
   * while the dictionary reading treats it as a quantity without a unit, which
   * a per-piece price accepts.
   */
  lemma ConstructorLineCost(ing: IngredientLine, v: real)
    requires ReadQuantity(ing.qty) == Some(Reading(v, "constructor"))
    ensures ComputeIngredientCostAsWritten(ing) == None
    ensures ComputeIngredientCost(ing).Some? <==> ing.unitPrice.Some? && ing.unitPriceUnit == Some("pc")
    ensures ComputeIngredientCost(ing).Some? ==> ComputeIngredientCost(ing).value == ing.unitPrice.value * v
  {
    ConstructorNoAlias();
    var asWritten := ParseQuantityAsWritten(ing.qty);
    var corrected := ParseQuantity(ing.qty);
    assert asWritten == Some(Quantity(v, JsObject.Inherited("constructor")));
    assert corrected == Some(Quantity(v, JsObject.Missing));
    CostWithoutUnit(ing, v, "constructor");
  }

  /**
   * An inherited member as the unit converts to nothing; no unit at all
   * converts only to a price per piece.
   */
  lemma CostWithoutUnit(ing: IngredientLine, v: real, member: string)
    ensures CostOf(ing, Some(Quantity(v, JsObject.Inherited(member)))) == None
    ensures CostOf(ing, Some(Quantity(v, JsObject.Missing))).Some? <==> ing.unitPrice.Some? && ing.unitPriceUnit == Some("pc")
    ensures CostOf(ing, Some(Quantity(v, JsObject.Missing))).Some? ==>
      CostOf(ing, Some(Quantity(v, JsObject.Missing))).value == ing.unitPrice.value * v
  {
  }

  // ---------------------------------------------------------------------------
  // Food cost

  /*
   * The loop is stated for any per-line cost `cost`; the recipe's food cost is
   * the loop with ComputeIngredientCost.
   */

  /** The costs that are known, in line order. */
  function KnownCosts(ingredients: seq<IngredientLine>, cost: IngredientLine -> Option<real>): seq<real> {
    if ingredients == [] then []
    else
      var last := ingredients[|ingredients| - 1];
      KnownCosts(ingredients[..|ingredients| - 1], cost) +
        match cost(last) case Some(c) => [c] case None => []
  }

  function Sum(xs: seq<real>): real {
    if xs == [] then 0.0 else Sum(xs[..|xs| - 1]) + xs[|xs| - 1]
  }

  /** The sum of the known costs, or none when no cost is known. */
  function TotalOf(ingredients: seq<IngredientLine>, cost: IngredientLine -> Option<real>): Option<real> {
    var known := KnownCosts(ingredients, cost);
    if known == [] then None else Some(Sum(known))
  }

  /** The food cost of a recipe. */
  function FoodCost(ingredients: seq<IngredientLine>): Option<real> {
    TotalOf(ingredients, ComputeIngredientCost)
  }

  /** The loop of `computeFoodCost`: add up the known costs and remember whether there was any. */
  method SumKnownCosts(ingredients: seq<IngredientLine>, cost: IngredientLine -> Option<real>) returns (r: Option<real>)
    ensures r == TotalOf(ingredients, cost)
  {
    var total := 0.0;
    var any := false;
    var k := 0;
    while k < |ingredients|
      invariant k <= |ingredients|
      invariant total == Sum(KnownCosts(ingredients[..k], cost))
      invariant any <==> KnownCosts(ingredients[..k], cost) != []
    {
      var c := cost(ingredients[k]);
      KnownCostsStep(ingredients, k, cost);
      if c.Some? {
        total := total + c.value;
        any := true;
      }
      k := k + 1;
    }
    assert ingredients[..k] == ingredients;
    if any {
      r := Some(total);
    } else {
      r := None;
    }
  }

  /** `computeFoodCost`. */
  method ComputeFoodCost(ingredients: seq<IngredientLine>) returns (r: Option<real>)
    ensures r == FoodCost(ingredients)
  {
    r := SumKnownCosts(ingredients, ComputeIngredientCost);
  }

  lemma KnownCostsStep(ingredients: seq<IngredientLine>, k: nat, cost: IngredientLine -> Option<real>)
    requires k < |ingredients|
    ensures cost(ingredients[k]).Some? ==>
      KnownCosts(ingredients[..k + 1], cost) == KnownCosts(ingredients[..k], cost) + [cost(ingredients[k]).value]
    ensures cost(ingredients[k]).None? ==> KnownCosts(ingredients[..k + 1], cost) == KnownCosts(ingredients[..k], cost)
  {
    assert ingredients[..k + 1][..k] == ingredients[..k];
    assert KnownCosts(ingredients[..k], cost) + [] == KnownCosts(ingredients[..k], cost);
  }

  /** No cost is known exactly when no line has a cost: the empty recipe included. */
  lemma {:induction false} KnownCostsEmpty(ingredients: seq<IngredientLine>, cost: IngredientLine -> Option<real>)
    ensures KnownCosts(ingredients, cost) == [] <==> forall i :: 0 <= i < |ingredients| ==> cost(ingredients[i]).None?
  {
    if ingredients != [] {
      var init := ingredients[..|ingredients| - 1];
      KnownCostsEmpty(init, cost);
      assert forall i :: 0 <= i < |init| ==> init[i] == ingredients[i];
    }
  }

  /** The known costs of two lists of lines one after the other. */
  lemma {:induction false} KnownCostsAppend(a: seq<IngredientLine>, b: seq<IngredientLine>, cost: IngredientLine -> Option<real>)
    ensures KnownCosts(a + b, cost) == KnownCosts(a, cost) + KnownCosts(b, cost)
  {
    if b != [] {
      assert (a + b)[..|a + b| - 1] == a + b[..|b| - 1];
      KnownCostsAppend(a, b[..|b| - 1], cost);
    } else {
      assert a + b == a;
    }
  }

  lemma {:induction false} SumAppend(xs: seq<real>, ys: seq<real>)
    ensures Sum(xs + ys) == Sum(xs) + Sum(ys)
  {
    if ys != [] {
      assert (xs + ys)[..|xs + ys| - 1] == xs + ys[..|ys| - 1];
      SumAppend(xs, ys[..|ys| - 1]);
    } else {
      assert xs + ys == xs;
    }
  }

  /** `computeFoodCost` is null exactly when every line's cost is null, the empty recipe included. */
  lemma FoodCostNone(ingredients: seq<IngredientLine>)
    ensures FoodCost(ingredients).None? <==> forall i :: 0 <= i < |ingredients| ==> ComputeIngredientCost(ingredients[i]).None?
  {
    KnownCostsEmpty(ingredients, ComputeIngredientCost);
  }

  /** The total of two parts is the sum of their totals, a part without one counting for nothing. */
  lemma TotalAppend(a: seq<IngredientLine>, b: seq<IngredientLine>, cost: IngredientLine -> Option<real>)
    ensures TotalOf(a + b, cost) ==
      if TotalOf(a, cost).None? then TotalOf(b, cost)
      else if TotalOf(b, cost).None? then TotalOf(a, cost)
      else Some(TotalOf(a, cost).value + TotalOf(b, cost).value)
  {
    KnownCostsAppend(a, b, cost);
    SumAppend(KnownCosts(a, cost), KnownCosts(b, cost));
    if KnownCosts(a, cost) == [] {
      assert KnownCosts(a, cost) + KnownCosts(b, cost) == KnownCosts(b, cost);
    }
    if KnownCosts(b, cost) == [] {
      assert KnownCosts(a, cost) + KnownCosts(b, cost) == KnownCosts(a, cost);
    }
  }

  /** A single line's total is its own cost. */
  lemma TotalSingle(ing: IngredientLine, cost: IngredientLine -> Option<real>)
    ensures TotalOf([ing], cost) == cost(ing)
  {
    assert [ing][..0] == [];
    assert KnownCosts([ing], cost) == KnownCosts([], cost) + match cost(ing) case Some(c) => [c] case None => [];
    if cost(ing).Some? {
      assert Sum([cost(ing).value]) == Sum([]) + cost(ing).value;
    }
  }
}
