/**
 * String primitives of the JavaScript runtime that the matching key is built
 * from: `trim`, the `\s` class, `toLowerCase`, NFD decomposition followed by
 * removal of `\p{Diacritic}`, and `replace(/\s+/g, " ")`.
 *
 * The whitespace set is JavaScript's exactly. Lower-casing, decomposition and
 * the diacritic class are explicit tables covering ASCII and Latin-1, not the
 * whole of Unicode.
 */
module Text {

  /** JavaScript's `\s`, which is also the set that `String.prototype.trim` strips. */
  predicate IsSpace(c: char) {
    || c == '\t' || c == '\n' || c == '\U{000B}' || c == '\U{000C}' || c == '\r'
    || c == ' ' || c == '\U{00A0}' || c == '\U{1680}'
    || ('\U{2000}' <= c <= '\U{200A}')
    || c == '\U{2028}' || c == '\U{2029}' || c == '\U{202F}' || c == '\U{205F}'
    || c == '\U{3000}' || c == '\U{FEFF}'
  }

  predicate AllSpaces(s: string) {
    forall i :: 0 <= i < |s| ==> IsSpace(s[i])
  }

  /** `s.trimStart()`: the suffix left after the leading whitespace. */
  function TrimStart(s: string): (r: string)
    ensures |r| <= |s| && r == s[|s| - |r|..]
    ensures AllSpaces(s[..|s| - |r|])
    ensures r == [] || !IsSpace(r[0])
  {
    if s != [] && IsSpace(s[0]) then
      var r := TrimStart(s[1..]);
      var k := |s| - |r|;
      assert s[k..] == s[1..][k - 1..];
      assert s[..k] == [s[0]] + s[1..][..k - 1];
      r
    else s
  }

  /** `s.trimEnd()`: the prefix left before the trailing whitespace. */
  function TrimEnd(s: string): (r: string)
    ensures |r| <= |s| && r == s[..|r|]
    ensures AllSpaces(s[|r|..])
    ensures r == [] || !IsSpace(r[|r| - 1])
  {
    if s != [] && IsSpace(s[|s| - 1]) then
      var p := s[..|s| - 1];
      var r := TrimEnd(p);
      assert p[..|r|] == s[..|r|];
      assert forall j :: 0 <= j < |s| - 1 - |r| ==> s[|r|..][j] == p[|r|..][j];
      r
    else s
  }

  /** `s.trim()`: the input without its leading and trailing whitespace. */
  function Trim(s: string): (r: string)
    ensures |r| <= |s|
    ensures r == [] || (!IsSpace(r[0]) && !IsSpace(r[|r| - 1]))
    ensures exists i, j :: 0 <= i <= j <= |s| && r == s[i..j] && AllSpaces(s[..i]) && AllSpaces(s[j..])
  {
    var a := TrimStart(s);
    var r := TrimEnd(a);
    var i := |s| - |a|;
    assert r == s[i..i + |r|];
    assert s[i + |r|..] == a[|r|..];
    r
  }

  /** Trimming keeps a string whose ends are not whitespace. */
  lemma TrimNoop(s: string)
    requires s == [] || (!IsSpace(s[0]) && !IsSpace(s[|s| - 1]))
    ensures Trim(s) == s
  {
  }

  /** `trimStart` keeps a string that does not begin with whitespace. */
  lemma TrimStartNoop(s: string)
    requires s == [] || !IsSpace(s[0])
    ensures TrimStart(s) == s
  {
  }

  /** `toLowerCase` on one character: ASCII and Latin-1 capitals; every other character is kept. */
  function ToLowerChar(c: char): char {
    if 'A' <= c <= 'Z' || ('\U{00C0}' <= c <= '\U{00DE}' && c != '\U{00D7}') then
      (c as int + 32) as char
    else c
  }

  function ToLower(s: string): (r: string)
    ensures |r| == |s|
    ensures forall i :: 0 <= i < |s| ==> r[i] == ToLowerChar(s[i])
  {
    if s == [] then [] else [ToLowerChar(s[0])] + ToLower(s[1..])
  }

  /** Characters with the Unicode `Diacritic` property that the model knows of. */
  predicate IsDiacritic(c: char) {
    || c == '^' || c == '`' || c == '\U{00A8}' || c == '\U{00AF}' || c == '\U{00B4}'
    || c == '\U{00B7}' || c == '\U{00B8}'
    || ('\U{02B0}' <= c <= '\U{034E}')
    || ('\U{0350}' <= c <= '\U{0357}')
    || ('\U{035D}' <= c <= '\U{0362}')
  }

  /** The lower-case Latin-1 letters with a canonical decomposition: U+00E0 to U+00FF except æ, ð, ÷, ø and þ. */
  predicate HasNfd(c: char) {
    '\U{00E0}' <= c <= '\U{00FF}' && c != 'æ' && c != 'ð' && c != '÷' && c != 'ø' && c != 'þ'
  }

  /** The base letter of an accented lower-case letter. */
  function NfdBase(c: char): (b: char)
    requires HasNfd(c)
    ensures 'a' <= b <= 'z'
  {
    if c <= 'å' then 'a'
    else if c == 'ç' then 'c'
    else if c <= 'ë' then 'e'
    else if c <= 'ï' then 'i'
    else if c == 'ñ' then 'n'
    else if c <= 'ö' then 'o'
    else if c <= 'ü' then 'u'
    else 'y'
  }

  /** The combining mark of an accented lower-case letter. */
  function NfdMark(c: char): (m: char)
    requires HasNfd(c)
    ensures '\U{0300}' <= m <= '\U{0327}'
  {
    if c == 'à' || c == 'è' || c == 'ì' || c == 'ò' || c == 'ù' then '\U{0300}'
    else if c == 'á' || c == 'é' || c == 'í' || c == 'ó' || c == 'ú' || c == 'ý' then '\U{0301}'
    else if c == 'â' || c == 'ê' || c == 'î' || c == 'ô' || c == 'û' then '\U{0302}'
    else if c == 'ã' || c == 'ñ' || c == 'õ' then '\U{0303}'
    else if c == 'å' then '\U{030A}'
    else if c == 'ç' then '\U{0327}'
    else '\U{0308}'
  }

  /** Canonical decomposition (NFD) of one character: an accented letter becomes its base letter and its mark. */
  function Decompose(c: char): (r: string)
    ensures HasNfd(c) ==> |r| == 2
    ensures !HasNfd(c) ==> r == [c]
  {
    if HasNfd(c) then [NfdBase(c), NfdMark(c)] else [c]
  }

  /** `normalize("NFD")`. */
  function Nfd(s: string): (r: string)
    ensures |s| <= |r|
  {
    if s == [] then [] else Decompose(s[0]) + Nfd(s[1..])
  }

  /** `replace(/\p{Diacritic}/gu, "")`. */
  function StripDiacritics(s: string): (r: string)
    ensures |r| <= |s|
    ensures forall i :: 0 <= i < |r| ==> !IsDiacritic(r[i])
  {
    if s == [] then []
    else if IsDiacritic(s[0]) then StripDiacritics(s[1..])
    else [s[0]] + StripDiacritics(s[1..])
  }

  /** No character is whitespace other than a plain space, and no two spaces are adjacent. */
  predicate SpacesCollapsed(s: string) {
    && (forall i :: 0 <= i < |s| && IsSpace(s[i]) ==> s[i] == ' ')
    && (forall i :: 0 <= i < |s| - 1 ==> !(IsSpace(s[i]) && IsSpace(s[i + 1])))
  }

  /** `replace(/\s+/g, " ")`: every maximal run of whitespace becomes one space. */
  function CollapseSpaces(s: string): (r: string)
    ensures |r| <= |s|
    ensures SpacesCollapsed(r)
    ensures r == [] <==> s == []
    ensures s != [] ==> (IsSpace(r[0]) <==> IsSpace(s[0]))
    decreases |s|
  {
    if s == [] then []
    else if IsSpace(s[0]) then
      var rest := TrimStart(s[1..]);
      var tail := CollapseSpaces(rest);
      assert rest != [] ==> !IsSpace(tail[0]);
      [' '] + tail
    else
      [s[0]] + CollapseSpaces(s[1..])
  }

  /** `sub` occurs in `s` starting at position `i`. */
  predicate OccursAt(s: string, sub: string, i: int) {
    0 <= i && i + |sub| <= |s| && s[i..i + |sub|] == sub
  }

  /** `s.includes(sub)`. */
  predicate Contains(s: string, sub: string) {
    |sub| <= |s| && (s[..|sub|] == sub || Contains(s[1..], sub))
  }

  lemma {:induction false} ContainsIff(s: string, sub: string)
    ensures Contains(s, sub) <==> exists i :: OccursAt(s, sub, i)
  {
    if |sub| > |s| {
      assert forall i :: !OccursAt(s, sub, i);
    } else if s[..|sub|] == sub {
      assert OccursAt(s, sub, 0);
    } else {
      ContainsIff(s[1..], sub);
      forall i ensures OccursAt(s, sub, i) <==> (i > 0 && OccursAt(s[1..], sub, i - 1)) {
        if i > 0 && i + |sub| <= |s| {
          assert s[1..][i - 1..i - 1 + |sub|] == s[i..i + |sub|];
        }
      }
      if Contains(s[1..], sub) {
        var j :| OccursAt(s[1..], sub, j);
        assert OccursAt(s, sub, j + 1);
      }
    }
  }

  /** A character that lower-casing, decomposition and diacritic removal all leave alone. */
  predicate IsKeyChar(c: char) {
    ToLowerChar(c) == c && !HasNfd(c) && !IsDiacritic(c)
  }

  predicate AllKeyChars(s: string) {
    forall i :: 0 <= i < |s| ==> IsKeyChar(s[i])
  }

  /**
   * The matching key of `normalizeText` (src/utils/csvImport.ts) and of
   * `normalize` (src/App.tsx): trim, lower-case, decompose, drop diacritics,
   * collapse whitespace runs.
   */
  function NormalizeKey(s: string): (r: string)
    ensures SpacesCollapsed(r) && AllKeyChars(r)
    ensures Trim(s) == [] ==> r == []
  {
    var l := ToLower(Trim(s));
    NfdOfLowered(l);
    StripOfDecomposed(Nfd(l));
    CollapseKeepsKeyChars(StripDiacritics(Nfd(l)));
    CollapseSpaces(StripDiacritics(Nfd(l)))
  }

  /** What decomposing a lower-case string produces: lower-case characters, each a diacritic or without decomposition. */
  predicate Decomposed(d: string) {
    forall i :: 0 <= i < |d| ==> ToLowerChar(d[i]) == d[i] && (IsDiacritic(d[i]) || !HasNfd(d[i]))
  }

  lemma DecomposeLowered(c: char)
    requires ToLowerChar(c) == c
    ensures Decomposed(Decompose(c))
  {
  }

  lemma {:induction false} NfdOfLowered(l: string)
    requires forall i :: 0 <= i < |l| ==> ToLowerChar(l[i]) == l[i]
    ensures Decomposed(Nfd(l))
  {
    if l != [] {
      DecomposeLowered(l[0]);
      NfdOfLowered(l[1..]);
    }
  }

  lemma {:induction false} StripOfDecomposed(d: string)
    requires Decomposed(d)
    ensures AllKeyChars(StripDiacritics(d))
  {
    if d != [] {
      StripOfDecomposed(d[1..]);
    }
  }

  lemma KeyCharsSuffix(s: string, k: nat)
    requires AllKeyChars(s) && k <= |s|
    ensures AllKeyChars(s[k..])
  {
  }

  lemma KeyCharsCons(c: char, t: string)
    requires IsKeyChar(c) && AllKeyChars(t)
    ensures AllKeyChars([c] + t)
  {
  }

  lemma {:induction false} CollapseKeepsKeyChars(s: string)
    requires AllKeyChars(s)
    ensures AllKeyChars(CollapseSpaces(s))
    decreases |s|
  {
    if s != [] {
      KeyCharsSuffix(s, 1);
      if IsSpace(s[0]) {
        var rest := TrimStart(s[1..]);
        KeyCharsSuffix(s[1..], |s| - 1 - |rest|);
        CollapseKeepsKeyChars(rest);
        KeyCharsCons(' ', CollapseSpaces(rest));
      } else {
        CollapseKeepsKeyChars(s[1..]);
        KeyCharsCons(s[0], CollapseSpaces(s[1..]));
      }
    }
  }

  /** Collapsing leaves an already collapsed string as it is. */
  lemma {:induction false} CollapseNoop(s: string)
    requires SpacesCollapsed(s)
    ensures CollapseSpaces(s) == s
  {
    if s != [] {
      assert SpacesCollapsed(s[1..]);
      if IsSpace(s[0]) {
        assert s[1..] == [] || !IsSpace(s[1..][0]);
        assert TrimStart(s[1..]) == s[1..];
      }
      CollapseNoop(s[1..]);
    }
  }

  lemma {:induction false} NfdNoop(s: string)
    requires forall i :: 0 <= i < |s| ==> !HasNfd(s[i])
    ensures Nfd(s) == s
  {
    if s != [] {
      NfdNoop(s[1..]);
    }
  }

  lemma {:induction false} StripNoop(s: string)
    requires forall i :: 0 <= i < |s| ==> !IsDiacritic(s[i])
    ensures StripDiacritics(s) == s
  {
    if s != [] {
      StripNoop(s[1..]);
    }
  }

  /** A string the key function maps to itself. */
  predicate IsCleanKey(s: string) {
    AllKeyChars(s) && SpacesCollapsed(s) && (s == [] || (!IsSpace(s[0]) && !IsSpace(s[|s| - 1])))
  }

  /** Lower-case ASCII letters, digits and underscores. */
  predicate IsPlainChar(c: char) {
    'a' <= c <= 'z' || '0' <= c <= '9' || c == '_'
  }

  /** A word of plain characters is a fixed point of the key function. */
  lemma PlainKey(s: string)
    requires forall i :: 0 <= i < |s| ==> IsPlainChar(s[i])
    ensures IsCleanKey(s)
  {
    assert AllKeyChars(s);
  }

  /** Lower-casing character by character. */
  lemma LowerWord(s: string, t: string)
    requires |s| == |t| && forall i :: 0 <= i < |s| ==> ToLowerChar(s[i]) == t[i]
    ensures ToLower(s) == t
  {
  }

  lemma NormalizeKeyFixed(s: string)
    requires IsCleanKey(s)
    ensures NormalizeKey(s) == s
  {
    TrimNoop(s);
    assert ToLower(s) == s;
    NfdNoop(s);
    StripNoop(s);
    CollapseNoop(s);
  }

  /**
   * A key that does not begin or end with a space is a fixed point of the key
   * function. (A key can begin or end with a space: see NormalizeKeyNotIdempotent.)
   */
  lemma NormalizeKeyIdempotent(s: string)
    requires NormalizeKey(s) == [] || (NormalizeKey(s)[0] != ' ' && NormalizeKey(s)[|NormalizeKey(s)| - 1] != ' ')
    ensures NormalizeKey(NormalizeKey(s)) == NormalizeKey(s)
  {
    NormalizeKeyFixed(NormalizeKey(s));
  }

  /** The key function by its stages: what trimming and lower-casing give, then decomposition and stripping. */
  lemma NormalizeKeyStages(s: string, l: string, e: string)
    requires ToLower(Trim(s)) == l && StripDiacritics(Nfd(l)) == e
    ensures NormalizeKey(s) == CollapseSpaces(e)
  {
  }

  /** Trimming removes one leading whitespace character before a word with clean ends. */
  lemma TrimLeadingSpace(c: char, t: string)
    requires IsSpace(c) && t != [] && !IsSpace(t[0]) && !IsSpace(t[|t| - 1])
    ensures Trim([c] + t) == t
  {
    assert ([c] + t)[1..] == t;
    TrimNoop(t);
  }

  lemma {:induction false} LowerNoop(s: string)
    requires forall i :: 0 <= i < |s| ==> ToLowerChar(s[i]) == s[i]
    ensures ToLower(s) == s
  {
  }

  lemma AcuteSpaceATrim(s: string)
    requires s == "\U{0301} a"
    ensures Trim(s) == s
  {
    TrimNoop(s);
  }

  lemma AcuteSpaceALower(s: string)
    requires s == "\U{0301} a"
    ensures ToLower(s) == s
  {
    LowerNoop(s);
  }

  lemma AcuteSpaceAStrip(s: string)
    requires s == "\U{0301} a"
    ensures StripDiacritics(Nfd(s)) == " a"
  {
    NfdNoop(s);
    assert s == ['\U{0301}'] + " a";
    StripNoop(" a");
  }

  lemma AcuteSpaceA(s: string)
    requires s == "\U{0301} a"
    ensures ToLower(Trim(s)) == s
    ensures StripDiacritics(Nfd(s)) == " a"
  {
    AcuteSpaceATrim(s);
    AcuteSpaceALower(s);
    AcuteSpaceAStrip(s);
  }

  lemma SpaceA(s: string)
    requires s == " a"
    ensures ToLower(Trim(s)) == "a"
    ensures StripDiacritics(Nfd("a")) == "a"
  {
    assert s == [' '] + "a";
    TrimLeadingSpace(' ', "a");
    LowerNoop("a");
    NfdNoop("a");
    StripNoop("a");
  }

  lemma CollapsedSpaceA()
    ensures CollapseSpaces(" a") == " a" && CollapseSpaces("a") == "a"
  {
    assert SpacesCollapsed(" a") && SpacesCollapsed("a");
    CollapseNoop(" a");
    CollapseNoop("a");
  }

  /**
   * Applying the key function twice is not the same as once when a diacritic
   * stands between the trimmed edge and a space: the first pass strips the mark
   * only after trimming, so the space it uncovers stays in the key.
   */
  lemma NormalizeKeyNotIdempotent()
    ensures NormalizeKey("\U{0301} a") == " a"
    ensures NormalizeKey(" a") == "a"
  {
    AcuteSpaceA("\U{0301} a");
    SpaceA(" a");
    CollapsedSpaceA();
    NormalizeKeyStages("\U{0301} a", "\U{0301} a", " a");
    NormalizeKeyStages(" a", "a", "a");
  }

  lemma IsSpaceLower(c: char)
    ensures IsSpace(ToLowerChar(c)) <==> IsSpace(c)
  {
  }

  lemma {:induction false} TrimStartLower(s: string)
    ensures TrimStart(ToLower(s)) == ToLower(TrimStart(s))
  {
    if s != [] {
      IsSpaceLower(s[0]);
      assert ToLower(s)[1..] == ToLower(s[1..]);
      TrimStartLower(s[1..]);
    }
  }

  lemma {:induction false} TrimEndLower(s: string)
    ensures TrimEnd(ToLower(s)) == ToLower(TrimEnd(s))
  {
    if s != [] {
      IsSpaceLower(s[|s| - 1]);
      assert ToLower(s)[..|s| - 1] == ToLower(s[..|s| - 1]);
      TrimEndLower(s[..|s| - 1]);
    }
  }

  lemma LowerIdempotent(t: string)
    ensures ToLower(ToLower(t)) == ToLower(t)
  {
  }

  /** The key does not depend on letter case. */
  lemma NormalizeKeyIgnoresCase(s: string)
    ensures NormalizeKey(ToLower(s)) == NormalizeKey(s)
  {
    TrimStartLower(s);
    TrimEndLower(TrimStart(s));
    var t := Trim(s);
    assert Trim(ToLower(s)) == ToLower(t);
    LowerIdempotent(t);
    assert ToLower(Trim(ToLower(s))) == ToLower(t);
  }

  lemma {:induction false} NfdAppend(a: string, b: string)
    ensures Nfd(a + b) == Nfd(a) + Nfd(b)
  {
    if a != [] {
      assert (a + b)[1..] == a[1..] + b;
      NfdAppend(a[1..], b);
    } else {
      assert a + b == b;
    }
  }

  lemma {:induction false} StripAppend(a: string, b: string)
    ensures StripDiacritics(a + b) == StripDiacritics(a) + StripDiacritics(b)
  {
    if a != [] {
      assert (a + b)[1..] == a[1..] + b;
      StripAppend(a[1..], b);
    } else {
      assert a + b == b;
    }
  }

  /** A character without a decomposition leaves decomposition unchanged. */
  lemma NfdOfKeyChars(s: string)
    requires AllKeyChars(s)
    ensures Nfd(s) == s
  {
    NfdNoop(s);
  }

  lemma StripOfKeyChars(s: string)
    requires AllKeyChars(s)
    ensures StripDiacritics(s) == s
  {
    StripNoop(s);
  }

  /** `s` does not contain `sub` when some character of `sub` appears nowhere in `s`. */
  lemma {:induction false} NotContains(s: string, sub: string, j: nat)
    requires j < |sub|
    requires forall i :: 0 <= i < |s| ==> s[i] != sub[j]
    ensures !Contains(s, sub)
  {
    if |sub| <= |s| {
      assert s[..|sub|][j] == s[j];
      NotContains(s[1..], sub, j);
    }
  }

  lemma NfdSingle(x: char)
    ensures Nfd([x]) == Decompose(x)
  {
    assert [x][1..] == [];
  }

  lemma NfdAccented(pre: string, x: char, b: char, m: char, post: string)
    requires Decompose(x) == [b, m]
    requires AllKeyChars(pre) && AllKeyChars(post)
    ensures Nfd(pre + [x] + post) == pre + [b] + [m] + post
  {
    var a := pre + [x];
    NfdAppend(a, post);
    NfdAppend(pre, [x]);
    NfdSingle(x);
    NfdOfKeyChars(pre);
    NfdOfKeyChars(post);
    assert Nfd(a) == pre + [b, m];
    assert pre + [b, m] == pre + [b] + [m];
  }

  lemma StripPair(b: char, m: char)
    requires !IsDiacritic(b) && IsDiacritic(m)
    ensures StripDiacritics([b]) == [b] && StripDiacritics([m]) == []
  {
  }

  /** Decomposing and stripping one accented letter between key characters leaves its base letter. */
  lemma StripAccented(pre: string, x: char, b: char, m: char, post: string)
    requires Decompose(x) == [b, m] && IsDiacritic(m)
    requires AllKeyChars(pre) && AllKeyChars(post) && IsKeyChar(b)
    ensures StripDiacritics(Nfd(pre + [x] + post)) == pre + [b] + post
  {
    NfdAccented(pre, x, b, m, post);
    StripPair(b, m);
    StripOfKeyChars(pre);
    StripOfKeyChars(post);
    var t := pre + [b] + [m];
    StripAppend(pre, [b]);
    StripAppend(pre + [b], [m]);
    assert StripDiacritics(t) == pre + [b];
    StripAppend(t, post);
  }

  lemma AccentedNotSpace(x: char)
    requires |Decompose(x)| == 2
    ensures HasNfd(x) && !IsSpace(x)
  {
  }

  /** Trimming keeps a word whose ends are those of a clean key or an accented letter. */
  lemma TrimAccented(pre: string, x: char, b: char, post: string)
    requires !IsSpace(x)
    requires IsCleanKey(pre + [b] + post)
    ensures Trim(pre + [x] + post) == pre + [x] + post
  {
    var s := pre + [x] + post;
    var k := pre + [b] + post;
    if pre != [] {
      assert s[0] == pre[0] == k[0];
    } else {
      assert s[0] == x;
    }
    if post != [] {
      assert s[|s| - 1] == post[|post| - 1] == k[|k| - 1];
    } else {
      assert s[|s| - 1] == x;
    }
    TrimNoop(s);
  }

  /** Lower-casing keeps a word of lower-case key characters and one lower-case letter. */
  lemma LowerAccented(pre: string, x: char, post: string)
    requires ToLowerChar(x) == x && AllKeyChars(pre) && AllKeyChars(post)
    ensures ToLower(pre + [x] + post) == pre + [x] + post
  {
    var s := pre + [x] + post;
    forall i | 0 <= i < |s| ensures ToLowerChar(s[i]) == s[i] {
      if i < |pre| {
        assert s[i] == pre[i];
      } else if i > |pre| {
        assert s[i] == post[i - |pre| - 1];
      }
    }
  }

  /**
   * The key of a lower-case word with one accented letter is the word with the
   * plain letter, when that plain word is already a clean key.
   */
  lemma NormalizeKeyAccent(pre: string, x: char, b: char, m: char, post: string)
    requires Decompose(x) == [b, m] && IsDiacritic(m) && ToLowerChar(x) == x
    requires IsCleanKey(pre + [b] + post)
    ensures NormalizeKey(pre + [x] + post) == pre + [b] + post
  {
    var k := pre + [b] + post;
    assert forall i :: 0 <= i < |pre| ==> pre[i] == k[i];
    assert forall i :: 0 <= i < |post| ==> post[i] == k[|pre| + 1 + i];
    assert AllKeyChars(pre) && AllKeyChars(post) && IsKeyChar(k[|pre|]);
    AccentedNotSpace(x);
    TrimAccented(pre, x, b, post);
    LowerAccented(pre, x, post);
    StripAccented(pre, x, b, m, post);
    CollapseNoop(k);
  }

  lemma CremeParts()
    ensures "crème" == "cr" + ['è'] + "me" && "creme" == "cr" + ['e'] + "me"
    ensures Decompose('è') == ['e', '\U{0300}']
  {
  }

  lemma CremeClean()
    ensures IsCleanKey("creme")
  {
    PlainKey("creme");
  }

  lemma CremeLower()
    ensures ToLower("Crème") == "crème" && ToLower("CREME") == "creme"
  {
  }

  /** The same key for "Crème", "creme" and "CREME". */
  lemma NormalizeKeyExamples()
    ensures NormalizeKey("Crème") == "creme"
    ensures NormalizeKey("creme") == "creme"
    ensures NormalizeKey("CREME") == "creme"
  {
    CremeParts();
    CremeClean();
    NormalizeKeyAccent("cr", 'è', 'e', '\U{0300}', "me");
    CremeLower();
    NormalizeKeyIgnoresCase("Crème");
    NormalizeKeyFixed("creme");
    NormalizeKeyIgnoresCase("CREME");
  }
}
