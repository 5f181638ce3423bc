/**
 * `safeFilename` of src/utils/exporters.ts: the name trimmed, the
 * characters a file name cannot hold replaced by `_`, whitespace runs
 * collapsed to one space, and the result cut to 120 characters.
 */
module Exporters {
  import Text

  /** The maximum length of a file name. */
  const MaxLength := 120

  /** `[<>:"/\\|?*\u0000-\u001F]`: reserved characters and control characters. */
  predicate IsForbidden(c: char) {
    c == '<' || c == '>' || c == ':' || c == '"' || c == '/' || c == '\\'
    || c == '|' || c == '?' || c == '*' || c <= '\U{001F}'
  }

  predicate NoForbidden(s: string) {
    forall i :: 0 <= i < |s| ==> !IsForbidden(s[i])
  }

  /** `replace(/[<>:"/\\|?*\u0000-\u001F]/g, "_")`: one `_` for each such character. */
  function ReplaceForbidden(s: string): (r: string)
    ensures |r| == |s|
    ensures forall i :: 0 <= i < |s| ==> r[i] == if IsForbidden(s[i]) then '_' else s[i]
  {
    if s == [] then [] else [if IsForbidden(s[0]) then '_' else s[0]] + ReplaceForbidden(s[1..])
  }

  /** `slice(0, n)`. */
  function Take(s: string, n: nat): (r: string)
    ensures |r| <= n && |r| <= |s| && r == s[..|r|]
    ensures |s| <= n ==> r == s
  {
    if |s| <= n then s else s[..n]
  }

  /** `safeFilename(name)`. */
  function SafeFilename(name: string): string {
    Take(Text.CollapseSpaces(ReplaceForbidden(Text.Trim(name))), MaxLength)
  }

  /** Forbidden characters are not whitespace, and `_` is neither. */
  lemma ForbiddenNotSpace(c: char)
    ensures c == '_' ==> !IsForbidden(c) && !Text.IsSpace(c)
    ensures Text.IsSpace(c) && !IsForbidden(c) ==> c >= ' '
  {
  }

  lemma {:induction false} TrimStartKeepsAbsent(s: string)
    requires NoForbidden(s)
    ensures NoForbidden(Text.TrimStart(s))
  {
    var r := Text.TrimStart(s);
    assert r == s[|s| - |r|..];
    forall i | 0 <= i < |r|
      ensures !IsForbidden(r[i])
    {
      assert r[i] == s[|s| - |r| + i];
    }
  }

  lemma NoForbiddenCons(c: char, t: string)
    requires !IsForbidden(c) && NoForbidden(t)
    ensures NoForbidden([c] + t)
  {
    assert forall i :: 0 < i < |t| + 1 ==> ([c] + t)[i] == t[i - 1];
  }

  /** Collapsing whitespace adds only spaces, so no forbidden character appears. */
  lemma {:induction false} CollapseKeepsAbsent(s: string)
    requires NoForbidden(s)
    ensures NoForbidden(Text.CollapseSpaces(s))
    decreases |s|
  {
    if s != [] {
      assert NoForbidden(s[1..]) by {
        assert forall i :: 0 <= i < |s| - 1 ==> s[1..][i] == s[i + 1];
      }
      if Text.IsSpace(s[0]) {
        var rest := Text.TrimStart(s[1..]);
        TrimStartKeepsAbsent(s[1..]);
        CollapseKeepsAbsent(rest);
        NoForbiddenCons(' ', Text.CollapseSpaces(rest));
      } else {
        CollapseKeepsAbsent(s[1..]);
        NoForbiddenCons(s[0], Text.CollapseSpaces(s[1..]));
      }
    }
  }

  predicate StartsWithNonSpace(s: string) {
    s == [] || !Text.IsSpace(s[0])
  }

  lemma ReplaceShape(t: string)
    ensures NoForbidden(ReplaceForbidden(t))
    ensures StartsWithNonSpace(t) ==> StartsWithNonSpace(ReplaceForbidden(t))
  {
  }

  lemma CollapseShape(u: string)
    requires NoForbidden(u)
    ensures var v := Text.CollapseSpaces(u);
      NoForbidden(v) && Text.SpacesCollapsed(v) && (StartsWithNonSpace(u) ==> StartsWithNonSpace(v))
  {
    CollapseKeepsAbsent(u);
  }

  lemma CutShape(v: string, r: string)
    requires r == Take(v, MaxLength) && NoForbidden(v) && Text.SpacesCollapsed(v) && StartsWithNonSpace(v)
    ensures NoForbidden(r) && |r| <= MaxLength && Text.SpacesCollapsed(r) && StartsWithNonSpace(r)
  {
    forall i | 0 <= i < |r|
      ensures !IsForbidden(r[i]) && (Text.IsSpace(r[i]) ==> r[i] == ' ')
    {
      assert r[i] == v[i];
    }
    forall i | 0 <= i < |r| - 1
      ensures !(Text.IsSpace(r[i]) && Text.IsSpace(r[i + 1]))
    {
      assert r[i] == v[i] && r[i + 1] == v[i + 1];
    }
  }

  /**
   * What `safeFilename` promises of every name: no reserved or control
   * character, at most 120 characters, no whitespace but plain spaces and
   * never two in a row, and no whitespace at the start.
   */
  lemma SafeFilenameShape(name: string)
    ensures var r := SafeFilename(name);
      && NoForbidden(r)
      && |r| <= MaxLength
      && Text.SpacesCollapsed(r)
      && StartsWithNonSpace(r)
  {
    var t := Text.Trim(name);
    var u := ReplaceForbidden(t);
    ReplaceShape(t);
    CollapseShape(u);
    CutShape(Text.CollapseSpaces(u), SafeFilename(name));
  }

  /** Every reserved or control character becomes one `_`, in place. */
  lemma ReplaceOneForOne(s: string, i: nat)
    requires i < |s|
    ensures IsForbidden(s[i]) ==> ReplaceForbidden(s)[i] == '_'
    ensures !IsForbidden(s[i]) ==> ReplaceForbidden(s)[i] == s[i]
    ensures NoForbidden(s) ==> ReplaceForbidden(s) == s
  {
  }

  /** A name without whitespace or forbidden characters comes back cut to 120 characters. */
  lemma PlainNameKept(name: string)
    requires NoForbidden(name) && forall i :: 0 <= i < |name| ==> !Text.IsSpace(name[i])
    ensures SafeFilename(name) == Take(name, MaxLength)
  {
    Text.TrimNoop(name);
    assert ReplaceForbidden(name) == name;
    Text.CollapseNoop(name);
  }

  /** On a result that does not end in whitespace, sanitising again changes nothing. */
  lemma SafeFilenameStable(name: string)
    requires var r := SafeFilename(name); r == [] || !Text.IsSpace(r[|r| - 1])
    ensures SafeFilename(SafeFilename(name)) == SafeFilename(name)
  {
    SafeFilenameShape(name);
    CleanIsKept(SafeFilename(name));
  }

  /** A string of the shape `safeFilename` produces that also ends in a non-space is kept. */
  lemma CleanIsKept(r: string)
    requires NoForbidden(r) && |r| <= MaxLength && Text.SpacesCollapsed(r) && StartsWithNonSpace(r)
    requires r == [] || !Text.IsSpace(r[|r| - 1])
    ensures SafeFilename(r) == r
  {
    Text.TrimNoop(r);
    assert ReplaceForbidden(r) == r;
    Text.CollapseNoop(r);
  }

  /**
   * The cut at 120 can leave a trailing space, which a second pass trims:
   * 119 letters, a space and one more letter give 119 letters and a space.
   */
  lemma TrailingSpaceAfterCut(name: string)
    requires |name| == MaxLength + 1 && name[MaxLength - 1] == ' '
    requires forall i :: 0 <= i < |name| && i != MaxLength - 1 ==> name[i] == 'a'
    ensures SafeFilename(name) == name[..MaxLength]
    ensures SafeFilename(SafeFilename(name)) != SafeFilename(name)
  {
    PlainLetters(name);
    var r := name[..MaxLength];
    assert r[|r| - 1] == ' ';
    TrimDropsTrailing(r);
    ShorterAfterTrim(r);
  }

  lemma PlainLetters(name: string)
    requires |name| == MaxLength + 1 && name[MaxLength - 1] == ' '
    requires forall i :: 0 <= i < |name| && i != MaxLength - 1 ==> name[i] == 'a'
    ensures SafeFilename(name) == name[..MaxLength]
  {
    forall i | 0 <= i < |name|
      ensures !IsForbidden(name[i]) && (Text.IsSpace(name[i]) <==> i == MaxLength - 1)
    {
      if i != MaxLength - 1 {
        assert name[i] == 'a';
      }
    }
    assert NoForbidden(name);
    assert Text.SpacesCollapsed(name);
    Text.TrimNoop(name);
    ReplaceOneForOne(name, 0);
    Text.CollapseNoop(name);
  }

  /** The result is never longer than the trimmed name. */
  lemma ShorterAfterTrim(r: string)
    requires |Text.Trim(r)| < |r|
    ensures SafeFilename(r) != r
  {
    var u := ReplaceForbidden(Text.Trim(r));
    assert |Text.CollapseSpaces(u)| <= |u|;
  }

  lemma TrimDropsTrailing(s: string)
    requires s != [] && Text.IsSpace(s[|s| - 1])
    ensures |Text.Trim(s)| < |s|
  {
    var a := Text.TrimStart(s);
    if a != [] {
      assert a[|a| - 1] == s[|s| - 1];
      var p := a[..|a| - 1];
      assert Text.TrimEnd(a) == Text.TrimEnd(p);
      assert |Text.TrimEnd(p)| <= |p|;
    }
  }
}
