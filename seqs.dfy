/**
 * Facts about sequence concatenation, stated for any element type so that the
 * modules working on strings and on rows of strings can cite them.
 */
module Seqs {

  lemma Assoc3<T>(a: seq<T>, b: seq<T>, c: seq<T>)
    ensures a + b + c == a + (b + c)
  {
  }

  lemma Assoc4<T>(a: seq<T>, b: seq<T>, c: seq<T>, d: seq<T>)
    ensures a + b + c + d == a + (b + (c + d))
  {
  }

  lemma Assoc5<T>(a: seq<T>, b: seq<T>, c: seq<T>, d: seq<T>, e: seq<T>)
    ensures a + b + c + d + e == a + (b + c + d + e)
  {
  }

  lemma AppendEmpty<T>(a: seq<T>)
    ensures a + [] == a && [] + a == a
  {
  }

  lemma InitLast<T>(r: seq<T>)
    requires |r| >= 1
    ensures r[..|r| - 1] + [r[|r| - 1]] == r
  {
  }

  lemma AppendCons<T>(a: seq<T>, b: seq<T>)
    requires |b| >= 1
    ensures a + [b[0]] + b[1..] == a + b
  {
  }

  lemma InitCons<T>(a: seq<T>, r: seq<T>)
    requires |r| >= 2
    ensures a + [r[0]] + r[1..][..|r| - 2] == a + r[..|r| - 1]
    ensures r[1..][|r| - 2] == r[|r| - 1]
  {
    assert r[..|r| - 1] == [r[0]] + r[1..][..|r| - 2];
  }
}
