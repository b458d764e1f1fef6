/** Arithmetic and laws of sequences that several modules use. */
module Common {

  function Min(a: nat, b: nat): nat {
    if a <= b then a else b
  }

  function Max(a: nat, b: nat): nat {
    if a >= b then a else b
  }

  /** `a - b`, and no less than nothing, as `saturating_sub`. */
  function Minus(a: nat, b: nat): nat {
    if a >= b then a - b else 0
  }

  lemma Associate<T>(a: seq<T>, b: seq<T>, c: seq<T>)
    ensures a + (b + c) == (a + b) + c
  {
  }

  lemma SlicesJoin<T>(s: seq<T>, middle: nat, end: nat)
    requires middle <= end <= |s|
    ensures s[..middle] + s[middle..end] == s[..end]
  {
  }

  lemma SplitAt<T>(a: seq<T>, b: seq<T>)
    ensures (a + b)[..|a|] == a && (a + b)[|a|..] == b
  {
  }
}
