/** Facts about concatenated and cut sequences that proofs elsewhere name instead of rediscovering. */
module Sequences {
  lemma SnocPrefix<T>(a: seq<T>, b: seq<T>)
    requires b != []
    ensures var s := a + b; s != [] && s[..|s| - 1] == a + b[..|b| - 1] && s[|s| - 1] == b[|b| - 1]
  {}

  lemma ConsSuffix<T>(a: seq<T>, b: seq<T>)
    requires a != []
    ensures (a + b)[0] == a[0] && (a + b)[1..] == a[1..] + b
  {}

  lemma Assoc<T>(a: seq<T>, b: seq<T>, c: seq<T>)
    ensures (a + b) + c == a + (b + c)
  {}

  lemma SplitAt<T>(s: seq<T>, k: nat)
    requires k < |s|
    ensures s == s[..k] + ([s[k]] + s[k + 1..]) == s[..k] + [s[k]] + s[k + 1..]
  {}

  lemma NextPrefix<T>(s: seq<T>, k: nat)
    requires k < |s|
    ensures s[..k + 1] == s[..k] + [s[k]]
  {}

  lemma Snoc<T>(s: seq<T>)
    requires s != []
    ensures s == s[..|s| - 1] + [s[|s| - 1]]
  {}

  lemma UpdateConcat<T>(s: seq<T>, i: nat, x: T)
    requires i < |s|
    ensures s[..i] + [x] + s[i + 1..] == s[i := x]
  {}

  lemma MoveOut<T>(p: seq<T>, x: T, q: seq<T>)
    ensures multiset(p + ([x] + q)) == multiset(p + q) + multiset{x}
  {}
}
