/**
 * Generic facts about sequence concatenation and slicing. Stated once here
 * so that proofs about traces and message texts can cite them instead of
 * asking the solver to regroup long concatenations of concrete values.
 */
module Sequences {
  /** Concatenation is associative. */
  lemma AppendAssoc<T>(a: seq<T>, b: seq<T>, c: seq<T>)
    ensures a + (b + c) == (a + b) + c
  {
  }

  /** Empty parts of a concatenation can be dropped. */
  lemma DropEmpties<T>(x: seq<T>, y: seq<T>)
    ensures [] + x + [] + y + [] == x + y
  {
  }

  /** A sequence is the concatenation of its three slices at i and j. */
  lemma Cut<T>(s: seq<T>, i: nat, j: nat)
    requires i <= j <= |s|
    ensures s == s[..i] + s[i..j] + s[j..]
  {
  }

  /** The two parts of a concatenation, read back by slicing. */
  lemma Split<T>(a: seq<T>, b: seq<T>)
    ensures (a + b)[..|a|] == a && (a + b)[|a|..] == b
  {
  }

  /** Two groupings of a six-part concatenation that are both the left-nested one. */
  lemma Regroup<T>(a: seq<T>, b: seq<T>, c: seq<T>, d: seq<T>, e: seq<T>, f: seq<T>)
    ensures a + ((b + c) + ((d + e) + f)) == a + b + c + d + e + f
    ensures a + (b + (c + (d + e + f))) == a + b + c + d + e + f
  {
  }

  /** The parts of a three-part sequence, read back by slicing. */
  lemma Outer<T>(a: seq<T>, b: seq<T>, c: seq<T>)
    ensures var s := a + (b + c); s[..|a|] == a && s[|a| + |b|..] == c
    ensures var s := a + b + c; s[..|a|] == a && s[|a|..|s| - |c|] == b && s[|s| - |c|..] == c
  {
    var s := a + b + c;
    assert s[|a|..|s| - |c|] == b;
  }
}
