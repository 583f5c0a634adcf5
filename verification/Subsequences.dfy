/** Subsequences: what is left of a sequence when some elements are taken out. */
module Subsequences {

  /** f says where each element of a is found in b, in order. */
  ghost predicate Embeds<T>(f: seq<nat>, a: seq<T>, b: seq<T>) {
    && |f| == |a|
    && (forall i | 0 <= i < |f| :: f[i] < |b| && a[i] == b[f[i]])
    && forall i, j | 0 <= i < j < |f| :: f[i] < f[j]
  }

  ghost predicate IsSubsequence<T>(a: seq<T>, b: seq<T>) {
    exists f: seq<nat> :: Embeds(f, a, b)
  }

  lemma SubsequenceOfItself<T>(a: seq<T>)
    ensures IsSubsequence(a, a)
  {
    assert Embeds(seq(|a|, i => i), a, a);
  }

  lemma AppendToBoth<T>(a: seq<T>, b: seq<T>, x: T)
    requires IsSubsequence(a, b)
    ensures IsSubsequence(a + [x], b + [x])
  {
    var f: seq<nat> :| Embeds(f, a, b);
    assert Embeds(f + [|b|], a + [x], b + [x]);
  }

  lemma AppendToWhole<T>(a: seq<T>, b: seq<T>, x: T)
    requires IsSubsequence(a, b)
    ensures IsSubsequence(a, b + [x])
  {
    var f: seq<nat> :| Embeds(f, a, b);
    assert Embeds(f, a, b + [x]);
  }

  lemma CutOut<T>(a: seq<T>, b: seq<T>, lo: nat, hi: nat)
    requires IsSubsequence(a, b) && lo <= hi <= |a|
    ensures IsSubsequence(a[..lo] + a[hi..], b)
  {
    var f: seq<nat> :| Embeds(f, a, b);
    assert Embeds(f[..lo] + f[hi..], a[..lo] + a[hi..], b);
  }

  /** A stretch is cut out of the kept part, and the same tail goes on both. */
  lemma CutOutAndAppend<T>(a: seq<T>, b: seq<T>, lo: nat, hi: nat, tail: seq<T>)
    requires IsSubsequence(a, b) && lo <= hi <= |a|
    ensures IsSubsequence(a[..lo] + a[hi..] + tail, b + tail)
  {
    CutOut(a, b, lo, hi);
    var kept := a[..lo] + a[hi..];
    var f: seq<nat> :| Embeds(f, kept, b);
    assert Embeds(f + seq(|tail|, i => |b| + i), kept + tail, b + tail);
  }
}
