/** Facts about slices of sequences, kept apart so that proofs about buffers stay cheap. */
module Slices {

  lemma Join<T>(s: seq<T>, a: nat, b: nat, c: nat)
    requires a <= b <= c <= |s|
    ensures s[a..b] + s[b..c] == s[a..c]
  {
  }

  lemma TakeOf<T>(s: seq<T>, a: nat, c: nat, k: nat)
    requires a <= c <= |s| && a + k <= c
    ensures s[a..c][..k] == s[a..a + k]
  {
  }

  lemma SliceOfTake<T>(s: seq<T>, n: nat, a: nat, b: nat)
    requires a <= b <= n <= |s|
    ensures s[..n][a..b] == s[a..b]
  {
  }

  lemma Middle<T>(x: seq<T>, y: seq<T>, s: seq<T>)
    requires x + y <= s
    ensures x <= s && s[|x|..|x| + |y|] == y
  {
    assert x == (x + y)[..|x|];
    assert y == (x + y)[|x|..];
    assert (x + y)[|x|..] == s[|x|..|x| + |y|];
  }

  lemma TailTake<T>(s: seq<T>, k: nat)
    requires 1 <= k <= |s|
    ensures s[..k][1..] == s[1..][..k - 1] && s[..k][0] == s[0]
  {
  }

  lemma SliceOfDrop<T>(s: seq<T>, m: nat, a: nat, b: nat)
    requires a <= b && m + b <= |s|
    ensures s[m..][a..b] == s[m + a..m + b]
  {
  }
}
