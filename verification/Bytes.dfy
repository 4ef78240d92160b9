/** Bytes of a stream, and the facts about slices that several modules share. */
module Bytes {
  newtype byte = x: int | 0 <= x < 256

  // Two adjacent slices glue together.
  lemma SliceJoin<T>(s: seq<T>, a: nat, b: nat, c: nat)
    requires a <= b <= c <= |s|
    ensures s[a..b] + s[b..c] == s[a..c]
  {
  }

  lemma SliceTake<T>(s: seq<T>, a: nat, b: nat, n: nat)
    requires a <= b <= |s| && n <= b - a
    ensures s[a..b][..n] == s[a..a + n]
  {
  }
}
