/** Lists of numbers without repetition: the log header, the buffer ring, the disk queue. */
module Sequences {
  predicate Distinct(s: seq<nat>) {
    forall i, j :: 0 <= i < j < |s| ==> s[i] != s[j]
  }
}
