/** Sequence rearrangements the solver is slow to find by itself. */
module Seqs {
  lemma Assoc<T>(a: seq<T>, b: seq<T>, c: seq<T>)
    ensures a + (b + c) == (a + b) + c
  {
  }

  lemma HeadTail<T>(s: seq<T>, t: seq<T>)
    requires s != []
    ensures [s[0]] + (s[1..] + t) == s + t
  {
  }

  /** The head and tail of a list that was extended at its end. */
  lemma Snoc<T>(s: seq<T>, x: T)
    ensures s == [] ==> s + [x] == [x]
    ensures s != [] ==> (s + [x])[0] == s[0] && (s + [x])[1..] == s[1..] + [x]
  {
  }
}
