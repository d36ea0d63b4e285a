/** Small facts about sequences that several modules share. */
module Seqs {
  /** A sequence that grew from `base + done` by `step` is `base` followed
      by `done + step`. */
  lemma Extend<T>(cur: seq<T>, prev: seq<T>, base: seq<T>, done: seq<T>, step: seq<T>, next: seq<T>)
    requires prev == base + done && cur == prev + step && next == done + step
    ensures cur == base + next
  {
  }
}
