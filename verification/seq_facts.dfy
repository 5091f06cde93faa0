/** Facts about sequences of any element type that the proofs of the sorting and
    filtering loops share. */
module SeqFacts {

  /** The values of a non-empty sequence are those of all but its last element, plus the last. */
  lemma SnocMultiset<T>(s: seq<T>)
    requires s != []
    ensures multiset(s) == multiset(s[..|s| - 1]) + multiset{s[|s| - 1]}
  {
    assert s == s[..|s| - 1] + [s[|s| - 1]];
  }

  /** A run being consumed left to right: `done + s[j..]`, whose element at `|done|` is
      `s[j]`, becomes `done + s[j + 1..]` when that element is erased and
      `(done + [s[j]]) + s[j + 1..]` when it is kept. */
  lemma EraseAt<T>(done: seq<T>, s: seq<T>, j: int)
    requires 0 <= j < |s|
    ensures (done + s[j..])[|done|] == s[j]
    ensures (done + s[j..])[..|done|] + (done + s[j..])[|done| + 1..] == done + s[j + 1..]
    ensures done + s[j..] == (done + [s[j]]) + s[j + 1..]
  {
    assert s[j..] == [s[j]] + s[j + 1..];
  }

  /** The values of a non-empty sequence are its head plus those of its tail. */
  lemma HeadTailMultiset<T>(s: seq<T>)
    requires s != []
    ensures multiset(s[1..]) == multiset(s) - multiset{s[0]}
  {
    assert s == [s[0]] + s[1..];
  }

  /** Two non-empty sequences with equal heads and equal tails are equal. */
  lemma SameHeadSameTail<T>(a: seq<T>, b: seq<T>)
    requires a != [] && b != [] && a[0] == b[0] && a[1..] == b[1..]
    ensures a == b
  {
    assert a == [a[0]] + a[1..];
    assert b == [b[0]] + b[1..];
  }
}
