/** Facts about sequences in which no element repeats. The second hint draws
    letters from such a sequence, and counting what it disables rests on them. */
module Sequences {

  /** No element occurs more than once in `xs`. */
  predicate NoDuplicates(xs: seq<char>) {
    forall x :: multiset(xs)[x] <= 1
  }

  /** The set of elements of `xs`. */
  function Elements(xs: seq<char>): set<char> {
    set x | x in xs
  }

  /** A sequence without repeats has as many distinct elements as positions. */
  lemma {:induction false} NoDuplicatesCardinality(xs: seq<char>)
    requires NoDuplicates(xs)
    ensures |Elements(xs)| == |xs|
  {
    if |xs| > 0 {
      var rest := xs[1..];
      assert xs == [xs[0]] + rest;
      assert multiset(xs) == multiset{xs[0]} + multiset(rest);
      assert NoDuplicates(rest) by {
        forall x ensures multiset(rest)[x] <= 1 {
          assert multiset(rest)[x] <= multiset(xs)[x];
        }
      }
      assert xs[0] !in rest by {
        assert multiset(xs)[xs[0]] == 1 + multiset(rest)[xs[0]];
      }
      NoDuplicatesCardinality(rest);
      assert Elements(xs) == {xs[0]} + Elements(rest);
    }
  }

  /** Every prefix of a sequence without repeats has no repeats either. */
  lemma PrefixNoDuplicates(xs: seq<char>, k: nat)
    requires NoDuplicates(xs)
    requires k <= |xs|
    ensures NoDuplicates(xs[..k])
  {
    assert xs == xs[..k] + xs[k..];
    forall x ensures multiset(xs[..k])[x] <= 1 {
      assert multiset(xs)[x] == multiset(xs[..k])[x] + multiset(xs[k..])[x];
    }
  }

  /** A sequence whose multiset is contained in that of a sequence without
      repeats has no repeats either. */
  lemma ShuffleNoDuplicates(xs: seq<char>, ys: seq<char>)
    requires multiset(xs) <= multiset(ys)
    requires NoDuplicates(ys)
    ensures NoDuplicates(xs)
  {
    forall x ensures multiset(xs)[x] <= 1 {
      assert multiset(xs)[x] <= multiset(ys)[x];
    }
  }

  /** A strictly increasing sequence of characters has no repeats. */
  lemma {:induction false} IncreasingNoDuplicates(xs: seq<char>)
    requires forall i, j :: 0 <= i < j < |xs| ==> xs[i] < xs[j]
    ensures NoDuplicates(xs)
  {
    if |xs| > 0 {
      var rest := xs[1..];
      assert xs == [xs[0]] + rest;
      IncreasingNoDuplicates(rest);
      assert xs[0] !in rest;
      forall x ensures multiset(xs)[x] <= 1 {
        assert multiset(xs)[x] == multiset([xs[0]])[x] + multiset(rest)[x];
      }
    }
  }
}
