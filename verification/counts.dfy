/**
  Counting as the scripts do it with a `defaultdict(int)`: an absent key reads as 0,
  `d[k] += 1` inserts a new key after all the keys already present, and iterating
  over the dictionary visits the keys in that insertion (first-seen) order.
*/
module Counts {

  /** The `defaultdict(int)` read: an absent key counts 0. */
  function Count(counts: map<string, nat>, k: string): nat {
    if k in counts then counts[k] else 0
  }

  /** The keys of a counter fed `xs` one by one, in insertion order. */
  function FirstSeen(xs: seq<string>): seq<string> {
    if xs == [] then []
    else
      var keys := FirstSeen(xs[..|xs| - 1]);
      if xs[|xs| - 1] in keys then keys else keys + [xs[|xs| - 1]]
  }

  /** The counts of a counter fed `xs` one by one. */
  function Tally(xs: seq<string>): map<string, nat> {
    if xs == [] then map[]
    else
      var counts := Tally(xs[..|xs| - 1]);
      var x := xs[|xs| - 1];
      counts[x := Count(counts, x) + 1]
  }

  /** The position at which `x` first occurs in `xs`. */
  function FirstIndex(xs: seq<string>, x: string): (p: nat)
    requires x in xs
    ensures p < |xs| && xs[p] == x && x !in xs[..p]
  {
    var init := xs[..|xs| - 1];
    if x in init then
      var p := FirstIndex(init, x);
      assert xs[..p] == init[..p];
      p
    else
      assert xs == init + [x];
      |xs| - 1
  }

  predicate Distinct(xs: seq<string>) {
    forall i, j :: 0 <= i < j < |xs| ==> xs[i] != xs[j]
  }

  /** The sum of the counts of `keys`. */
  function Total(keys: seq<string>, counts: map<string, nat>): nat {
    if keys == [] then 0 else Total(keys[..|keys| - 1], counts) + Count(counts, keys[|keys| - 1])
  }

  // ---------------------------------------------------------------------------
  // What a counter holds after a stream

  /** Feeding one more item: it is appended to the keys if new, and its count
      goes up by one. */
  lemma CounterStep(xs: seq<string>, x: string)
    ensures FirstSeen(xs + [x]) == if x in FirstSeen(xs) then FirstSeen(xs) else FirstSeen(xs) + [x]
    ensures Tally(xs + [x]) == Tally(xs)[x := Count(Tally(xs), x) + 1]
  {
    assert (xs + [x])[..|xs|] == xs;
  }

  /** The counter's keys are exactly the items seen, each once, and they are the
      keys of its counts. */
  lemma {:induction false} FirstSeenSpec(xs: seq<string>)
    ensures forall x :: x in FirstSeen(xs) <==> x in xs
    ensures forall x :: x in Tally(xs) <==> x in xs
    ensures Distinct(FirstSeen(xs))
  {
    if xs != [] {
      var init := xs[..|xs| - 1];
      FirstSeenSpec(init);
      assert xs == init + [xs[|xs| - 1]];
    }
  }

  /** Each item's count is the number of times it occurs in the stream. */
  lemma {:induction false} TallyCounts(xs: seq<string>, k: string)
    ensures Count(Tally(xs), k) == multiset(xs)[k]
  {
    if xs != [] {
      var init := xs[..|xs| - 1];
      TallyCounts(init, k);
      assert xs == init + [xs[|xs| - 1]];
    }
  }

  /** The keys come in the order of their first occurrence in the stream. */
  lemma {:induction false} FirstSeenOrder(xs: seq<string>)
    ensures forall a, b :: 0 <= a < b < |FirstSeen(xs)| ==>
      FirstSeen(xs)[a] in xs && FirstSeen(xs)[b] in xs
      && FirstIndex(xs, FirstSeen(xs)[a]) < FirstIndex(xs, FirstSeen(xs)[b])
  {
    FirstSeenSpec(xs);
    if xs != [] {
      var init := xs[..|xs| - 1];
      var keys := FirstSeen(init);
      FirstSeenOrder(init);
      FirstSeenSpec(init);
      forall a, b | 0 <= a < b < |FirstSeen(xs)|
        ensures FirstIndex(xs, FirstSeen(xs)[a]) < FirstIndex(xs, FirstSeen(xs)[b])
      {
        FirstIndexInit(xs, keys[a]);
        if b < |keys| {
          FirstIndexInit(xs, keys[b]);
        }
      }
    }
  }

  /** An item already in the stream's prefix first occurs where it did there. */
  lemma FirstIndexInit(xs: seq<string>, y: string)
    requires xs != [] && y in xs[..|xs| - 1]
    ensures y in xs && FirstIndex(xs, y) == FirstIndex(xs[..|xs| - 1], y) < |xs| - 1
  {
  }

  /** The counts of a counter sum to the length of the stream that fed it. */
  lemma {:induction false} TallyTotal(xs: seq<string>)
    ensures Total(FirstSeen(xs), Tally(xs)) == |xs|
  {
    if xs != [] {
      var init := xs[..|xs| - 1];
      var x := xs[|xs| - 1];
      TallyTotal(init);
      FirstSeenSpec(init);
      var keys := FirstSeen(init);
      var counts := Tally(init);
      if x in keys {
        TotalBump(keys, counts, x);
      } else {
        TotalIgnores(keys, counts, x, 1);
      }
    }
  }

  /** Adding one to a key that occurs once among `keys` adds one to the total. */
  lemma {:induction false} TotalBump(keys: seq<string>, counts: map<string, nat>, x: string)
    requires Distinct(keys) && x in keys
    ensures Total(keys, counts[x := Count(counts, x) + 1]) == Total(keys, counts) + 1
  {
    var init := keys[..|keys| - 1];
    var last := keys[|keys| - 1];
    if last == x {
      assert x !in init;
      TotalIgnores(init, counts, x, Count(counts, x) + 1);
    } else {
      assert x in init;
      TotalBump(init, counts, x);
    }
  }

  /** A key outside `keys` plays no part in their total. */
  lemma {:induction false} TotalIgnores(keys: seq<string>, counts: map<string, nat>, x: string, v: nat)
    requires x !in keys
    ensures Total(keys, counts[x := v]) == Total(keys, counts)
  {
    if keys != [] {
      TotalIgnores(keys[..|keys| - 1], counts, x, v);
    }
  }
}
