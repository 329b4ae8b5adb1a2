/** Generic facts about sequences that the dispatcher model uses:
    element-wise mapping and removal by swap-with-last. */
module Seqs {

  /** Applies `f` to every element, keeping the order. */
  function Map<A, B>(f: A -> B, s: seq<A>): (r: seq<B>)
    ensures |r| == |s|
    ensures forall i :: 0 <= i < |s| ==> r[i] == f(s[i])
  {
    seq(|s|, i requires 0 <= i < |s| => f(s[i]))
  }

  lemma MapConcat<A, B>(f: A -> B, a: seq<A>, b: seq<A>)
    ensures Map(f, a + b) == Map(f, a) + Map(f, b)
  {
    assert forall i :: 0 <= i < |a + b| ==> Map(f, a + b)[i] == (Map(f, a) + Map(f, b))[i];
  }

  /** Splitting a sequence around index k keeps its multiset. */
  lemma MultisetSplit<T>(s: seq<T>, k: nat)
    requires k < |s|
    ensures multiset(s) == multiset(s[..k]) + multiset{s[k]} + multiset(s[k + 1..])
  {
    assert s == s[..k] + [s[k]] + s[k + 1..];
  }

  /** The image of t, split around index k. */
  lemma MapAround<A, B>(f: A -> B, t: seq<A>, k: nat)
    requires k < |t|
    ensures Map(f, t) == Map(f, t[..k]) + [f(t[k])] + Map(f, t[k + 1..])
    ensures Map(f, t[..k] + t[k + 1..]) == Map(f, t[..k]) + Map(f, t[k + 1..])
  {
    assert t == t[..k] + ([t[k]] + t[k + 1..]);
    MapConcat(f, t[..k], [t[k]] + t[k + 1..]);
    MapConcat(f, [t[k]], t[k + 1..]);
    MapConcat(f, t[..k], t[k + 1..]);
  }

  /** Mapping two permutations of each other gives two permutations of each other. */
  lemma {:induction false} MapPermutation<A, B>(f: A -> B, s: seq<A>, t: seq<A>)
    requires multiset(s) == multiset(t)
    ensures multiset(Map(f, s)) == multiset(Map(f, t))
    decreases |s|
  {
    if s == [] {
      assert |t| == |multiset(t)| == 0;
    } else {
      var k := PermutationIndex(s, t);
      MapPermutation(f, s[1..], t[..k] + t[k + 1..]);
      MapPermutationStep(f, s, t, k);
    }
  }

  /** Where the first element of a non-empty sequence sits in a permutation of
      it; the rest of both are permutations of each other. */
  lemma PermutationIndex<T>(s: seq<T>, t: seq<T>) returns (k: nat)
    requires s != [] && multiset(s) == multiset(t)
    ensures k < |t| && t[k] == s[0]
    ensures multiset(s[1..]) == multiset(t[..k] + t[k + 1..])
  {
    assert s[0] in t by {
      assert s[0] in multiset(t);
    }
    k :| 0 <= k < |t| && t[k] == s[0];
    var rest := t[..k] + t[k + 1..];
    assert multiset(t) == multiset{s[0]} + multiset(rest) by {
      MultisetSplit(t, k);
    }
    assert multiset(s) == multiset{s[0]} + multiset(s[1..]) by {
      assert s == [s[0]] + s[1..];
    }
    AddCancel(multiset(s[1..]), multiset(rest), s[0]);
  }

  lemma AddCancel<T>(a: multiset<T>, b: multiset<T>, x: T)
    requires multiset{x} + a == multiset{x} + b
    ensures a == b
  {
    assert forall y :: a[y] == (multiset{x} + a)[y] - multiset{x}[y];
  }

  lemma MapPermutationStep<A, B>(f: A -> B, s: seq<A>, t: seq<A>, k: nat)
    requires s != [] && k < |t| && t[k] == s[0]
    requires multiset(Map(f, s[1..])) == multiset(Map(f, t[..k] + t[k + 1..]))
    ensures multiset(Map(f, s)) == multiset(Map(f, t))
  {
    assert Map(f, s) == [f(s[0])] + Map(f, s[1..]);
    MapAround(f, t, k);
  }

  /** Removes index i by overwriting it with the last element and dropping the last slot. */
  function SwapRemove<T>(s: seq<T>, i: nat): (r: seq<T>)
    requires i < |s|
    ensures |r| == |s| - 1
    ensures i < |r| ==> r[i] == s[|s| - 1]
    ensures forall k :: 0 <= k < |r| && k != i ==> r[k] == s[k]
  {
    s[i := s[|s| - 1]][..|s| - 1]
  }

  /** Swap-remove takes exactly one copy of s[i] out of the multiset. */
  lemma SwapRemoveMultiset<T>(s: seq<T>, i: nat)
    requires i < |s|
    ensures multiset(SwapRemove(s, i)) == multiset(s) - multiset{s[i]}
  {
    var r := SwapRemove(s, i);
    var n := |s| - 1;
    if i == n {
      assert multiset(s) == multiset{s[i]} + multiset(r) by {
        assert s == r + [s[i]];
      }
    } else {
      var front, middle := s[..i], s[i + 1..n];
      assert multiset(r) == multiset(front) + multiset{s[n]} + multiset(middle) by {
        SwapRemoveShape(s, i);
      }
      assert multiset(s) == multiset(front) + multiset{s[i]} + multiset(middle) + multiset{s[n]} by {
        SwapRemoveShape(s, i);
      }
    }
    RemoveAdded(multiset(r), s[i]);
  }

  lemma SwapRemoveShape<T>(s: seq<T>, i: nat)
    requires i < |s| - 1
    ensures SwapRemove(s, i) == s[..i] + [s[|s| - 1]] + s[i + 1..|s| - 1]
    ensures s == s[..i] + [s[i]] + s[i + 1..|s| - 1] + [s[|s| - 1]]
  {
  }

  lemma RemoveAdded<T>(a: multiset<T>, x: T)
    ensures (multiset{x} + a) - multiset{x} == a
  {
    assert forall y :: ((multiset{x} + a) - multiset{x})[y] == a[y];
  }

  lemma MapSwapRemove<A, B>(f: A -> B, s: seq<A>, i: nat)
    requires i < |s|
    ensures Map(f, SwapRemove(s, i)) == SwapRemove(Map(f, s), i)
  {
  }

  /** Taking one more copy of x out of `held`, after `taken`, is taking
      `taken` and x together; when no copy of x is left it changes nothing. */
  lemma MultisetTakeOne<T>(held: multiset<T>, taken: multiset<T>, x: T)
    ensures (held - taken) - multiset{x} == held - (taken + multiset{x})
  {
    assert forall y :: ((held - taken) - multiset{x})[y] == (held - (taken + multiset{x}))[y];
  }
}
