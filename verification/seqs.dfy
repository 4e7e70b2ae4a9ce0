/** Sequence helpers shared by the services and pages: order-preserving
    selection (`Array.prototype.filter`) and first-appearance de-duplication
    (`Array.from(new Set(xs))`). */
module Seqs {

  /** `xs` can be obtained from `ys` by deleting elements, keeping order. */
  predicate IsSubsequence<T(==)>(xs: seq<T>, ys: seq<T>)
    decreases |ys|
  {
    if xs == [] then true
    else if ys == [] then false
    else (xs[0] == ys[0] && IsSubsequence(xs[1..], ys[1..])) || IsSubsequence(xs, ys[1..])
  }

  lemma {:induction false} SubsequenceMembers<T>(xs: seq<T>, ys: seq<T>)
    requires IsSubsequence(xs, ys)
    ensures forall x :: x in xs ==> x in ys
    decreases |ys|
  {
    if xs != [] && ys != [] {
      if xs[0] == ys[0] && IsSubsequence(xs[1..], ys[1..]) {
        SubsequenceMembers(xs[1..], ys[1..]);
        assert forall x :: x in xs ==> x == xs[0] || x in xs[1..];
      } else {
        SubsequenceMembers(xs, ys[1..]);
      }
    }
  }

  lemma {:induction false} SubsequenceRefl<T>(xs: seq<T>)
    ensures IsSubsequence(xs, xs)
    decreases |xs|
  {
    if xs != [] {
      SubsequenceRefl(xs[1..]);
    }
  }

  /** Keeps exactly the elements satisfying `p`, in order, with their
      multiplicities; the reference for every `filter` call of the client. */
  function Filter<T(==,!new)>(xs: seq<T>, p: T -> bool): (r: seq<T>)
    ensures IsSubsequence(r, xs)
    ensures forall i :: 0 <= i < |r| ==> p(r[i])
    ensures forall x :: multiset(r)[x] == if p(x) then multiset(xs)[x] else 0
    ensures |r| <= |xs|
    decreases |xs|
  {
    if xs == [] then []
    else
      var rest := Filter(xs[1..], p);
      var r := if p(xs[0]) then [xs[0]] + rest else rest;
      FilterCountStep(xs, p, rest, r);
      assert p(xs[0]) ==> r[0] == xs[0] && r[1..] == rest;
      r
  }

  /** The multiplicities of one step of `Filter`. */
  lemma FilterCountStep<T(!new)>(xs: seq<T>, p: T -> bool, rest: seq<T>, r: seq<T>)
    requires xs != []
    requires forall x :: multiset(rest)[x] == if p(x) then multiset(xs[1..])[x] else 0
    requires r == if p(xs[0]) then [xs[0]] + rest else rest
    ensures forall x :: multiset(r)[x] == if p(x) then multiset(xs)[x] else 0
  {
    assert xs == [xs[0]] + xs[1..];
    assert multiset(xs) == multiset{xs[0]} + multiset(xs[1..]);
    if p(xs[0]) {
      assert multiset(r) == multiset{xs[0]} + multiset(rest);
    }
  }

  lemma FilterMembers<T(!new)>(xs: seq<T>, p: T -> bool, x: T)
    ensures x in Filter(xs, p) <==> x in xs && p(x)
  {
    var r := Filter(xs, p);
    assert x in r <==> multiset(r)[x] > 0;
    assert x in xs <==> multiset(xs)[x] > 0;
  }

  /** Every element satisfying `p` is kept, so nothing is lost. */
  lemma {:induction false} FilterAll<T(!new)>(xs: seq<T>, p: T -> bool)
    requires forall i :: 0 <= i < |xs| ==> p(xs[i])
    ensures Filter(xs, p) == xs
    decreases |xs|
  {
    if xs != [] {
      FilterAll(xs[1..], p);
    }
  }

  lemma {:induction false} FilterSplit<T(!new)>(xs: seq<T>, ys: seq<T>, p: T -> bool)
    ensures Filter(xs + ys, p) == Filter(xs, p) + Filter(ys, p)
    decreases |xs|
  {
    if xs == [] {
      assert xs + ys == ys;
    } else {
      assert (xs + ys)[1..] == xs[1..] + ys;
      FilterSplit(xs[1..], ys, p);
    }
  }

  /** Every element is selected by exactly one of two complementary
      predicates. */
  lemma {:induction false} FilterComplementLength<T(!new)>(xs: seq<T>, p: T -> bool, q: T -> bool)
    requires forall x :: q(x) == !p(x)
    ensures |Filter(xs, p)| + |Filter(xs, q)| == |xs|
    decreases |xs|
  {
    if xs != [] {
      FilterComplementLength(xs[1..], p, q);
    }
  }

  /** The selection from a non-empty sequence: its head if selected, then
      the selection from its tail. */
  lemma FilterLengthCons<T(!new)>(xs: seq<T>, p: T -> bool)
    requires xs != []
    ensures |Filter(xs, p)| == (if p(xs[0]) then 1 else 0) + |Filter(xs[1..], p)|
  {
  }

  /** Replacing one element changes the number selected by at most one. */
  lemma {:induction false} FilterLengthUpdate<T(!new)>(xs: seq<T>, i: nat, y: T, p: T -> bool)
    requires i < |xs|
    ensures |Filter(xs[i := y], p)|
            == |Filter(xs, p)| - (if p(xs[i]) then 1 else 0) + (if p(y) then 1 else 0)
    decreases |xs|
  {
    var ys := xs[i := y];
    FilterLengthCons(xs, p);
    FilterLengthCons(ys, p);
    if i > 0 {
      assert ys[0] == xs[0] && ys[1..] == xs[1..][i - 1 := y];
      FilterLengthUpdate(xs[1..], i - 1, y, p);
    } else {
      assert ys[0] == y && ys[1..] == xs[1..];
    }
  }

  /** The elements of `xs` that appear for the first time, in that order:
      the declarative reading of iterating a JavaScript `Set`. */
  function FirstOccurrences<T(==)>(xs: seq<T>): seq<T>
    decreases |xs|
  {
    if xs == [] then []
    else
      var prev := xs[..|xs| - 1];
      FirstOccurrences(prev) + (if xs[|xs| - 1] in prev then [] else [xs[|xs| - 1]])
  }

  lemma {:induction false} FirstOccurrencesMembers<T>(xs: seq<T>)
    ensures forall x :: x in FirstOccurrences(xs) <==> x in xs
    decreases |xs|
  {
    if xs != [] {
      var prev := xs[..|xs| - 1];
      FirstOccurrencesMembers(prev);
      assert xs == prev + [xs[|xs| - 1]];
    }
  }

  ghost predicate NoDuplicates<T>(xs: seq<T>) {
    forall i, j :: 0 <= i < j < |xs| ==> xs[i] != xs[j]
  }

  lemma {:induction false} FirstOccurrencesDistinct<T>(xs: seq<T>)
    ensures NoDuplicates(FirstOccurrences(xs))
    decreases |xs|
  {
    if xs != [] {
      var prev := xs[..|xs| - 1];
      FirstOccurrencesDistinct(prev);
      FirstOccurrencesMembers(prev);
    }
  }

  /** The fold `new Set(xs)` performs: `seen` holds what was inserted so far. */
  function DistinctFrom<T(==)>(seen: seq<T>, rest: seq<T>): seq<T>
    decreases |rest|
  {
    if rest == [] then seen
    else if rest[0] in seen then DistinctFrom(seen, rest[1..])
    else DistinctFrom(seen + [rest[0]], rest[1..])
  }

  lemma {:induction false} DistinctFromFirstOccurrences<T>(p: seq<T>, q: seq<T>)
    ensures DistinctFrom(FirstOccurrences(p), q) == FirstOccurrences(p + q)
    decreases |q|
  {
    if q == [] {
      assert p + q == p;
    } else {
      var a := q[0];
      FirstOccurrencesMembers(p);
      assert (p + [a])[..|p + [a]| - 1] == p;
      assert FirstOccurrences(p + [a]) == FirstOccurrences(p) + (if a in p then [] else [a]);
      if a in p {
        assert a in FirstOccurrences(p);
        assert FirstOccurrences(p + [a]) == FirstOccurrences(p);
      } else {
        assert a !in FirstOccurrences(p);
        assert FirstOccurrences(p + [a]) == FirstOccurrences(p) + [a];
      }
      assert DistinctFrom(FirstOccurrences(p), q) == DistinctFrom(FirstOccurrences(p + [a]), q[1..]);
      DistinctFromFirstOccurrences(p + [a], q[1..]);
      assert p + [a] + q[1..] == p + q;
    }
  }

  /** `Array.from(new Set(xs))`: each distinct value once, in order of
      first appearance. */
  function Distinct<T(==,!new)>(xs: seq<T>): (r: seq<T>)
    ensures r == FirstOccurrences(xs)
    ensures NoDuplicates(r)
    ensures forall x :: x in r <==> x in xs
  {
    DistinctFromFirstOccurrences([], xs);
    assert [] + xs == xs;
    FirstOccurrencesDistinct(xs);
    FirstOccurrencesMembers(xs);
    DistinctFrom([], xs)
  }
}
