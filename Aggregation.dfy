/**
 The reduction behind `getStatistics`: the cached amounts are fed one by one to a
 summary-statistics accumulator (count, sum, running min and max, which start at
 positive and negative infinity), and the accumulator is then turned into a
 `Statistics` record in which an infinite min or max, and the average of nothing,
 read as zero.
 */
module Aggregation {
  import opened Model

  /** A double that may also be one of the two infinities the accumulator starts from. */
  datatype Extended = NegInfinity | Finite(value: real) | PosInfinity

  /** The running state of the summary-statistics accumulator. */
  datatype Accumulator = Accumulator(count: nat, sum: real, min: Extended, max: Extended)

  /** A fresh accumulator: nothing counted, min at +infinity, max at -infinity. */
  const Initial := Accumulator(0, 0.0, PosInfinity, NegInfinity)

  /**
   The smaller of a running minimum and a new amount: one of the two, never above the
   amount, and never above a finite running minimum.
   */
  function MinOf(e: Extended, x: real): (r: Extended)
    ensures r == e || r == Finite(x)
    ensures e != NegInfinity ==> r.Finite? && r.value <= x
    ensures e.Finite? ==> r.Finite? && r.value <= e.value
  {
    match e
    case NegInfinity => NegInfinity
    case Finite(v) => Finite(if x < v then x else v)
    case PosInfinity => Finite(x)
  }

  /**
   The larger of a running maximum and a new amount: one of the two, never below the
   amount, and never below a finite running maximum.
   */
  function MaxOf(e: Extended, x: real): (r: Extended)
    ensures r == e || r == Finite(x)
    ensures e != PosInfinity ==> r.Finite? && r.value >= x
    ensures e.Finite? ==> r.Finite? && r.value >= e.value
  {
    match e
    case NegInfinity => Finite(x)
    case Finite(v) => Finite(if x > v then x else v)
    case PosInfinity => PosInfinity
  }

  /**
   Records one more amount: counted once and added to the sum. Each extreme is either
   kept or replaced by the amount, so that it bounds both the amount and the old
   extreme; it becomes finite unless it sat at the opposite infinity.
   */
  function Accept(acc: Accumulator, x: real): (r: Accumulator)
    ensures r.count == acc.count + 1 && r.sum == acc.sum + x
    ensures r.min == acc.min || r.min == Finite(x)
    ensures r.max == acc.max || r.max == Finite(x)
    ensures acc.min != NegInfinity ==> r.min.Finite? && r.min.value <= x
    ensures acc.max != PosInfinity ==> r.max.Finite? && r.max.value >= x
    ensures acc.min.Finite? ==> r.min.Finite? && r.min.value <= acc.min.value
    ensures acc.max.Finite? ==> r.max.Finite? && r.max.value >= acc.max.value
  {
    Accumulator(acc.count + 1, acc.sum + x, MinOf(acc.min, x), MaxOf(acc.max, x))
  }

  /** The arithmetic sum of a sequence of amounts, the reference the accumulator is measured against. */
  function Sum(xs: seq<real>): real
  {
    if xs == [] then 0.0 else xs[0] + Sum(xs[1..])
  }

  lemma {:induction false} SumConcat(a: seq<real>, b: seq<real>)
    ensures Sum(a + b) == Sum(a) + Sum(b)
  {
    if a == [] {
      assert a + b == b;
    } else {
      assert (a + b)[1..] == a[1..] + b;
      SumConcat(a[1..], b);
    }
  }

  /** Taking one amount out of a sequence takes it out of the sum. */
  lemma SumRemove(b: seq<real>, i: nat)
    requires i < |b|
    ensures Sum(b) == b[i] + Sum(b[..i] + b[i + 1..])
  {
    var front, back := b[..i], b[i + 1..];
    assert b == front + ([b[i]] + back);
    assert ([b[i]] + back)[1..] == back;
    SumConcat(front, [b[i]] + back);
    SumConcat(front, back);
  }

  /** A sequence's multiset is that of the sequence without one element, plus that element. */
  lemma MultisetRemove(b: seq<real>, i: nat)
    requires i < |b|
    ensures multiset(b) == multiset(b[..i] + b[i + 1..]) + multiset{b[i]}
  {
    assert b == b[..i] + ([b[i]] + b[i + 1..]);
  }

  /** Dropping the first element takes it out of the multiset. */
  lemma MultisetTail(a: seq<real>)
    requires a != []
    ensures multiset(a[1..]) == multiset(a) - multiset{a[0]}
  {
    assert a == [a[0]] + a[1..];
  }

  /** Removing the same amount from two permutations of each other leaves permutations. */
  lemma PermutationRemove(a: seq<real>, b: seq<real>, i: nat)
    requires multiset(a) == multiset(b) && a != [] && i < |b| && b[i] == a[0]
    ensures multiset(a[1..]) == multiset(b[..i] + b[i + 1..])
  {
    MultisetTail(a);
    MultisetRemove(b, i);
  }

  /** The sum does not depend on the order in which the amounts are listed. */
  lemma {:induction false} SumPermutation(a: seq<real>, b: seq<real>)
    requires multiset(a) == multiset(b)
    ensures Sum(a) == Sum(b)
    decreases |a|
  {
    if a != [] {
      assert a[0] in multiset(b);
      var i :| 0 <= i < |b| && b[i] == a[0];
      var rest := b[..i] + b[i + 1..];
      PermutationRemove(a, b, i);
      SumPermutation(a[1..], rest);
      SumRemove(b, i);
      assert Sum(a) == a[0] + Sum(a[1..]);
    }
  }

  /** The sum of n copies of the same amount is n times that amount. */
  lemma {:induction false} SumUniform(xs: seq<real>, a: real)
    requires forall i :: 0 <= i < |xs| ==> xs[i] == a
    ensures Sum(xs) == |xs| as real * a
  {
    if xs != [] {
      SumUniform(xs[1..], a);
    }
  }

  /**
   The accumulator after accepting the amounts from left to right: it counts them,
   sums them, and its min and max are infinite exactly when nothing was accepted and
   otherwise are amounts of the sequence that bound all the others.
   */
  function Fold(xs: seq<real>): (acc: Accumulator)
    ensures acc.count == |xs|
    ensures acc.sum == Sum(xs)
    ensures xs == [] <==> acc.min == PosInfinity
    ensures xs == [] <==> acc.max == NegInfinity
    ensures xs != [] ==> acc.min.Finite? && acc.min.value in xs
    ensures xs != [] ==> acc.max.Finite? && acc.max.value in xs
    ensures xs != [] ==> forall i :: 0 <= i < |xs| ==> acc.min.value <= xs[i] <= acc.max.value
  {
    if xs == [] then Initial
    else
      var init, last := xs[..|xs| - 1], xs[|xs| - 1];
      assert xs == init + [last];
      SumConcat(init, [last]);
      Accept(Fold(init), last)
  }

  /** The average the accumulator reports: zero when nothing was counted, else count times it is the sum. */
  function Average(acc: Accumulator): (a: real)
    ensures acc.count == 0 ==> a == 0.0
    ensures acc.count > 0 ==> a * acc.count as real == acc.sum
  {
    if acc.count > 0 then acc.sum / acc.count as real else 0.0
  }

  /**
   The statistics of a stream of amounts: its length, its sum, its average, and its
   least and greatest element; all zero for the empty stream.
   */
  function Summarize(xs: seq<real>): (s: Statistics)
    ensures s.count == |xs|
    ensures s.sum == Sum(xs)
    ensures xs == [] ==> s == ZeroStatistics
    ensures xs != [] ==> s.avg == s.sum / |xs| as real
    ensures xs != [] ==> s.min in xs && s.max in xs
    ensures forall i :: 0 <= i < |xs| ==> s.min <= xs[i] <= s.max
  {
    var acc := Fold(xs);
    var max := if acc.max.Finite? then acc.max.value else 0.0;
    var min := if acc.min.Finite? then acc.min.value else 0.0;
    Statistics(acc.sum, Average(acc), max, min, acc.count)
  }

  /** The statistics do not depend on the order in which the amounts arrive. */
  lemma SummarizePermutation(a: seq<real>, b: seq<real>)
    requires multiset(a) == multiset(b)
    ensures Summarize(a) == Summarize(b)
  {
    SumPermutation(a, b);
    assert |a| == |multiset(a)| == |multiset(b)| == |b|;
    assert forall x :: x in a <==> x in b by {
      forall x ensures x in a <==> x in b {
        assert x in a <==> x in multiset(a);
        assert x in b <==> x in multiset(b);
      }
    }
  }

  /**
   Accepting one more amount: the count grows by one, the sum by the amount, and the
   extremes move to include it.
   */
  lemma SummarizeAppend(xs: seq<real>, x: real)
    ensures var s, s' := Summarize(xs), Summarize(xs + [x]);
      && s'.count == s.count + 1
      && s'.sum == s.sum + x
      && s'.min == (if xs == [] || x < s.min then x else s.min)
      && s'.max == (if xs == [] || x > s.max then x else s.max)
  {
    var ys := xs + [x];
    assert ys[..|ys| - 1] == xs;
  }

  /** When every one of n > 0 amounts is the same value a, the statistics are n·a, a, a, a and n. */
  lemma SummarizeUniform(xs: seq<real>, a: real, n: nat)
    requires |xs| == n && n > 0
    requires forall i :: 0 <= i < |xs| ==> xs[i] == a
    ensures Summarize(xs) == Statistics(n as real * a, a, a, a, n)
  {
    SumUniform(xs, a);
    DivideProduct(n as real, a);
  }

  /** n·a / n is a for a positive n. */
  lemma DivideProduct(n: real, a: real)
    requires n > 0.0
    ensures n * a / n == a
  {
  }
}
