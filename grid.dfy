/** Flat addressing of a grid of S sizes by I iterations stored size-major:
    the entries for size index `s` occupy the half-open range
    [RangeStart(s, I), RangeEnd(s, I)) and iteration `it` of that size sits at
    FlatIndex(s, it, I). Indices are `std::size_t` in the program; the model
    uses natural numbers and does not model overflow of the products. */
module Grid {

  function RangeStart(s: nat, iterations: nat): nat
  {
    s * iterations
  }

  function RangeEnd(s: nat, iterations: nat): nat
  {
    (s + 1) * iterations
  }

  function FlatIndex(s: nat, it: nat, iterations: nat): nat
  {
    s * iterations + it
  }

  /// Each range holds exactly `iterations` positions.
  lemma RangeLength(s: nat, iterations: nat)
    ensures RangeEnd(s, iterations) == RangeStart(s, iterations) + iterations
  {
  }

  /// The range of an in-grid size index lies inside [0, S*I).
  lemma {:induction false} RangeWithinGrid(s: nat, sizes: nat, iterations: nat)
    requires s < sizes
    ensures RangeEnd(s, iterations) <= sizes * iterations
  {
    MulMonotone(s + 1, sizes, iterations);
  }

  /// Ranges of distinct size indices do not overlap: a lower index ends
  /// no later than a higher one starts.
  lemma {:induction false} RangesDisjoint(i: nat, j: nat, iterations: nat)
    requires i < j
    ensures RangeEnd(i, iterations) <= RangeStart(j, iterations)
  {
    MulMonotone(i + 1, j, iterations);
  }

  /// Every flat position of the grid falls in the range of exactly one size
  /// index, the quotient of the position by the iteration count.
  lemma {:induction false} RangesCover(p: nat, sizes: nat, iterations: nat)
    requires p < sizes * iterations
    ensures iterations > 0 && p / iterations < sizes
    ensures RangeStart(p / iterations, iterations) <= p < RangeEnd(p / iterations, iterations)
    ensures forall s: nat :: RangeStart(s, iterations) <= p < RangeEnd(s, iterations) ==> s == p / iterations
  {
    if iterations == 0 {
      assert false;
    }
    var q := p / iterations;
    assert q * iterations <= p < (q + 1) * iterations;
    if q >= sizes {
      MulMonotone(sizes, q, iterations);
      assert false;
    }
    forall s: nat | RangeStart(s, iterations) <= p < RangeEnd(s, iterations)
      ensures s == q
    {
      if s < q {
        RangesDisjoint(s, q, iterations);
      } else if q < s {
        RangesDisjoint(q, s, iterations);
      }
    }
  }

  /// An in-grid address lies inside the range of its size index, and hence
  /// inside the grid.
  lemma {:induction false} FlatIndexInRange(s: nat, it: nat, sizes: nat, iterations: nat)
    requires s < sizes && it < iterations
    ensures RangeStart(s, iterations) <= FlatIndex(s, it, iterations) < RangeEnd(s, iterations)
    ensures FlatIndex(s, it, iterations) < sizes * iterations
  {
    RangeWithinGrid(s, sizes, iterations);
  }

  /// In-grid addresses are one-to-one with flat positions: distinct
  /// coordinates give distinct positions ...
  lemma {:induction false} FlatIndexInjective(s1: nat, it1: nat, s2: nat, it2: nat, iterations: nat)
    requires it1 < iterations && it2 < iterations
    requires FlatIndex(s1, it1, iterations) == FlatIndex(s2, it2, iterations)
    ensures s1 == s2 && it1 == it2
  {
    if s1 < s2 {
      RangesDisjoint(s1, s2, iterations);
      assert false;
    } else if s2 < s1 {
      RangesDisjoint(s2, s1, iterations);
      assert false;
    }
  }

  /// ... and every position of the grid is the address of some coordinates.
  lemma {:induction false} FlatIndexSurjective(p: nat, sizes: nat, iterations: nat)
    requires p < sizes * iterations
    ensures iterations > 0
    ensures p / iterations < sizes && p % iterations < iterations
    ensures FlatIndex(p / iterations, p % iterations, iterations) == p
  {
    RangesCover(p, sizes, iterations);
  }

  lemma {:induction false} MulMonotone(a: nat, b: nat, c: nat)
    requires a <= b
    ensures a * c <= b * c
  {
    if a < b {
      MulMonotone(a, b - 1, c);
      assert (b - 1) * c + c == b * c;
    }
  }
}
