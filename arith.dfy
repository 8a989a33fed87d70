/** The arithmetic reductions a cage applies to a tuple of cell values:
    the sum and product (add and multiply cages) and the left-to-right
    folds of subtraction and division (subtract and divide cages, applied
    to one ordering of the values). Integers are unbounded as in Python;
    division is exact (Dafny's real is the field of rationals). */
module Arith {
  import opened Tuples

  function Sum(s: seq<int>): int
  {
    if s == [] then 0 else Sum(s[..|s| - 1]) + s[|s| - 1]
  }

  function Prod(s: seq<int>): int
  {
    if s == [] then 1 else Prod(s[..|s| - 1]) * s[|s| - 1]
  }

  /** p[0] - p[1] - ... - p[k-1], reduced left to right. */
  function Difference(p: seq<int>): int
    requires |p| >= 1
  {
    if |p| == 1 then p[0] else Difference(p[..|p| - 1]) - p[|p| - 1]
  }

  /** Every value after the first (every divisor) is non-zero. */
  predicate NonzeroDivisors(p: seq<int>)
  {
    forall k :: 1 <= k < |p| ==> p[k] != 0
  }

  /** p[0] / p[1] / ... / p[k-1], reduced left to right in exact arithmetic. */
  function Quotient(p: seq<int>): real
    requires |p| >= 1 && NonzeroDivisors(p)
  {
    if |p| == 1 then p[0] as real else Quotient(p[..|p| - 1]) / (p[|p| - 1] as real)
  }

  lemma SumSingleton(x: int)
    ensures Sum([x]) == x
  {
    assert [x][..0] == [];
  }

  lemma ProdSingleton(x: int)
    ensures Prod([x]) == x
  {
    assert [x][..0] == [];
  }

  lemma {:induction false} SumConcat(a: seq<int>, b: seq<int>)
    ensures Sum(a + b) == Sum(a) + Sum(b)
    decreases |b|
  {
    if b != [] {
      assert (a + b)[..|a + b| - 1] == a + b[..|b| - 1];
      SumConcat(a, b[..|b| - 1]);
    } else {
      assert a + b == a;
    }
  }

  lemma {:induction false} ProdConcat(a: seq<int>, b: seq<int>)
    ensures Prod(a + b) == Prod(a) * Prod(b)
    decreases |b|
  {
    if b != [] {
      assert (a + b)[..|a + b| - 1] == a + b[..|b| - 1];
      ProdConcat(a, b[..|b| - 1]);
      var pa, pb, z := Prod(a), Prod(b[..|b| - 1]), b[|b| - 1];
      assert (pa * pb) * z == pa * (pb * z);
    } else {
      assert a + b == a;
    }
  }

  /** The sum of a tuple does not depend on the order of its values. */
  lemma {:induction false} SumOrderFree(p: seq<int>, q: seq<int>)
    requires multiset(p) == multiset(q)
    ensures Sum(p) == Sum(q)
    decreases |p|
  {
    assert |p| == |multiset(p)| == |q|;
    if p != [] {
      var x := p[|p| - 1];
      assert x in multiset(q);
      var j :| 0 <= j < |q| && q[j] == x;
      RemoveMatchingLast(p, q, j);
      SumOrderFree(p[..|p| - 1], RemoveAt(q, j));
      SplitAt(q, j);
      SumConcat(q[..j] + [x], q[j + 1..]);
      SumConcat(q[..j], [x]);
      SumConcat(q[..j], q[j + 1..]);
      SumSingleton(x);
    }
  }

  lemma ProdRemoveAt(q: seq<int>, j: int)
    requires 0 <= j < |q|
    ensures Prod(q) == Prod(RemoveAt(q, j)) * q[j]
  {
    var a, x, b := q[..j], q[j], q[j + 1..];
    SplitAt(q, j);
    ProdConcat(a + [x], b);
    ProdConcat(a, [x]);
    ProdConcat(a, b);
    ProdSingleton(x);
    ProdRemoveStep(Prod(q), Prod(RemoveAt(q, j)), Prod(a), x, Prod(b), Prod(a + [x]));
  }

  lemma ProdRemoveStep(whole: int, rest: int, pa: int, x: int, pb: int, pax: int)
    requires pax == pa * x && whole == pax * pb && rest == pa * pb
    ensures whole == rest * x
  {
    SwapLastTwo(pa, x, pb);
  }

  lemma SwapLastTwo(a: int, b: int, c: int)
    ensures (a * b) * c == (a * c) * b
  {
  }

  /** The product of a tuple does not depend on the order of its values. */
  lemma {:induction false} ProdOrderFree(p: seq<int>, q: seq<int>)
    requires multiset(p) == multiset(q)
    ensures Prod(p) == Prod(q)
    decreases |p|
  {
    assert |p| == |multiset(p)| == |q|;
    if p != [] {
      var x := p[|p| - 1];
      assert x in multiset(q);
      var j :| 0 <= j < |q| && q[j] == x;
      RemoveMatchingLast(p, q, j);
      ProdOrderFree(p[..|p| - 1], RemoveAt(q, j));
      ProdRemoveAt(q, j);
    }
  }

  /** Subtracting the rest one by one is subtracting their sum. */
  lemma {:induction false} DifferenceIsHeadMinusRest(p: seq<int>)
    requires |p| >= 1
    ensures Difference(p) == p[0] - Sum(p[1..])
    decreases |p|
  {
    if |p| > 1 {
      var init := p[..|p| - 1];
      DifferenceIsHeadMinusRest(init);
      TailOfPrefix(p);
      SumConcat(init[1..], [p[|p| - 1]]);
      SumSingleton(p[|p| - 1]);
    } else {
      assert p[1..] == [];
    }
  }

  /** Multiplying the left-to-right quotient back by every divisor gives the
      first value back; the divisors' product is non-zero. */
  lemma {:induction false} QuotientTimesDivisors(p: seq<int>)
    requires |p| >= 1 && NonzeroDivisors(p)
    ensures Prod(p[1..]) != 0
    ensures Quotient(p) * (Prod(p[1..]) as real) == p[0] as real
    decreases |p|
  {
    if |p| > 1 {
      var init, z := p[..|p| - 1], p[|p| - 1];
      QuotientTimesDivisors(init);
      TailOfPrefix(p);
      ProdConcat(init[1..], [z]);
      ProdSingleton(z);
      assert init[0] == p[0];
      QuotientStep(Quotient(init), Prod(init[1..]), z, p[0], Quotient(p), Prod(p[1..]));
    } else {
      assert p[1..] == [];
    }
  }

  lemma QuotientStep(q: real, d: int, z: int, first: int, next: real, whole: int)
    requires d != 0 && z != 0 && q * (d as real) == first as real
    requires next == q / (z as real) && whole == d * z
    ensures whole != 0 && next * (whole as real) == first as real
  {
    RealOfProduct(d, z);
    assert (q / (z as real)) * (z as real) == q;
  }

  lemma RealOfProduct(a: int, b: int)
    ensures (a * b) as real == (a as real) * (b as real)
  {
  }

  lemma CancelNonzero(x: real, y: real, d: real)
    requires d != 0.0 && x * d == y * d
    ensures x == y
  {
    assert (x - y) * d == 0.0;
  }

  lemma QuotientCriterion(q: real, first: int, divisors: int, target: int)
    requires divisors != 0 && q * (divisors as real) == first as real
    ensures q == target as real <==> first == target * divisors
  {
    var d := divisors as real;
    RealOfProduct(target, divisors);
    if first == target * divisors {
      CancelNonzero(q, target as real, d);
    }
  }

  lemma QuotientCriterionAt(p: seq<int>, target: int, q: real, divisors: int)
    requires |p| >= 1 && NonzeroDivisors(p)
    requires q == Quotient(p) && divisors == Prod(p[1..])
    ensures q == target as real <==> p[0] == target * divisors
  {
    QuotientTimesDivisors(p);
    QuotientCriterion(q, p[0], divisors, target);
  }

  /** The exact left-to-right quotient equals the target exactly when the
      first value equals the target times the product of the divisors. */
  lemma QuotientMatches(p: seq<int>, target: int)
    requires |p| >= 1 && NonzeroDivisors(p)
    ensures Quotient(p) == target as real <==> p[0] == target * Prod(p[1..])
  {
    QuotientCriterionAt(p, target, Quotient(p), Prod(p[1..]));
  }
}
