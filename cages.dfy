/** The n-ary constraint of an arithmetic cage. Its satisfying tuples are
    enumerated from the Cartesian product of the cage cells' domains, in
    the cells' declared order. An add or multiply cage keeps a tuple once
    when its sum or product is the target. A subtract or divide cage tries
    every ordering of the tuple's values, reduced left to right, and keeps
    the tuple once per ordering that gives the target. Any other operator
    code keeps nothing. */
module Cages {
  import opened Tuples
  import opened Arith

  /** The operator codes of a cage descriptor. */
  const Add := 0
  const Subtract := 1
  const Divide := 2
  const Multiply := 3

  /** The ordering p of a subtract or divide cage's values, reduced left to
      right, gives the target. The exact division test
      p[0] / p[1] / ... / p[k-1] == target is written in its equivalent
      integer form (see QuotientMatches). */
  predicate OrderingMatches(p: seq<int>, target: int, op: int)
  {
    |p| >= 1 && if op == Subtract then Difference(p) == target else p[0] == target * Prod(p[1..])
  }

  /** How many of the orderings ps match. */
  function CountMatching(ps: seq<seq<int>>, target: int, op: int): nat
  {
    if ps == [] then 0
    else CountMatching(ps[..|ps| - 1], target, op) + if OrderingMatches(ps[|ps| - 1], target, op) then 1 else 0
  }

  /** How many times the builder appends the product tuple t. */
  function Kept(t: seq<int>, target: int, op: int): nat
  {
    if op == Add then (if Sum(t) == target then 1 else 0)
    else if op == Subtract || op == Divide then CountMatching(Perms(t), target, op)
    else if op == Multiply then (if Prod(t) == target then 1 else 0)
    else 0
  }

  /** k copies of t. */
  function Copies(t: seq<int>, k: nat): seq<seq<int>>
  {
    if k == 0 then [] else Copies(t, k - 1) + [t]
  }

  /** The satisfying-tuple list built from the product tuples ts, in order. */
  function Collect(ts: seq<seq<int>>, target: int, op: int): seq<seq<int>>
  {
    if ts == [] then [] else Collect(ts[..|ts| - 1], target, op) + Copies(ts[|ts| - 1], Kept(ts[|ts| - 1], target, op))
  }

  /** The satisfying tuples of a cage whose cells have domains doms. */
  function CageSat(doms: seq<seq<int>>, target: int, op: int): seq<seq<int>>
  {
    Collect(Product(doms), target, op)
  }

  /** The cage rule stated independently of the enumeration: the sum or the
      product is the target, or some rearrangement of the values, reduced
      left to right, is. */
  ghost predicate Accepts(t: seq<int>, target: int, op: int)
  {
    if op == Add then Sum(t) == target
    else if op == Multiply then Prod(t) == target
    else if op == Subtract || op == Divide then
      exists p :: multiset(p) == multiset(t) && OrderingMatches(p, target, op)
    else false
  }

  // ---------------------------------------------------------------------
  // Properties of the satisfying tuples

  lemma {:induction false} CountMatchingPositive(ps: seq<seq<int>>, target: int, op: int)
    ensures CountMatching(ps, target, op) > 0 <==> exists p :: p in ps && OrderingMatches(p, target, op)
    decreases |ps|
  {
    if ps != [] {
      var init, last := ps[..|ps| - 1], ps[|ps| - 1];
      CountMatchingPositive(init, target, op);
      assert ps == init + [last];
      if exists p :: p in ps && OrderingMatches(p, target, op) {
        var p :| p in ps && OrderingMatches(p, target, op);
        assert p in init || p == last;
      }
    }
  }

  /** A tuple is appended at least once exactly when the cage rule accepts it. */
  lemma KeptMeansAccepted(t: seq<int>, target: int, op: int)
    ensures Kept(t, target, op) > 0 <==> Accepts(t, target, op)
  {
    if op == Subtract || op == Divide {
      CountMatchingPositive(Perms(t), target, op);
      if Kept(t, target, op) > 0 {
        var p :| p in Perms(t) && OrderingMatches(p, target, op);
        PermsMember(t, p);
      }
      if Accepts(t, target, op) {
        var p :| multiset(p) == multiset(t) && OrderingMatches(p, target, op);
        PermsMember(t, p);
      }
    }
  }

  lemma {:induction false} CopiesCount(t: seq<int>, k: nat, x: seq<int>)
    ensures multiset(Copies(t, k))[x] == if x == t then k else 0
    decreases k
  {
    if k > 0 {
      CopiesCount(t, k - 1, x);
    }
  }

  lemma {:induction false} CollectCount(ts: seq<seq<int>>, target: int, op: int, x: seq<int>)
    ensures multiset(Collect(ts, target, op))[x] == multiset(ts)[x] * Kept(x, target, op)
    decreases |ts|
  {
    if ts != [] {
      var init, last := ts[..|ts| - 1], ts[|ts| - 1];
      var copies := Copies(last, Kept(last, target, op));
      assert Collect(ts, target, op) == Collect(init, target, op) + copies;
      CollectCount(init, target, op, x);
      CopiesCount(last, Kept(last, target, op), x);
      SplitLast(ts);
      var c, k := multiset(init)[x], Kept(x, target, op);
      assert multiset(Collect(ts, target, op))[x] == c * k + multiset(copies)[x];
      assert multiset(ts)[x] == c + if x == last then 1 else 0;
      CollectStep(multiset(Collect(ts, target, op))[x], c, k, x == last, multiset(copies)[x], multiset(ts)[x]);
    }
  }

  lemma CollectStep(total: int, c: int, k: int, isLast: bool, copies: int, m: int)
    requires total == c * k + copies
    requires copies == if isLast then k else 0
    requires m == c + if isLast then 1 else 0
    ensures total == m * k
  {
    if isLast {
      MulDistributes(c, 1, k);
    }
  }

  /** Each tuple occurs in a cage's list as often as it can be drawn from
      the domains, times the number of times the cage rule appends it. */
  lemma CageSatCount(doms: seq<seq<int>>, target: int, op: int, t: seq<int>)
    ensures multiset(CageSat(doms, target, op))[t] == Multiplicity(doms, t) * Kept(t, target, op)
  {
    CollectCount(Product(doms), target, op, t);
    ProductCount(doms, t);
  }

  /** A tuple is satisfying exactly when its t-th component is drawn from
      the t-th cell's domain and the cage rule accepts it. */
  lemma CageSatMember(doms: seq<seq<int>>, target: int, op: int, t: seq<int>)
    ensures t in CageSat(doms, target, op) <==> InProduct(doms, t) && Accepts(t, target, op)
  {
    CageSatCount(doms, target, op, t);
    MultiplicityPositive(doms, t);
    KeptMeansAccepted(t, target, op);
    var a, b := Multiplicity(doms, t), Kept(t, target, op);
    assert a * b > 0 <==> a > 0 && b > 0;
  }

  /** Over domains without repeated values (all domains of the model), a
      subtract or divide tuple occurs once per matching ordering, and an
      add or multiply tuple at most once. */
  lemma CageSatOverDistinctDomains(doms: seq<seq<int>>, target: int, op: int, t: seq<int>)
    requires forall i :: 0 <= i < |doms| ==> Distinct(doms[i])
    ensures multiset(CageSat(doms, target, op))[t] == if InProduct(doms, t) then Kept(t, target, op) else 0
    ensures (op == Subtract || op == Divide) && InProduct(doms, t) ==>
      multiset(CageSat(doms, target, op))[t] == CountMatching(Perms(t), target, op)
    ensures op != Subtract && op != Divide ==> multiset(CageSat(doms, target, op))[t] <= 1
  {
    CageSatCount(doms, target, op, t);
    ProductCountDistinct(doms, t);
    ProductCount(doms, t);
    ScaleByIndicator(multiset(CageSat(doms, target, op))[t], Multiplicity(doms, t), Kept(t, target, op), InProduct(doms, t));
    KeptByOperator(t, target, op);
  }

  lemma ScaleByIndicator(c: int, m: int, k: int, b: bool)
    requires c == m * k && m == if b then 1 else 0
    ensures c == if b then k else 0
  {
  }

  /** A subtract or divide cage appends a product tuple once per matching
      ordering; an add or multiply cage at most once. */
  lemma KeptByOperator(t: seq<int>, target: int, op: int)
    ensures op == Subtract || op == Divide ==> Kept(t, target, op) == CountMatching(Perms(t), target, op)
    ensures op != Subtract && op != Divide ==> Kept(t, target, op) <= 1
  {
  }

  /** An operator code outside 0..3 yields a cage constraint with no tuples. */
  lemma UnknownOperatorKeepsNothing(doms: seq<seq<int>>, target: int, op: int)
    requires op !in {Add, Subtract, Divide, Multiply}
    ensures CageSat(doms, target, op) == []
  {
    var s := CageSat(doms, target, op);
    forall x ensures multiset(s)[x] == 0 {
      CageSatCount(doms, target, op, x);
    }
    assert multiset(s) == multiset{};
    assert |s| == |multiset(s)| == 0;
  }

  /** Reducing p by subtraction leaves twice its first value minus its sum. */
  lemma DifferenceAsSum(p: seq<int>)
    requires |p| >= 1
    ensures Difference(p) == 2 * p[0] - Sum(p)
  {
    DifferenceIsHeadMinusRest(p);
    SplitFirst(p);
    SumConcat([p[0]], p[1..]);
    SumSingleton(p[0]);
  }

  /** Subtract cages in closed form: some ordering reduces to the target
      exactly when some value x of the tuple has x - (sum of the others) == target. */
  lemma SubtractClosedForm(t: seq<int>, target: int)
    requires |t| >= 1
    ensures Accepts(t, target, Subtract) <==> exists i :: 0 <= i < |t| && 2 * t[i] - Sum(t) == target
  {
    if Accepts(t, target, Subtract) {
      var p :| multiset(p) == multiset(t) && OrderingMatches(p, target, Subtract);
      DifferenceAsSum(p);
      SumOrderFree(p, t);
      assert p[0] in multiset(t);
      var i :| 0 <= i < |t| && t[i] == p[0];
      assert 2 * t[i] - Sum(t) == target;
    }
    if exists i :: 0 <= i < |t| && 2 * t[i] - Sum(t) == target {
      var i :| 0 <= i < |t| && 2 * t[i] - Sum(t) == target;
      var p := [t[i]] + RemoveAt(t, i);
      RemoveAtMultiset(t, i);
      assert multiset(p) == multiset(t);
      DifferenceAsSum(p);
      SumOrderFree(p, t);
      assert OrderingMatches(p, target, Subtract);
    }
  }

  lemma ProdOfHeadAndRest(p: seq<int>)
    requires |p| >= 1
    ensures Prod(p) == p[0] * Prod(p[1..])
  {
    SplitFirst(p);
    ProdConcat([p[0]], p[1..]);
    ProdSingleton(p[0]);
  }

  lemma HeadCriterion(x: int, rest: int, whole: int, target: int)
    requires x != 0 && whole == x * rest
    ensures x == target * rest <==> x * x == target * whole
  {
    assert target * whole == x * (target * rest);
    if x * x == x * (target * rest) {
      assert x * (x - target * rest) == 0;
    }
  }

  /** Divide cages in closed form: some ordering divides down to the target
      exactly when some value x of the tuple has x * x == target * (product of all). */
  lemma DivideClosedForm(t: seq<int>, target: int)
    requires |t| >= 1 && forall i :: 0 <= i < |t| ==> t[i] != 0
    ensures Accepts(t, target, Divide) <==> exists i :: 0 <= i < |t| && t[i] * t[i] == target * Prod(t)
  {
    if Accepts(t, target, Divide) {
      var p :| multiset(p) == multiset(t) && OrderingMatches(p, target, Divide);
      ProdOrderFree(p, t);
      ProdOfHeadAndRest(p);
      assert p[0] in multiset(t);
      var i :| 0 <= i < |t| && t[i] == p[0];
      HeadCriterion(p[0], Prod(p[1..]), Prod(t), target);
    }
    if exists i :: 0 <= i < |t| && t[i] * t[i] == target * Prod(t) {
      var i :| 0 <= i < |t| && t[i] * t[i] == target * Prod(t);
      var p := [t[i]] + RemoveAt(t, i);
      RemoveAtMultiset(t, i);
      assert multiset(p) == multiset(t);
      ProdOrderFree(p, t);
      ProdOfHeadAndRest(p);
      assert p[1..] == RemoveAt(t, i);
      HeadCriterion(p[0], Prod(p[1..]), Prod(t), target);
      assert OrderingMatches(p, target, Divide);
    }
  }

  // ---------------------------------------------------------------------
  // The loops that build a cage's tuple list

  /** total = 0; for num in t: total += num */
  method SumOf(t: seq<int>) returns (total: int)
    ensures total == Sum(t)
  {
    total := 0;
    for n := 0 to |t|
      invariant total == Sum(t[..n])
    {
      assert t[..n + 1][..n] == t[..n];
      total := total + t[n];
    }
    assert t[..|t|] == t;
  }

  /** total = 1; for num in t: total *= num */
  method ProductOf(t: seq<int>) returns (total: int)
    ensures total == Prod(t)
  {
    total := 1;
    for n := 0 to |t|
      invariant total == Prod(t[..n])
    {
      assert t[..n + 1][..n] == t[..n];
      total := total * t[n];
    }
    assert t[..|t|] == t;
  }

  /** res = num[0]; for n in 1..: res -= num[n] */
  method DifferenceOf(num: seq<int>) returns (res: int)
    requires |num| >= 1
    ensures res == Difference(num)
  {
    res := num[0];
    for n := 1 to |num|
      invariant res == Difference(num[..n])
    {
      assert num[..n + 1][..n] == num[..n];
      res := res - num[n];
    }
    assert num[..|num|] == num;
  }

  /** res = num[0]; for n in 1..: res /= num[n], in exact arithmetic. */
  method QuotientOf(num: seq<int>) returns (res: real)
    requires |num| >= 1 && NonzeroDivisors(num)
    ensures res == Quotient(num)
  {
    res := num[0] as real;
    for n := 1 to |num|
      invariant res == Quotient(num[..n])
    {
      assert num[..n + 1][..n] == num[..n];
      res := res / (num[n] as real);
    }
    assert num[..|num|] == num;
  }

  lemma OrderingOfProductTuple(doms: seq<seq<int>>, t: seq<int>, num: seq<int>)
    requires t in Product(doms) && num in Perms(t)
    ensures |num| == |t| == |doms|
    ensures forall k :: 0 <= k < |num| ==> exists i :: 0 <= i < |doms| && num[k] in doms[i]
  {
    ProductMember(doms, t);
    PermsMember(t, num);
    assert |num| == |multiset(num)| == |t|;
    forall k | 0 <= k < |num| ensures exists i :: 0 <= i < |doms| && num[k] in doms[i] {
      assert num[k] in multiset(t);
      var i :| 0 <= i < |t| && t[i] == num[k];
      assert num[k] in doms[i];
    }
  }

  /** The division test of one ordering: the exact left-to-right quotient
      is compared with the target. */
  method DivisionMatches(num: seq<int>, target: int) returns (matched: bool)
    requires |num| >= 1 && NonzeroDivisors(num)
    ensures matched <==> OrderingMatches(num, target, Divide)
  {
    var res := QuotientOf(num);
    QuotientCriterionAt(num, target, res, Prod(num[1..]));
    matched := res == target as real;
  }

  /** The loop over itertools.permutations(t) of a subtract or divide
      cage: t is appended once per ordering that reduces to the target. */
  method AppendPerOrdering(doms: seq<seq<int>>, t: seq<int>, target: int, op: int, sat: seq<seq<int>>)
    returns (sat': seq<seq<int>>)
    requires t in Product(doms) && |doms| >= 1
    requires op == Subtract || op == Divide
    requires op == Divide && |doms| >= 2 ==> forall i, x :: 0 <= i < |doms| && x in doms[i] ==> x != 0
    ensures sat' == sat + Copies(t, Kept(t, target, op))
  {
    sat' := sat;
    var perms := Perms(t);
    for k := 0 to |perms|
      invariant sat' == sat + Copies(t, CountMatching(perms[..k], target, op))
    {
      var num := perms[k];
      TakeOneMore(perms, k);
      OrderingOfProductTuple(doms, t, num);
      var matched: bool;
      if op == Subtract {
        var res := DifferenceOf(num);
        matched := res == target;
      } else {
        matched := DivisionMatches(num, target);
      }
      if matched {
        sat' := sat' + [t];
      }
    }
    assert perms[..|perms|] == perms;
  }

  /** The satisfying tuples of one cage, as built by the loop over
      itertools.product of the cells' domains. */
  method CageTuples(doms: seq<seq<int>>, target: int, op: int) returns (sat: seq<seq<int>>)
    requires (op == Subtract || op == Divide) ==> |doms| >= 1
    requires op == Divide && |doms| >= 2 ==> forall i, x :: 0 <= i < |doms| && x in doms[i] ==> x != 0
    ensures sat == CageSat(doms, target, op)
  {
    sat := [];
    var tuples := Product(doms);
    for m := 0 to |tuples|
      invariant sat == Collect(tuples[..m], target, op)
    {
      var t := tuples[m];
      TakeOneMore(tuples, m);
      assert Collect(tuples[..m + 1], target, op) == sat + Copies(t, Kept(t, target, op));
      if op == Add {
        var total := SumOf(t);
        if total == target {
          sat := sat + [t];
        }
      } else if op == Subtract || op == Divide {
        sat := AppendPerOrdering(doms, t, target, op, sat);
      } else if op == Multiply {
        var total := ProductOf(t);
        if total == target {
          sat := sat + [t];
        }
      }
    }
    assert tuples[..|tuples|] == tuples;
  }
}
