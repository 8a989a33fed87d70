/** The two tuple enumerations the model builder takes from Python's
    itertools: the Cartesian product of a list of domains
    (itertools.product) and the positional permutations of a tuple
    (itertools.permutations). Both are given in itertools' own order;
    the lemmas describe them by multiplicity, which is what the builder
    relies on. */
module Tuples {

  /** No value occurs twice. */
  predicate Distinct<T(==)>(s: seq<T>)
  {
    forall i, j :: 0 <= i < j < |s| ==> s[i] != s[j]
  }

  /** A non-empty sequence is its prefix followed by its last element. */
  lemma SplitLast<T>(s: seq<T>)
    requires s != []
    ensures s == s[..|s| - 1] + [s[|s| - 1]]
  {
  }

  /** A non-empty sequence is its first element followed by the rest. */
  lemma SplitFirst<T>(s: seq<T>)
    requires s != []
    ensures s == [s[0]] + s[1..]
  {
  }

  /** Dropping the first and then splitting off the last element. */
  lemma TailOfPrefix<T>(s: seq<T>)
    requires |s| > 1
    ensures s[..|s| - 1][1..] + [s[|s| - 1]] == s[1..]
  {
  }

  /** A sequence is the part before position j, the element at j and the
      part after it. */
  lemma SplitAt<T>(s: seq<T>, j: int)
    requires 0 <= j < |s|
    ensures s == s[..j] + [s[j]] + s[j + 1..]
  {
  }

  lemma ConcatAssoc<T>(a: seq<T>, b: seq<T>, c: seq<T>, d: seq<T>)
    ensures a + b + c + d == a + (b + c + d)
  {
  }

  lemma MultisetOfFirst<T>(s: seq<T>)
    requires s != []
    ensures multiset(s) == multiset{s[0]} + multiset(s[1..])
  {
    assert s == [s[0]] + s[1..];
  }

  /** Extending a prefix by one element. */
  lemma TakeOneMore<T>(s: seq<T>, m: int)
    requires 0 <= m < |s|
    ensures s[..m + 1] == s[..m] + [s[m]]
  {
  }

  /** How many times x occurs in s. */
  function Occurrences<T(==)>(s: seq<T>, x: T): nat
  {
    if s == [] then 0 else (if s[0] == x then 1 else 0) + Occurrences(s[1..], x)
  }

  /** [x] + r for every r of rs, in the order of rs. */
  function Prepend(x: int, rs: seq<seq<int>>): (r: seq<seq<int>>)
    ensures |r| == |rs|
  {
    if rs == [] then [] else [[x] + rs[0]] + Prepend(x, rs[1..])
  }

  /** For each x of xs in turn, x prepended to every tuple of rs. */
  function Extend(xs: seq<int>, rs: seq<seq<int>>): seq<seq<int>>
  {
    if xs == [] then [] else Prepend(xs[0], rs) + Extend(xs[1..], rs)
  }

  /** itertools.product(*doms): every tuple whose i-th component is drawn
      from doms[i], the first component varying slowest. */
  function Product(doms: seq<seq<int>>): seq<seq<int>>
  {
    if doms == [] then [[]] else Extend(doms[0], Product(doms[1..]))
  }

  /** t could have been drawn from doms, component by component. */
  ghost predicate InProduct(doms: seq<seq<int>>, t: seq<int>)
  {
    |t| == |doms| && forall i :: 0 <= i < |t| ==> t[i] in doms[i]
  }

  /** How many ways t can be drawn from doms: the product over the
      components of the number of times t[i] occurs in doms[i]. */
  ghost function Multiplicity(doms: seq<seq<int>>, t: seq<int>): nat
  {
    if |t| != |doms| then 0
    else if doms == [] then 1
    else multiset(doms[0])[t[0]] * Multiplicity(doms[1..], t[1..])
  }

  /** t with its i-th component taken out. */
  function RemoveAt(t: seq<int>, i: int): (r: seq<int>)
    requires 0 <= i < |t|
    ensures |r| == |t| - 1
  {
    t[..i] + t[i + 1..]
  }

  /** itertools.permutations(t): every arrangement of the positions of t,
      in lexicographic order of positions. Equal values at different
      positions give equal arrangements, which are all listed. */
  function Perms(t: seq<int>): seq<seq<int>>
    decreases |t|, 1, 0
  {
    if t == [] then [[]] else PermsFrom(t, 0)
  }

  /** The arrangements of t whose first element comes from position i or later. */
  function PermsFrom(t: seq<int>, i: nat): seq<seq<int>>
    requires i <= |t|
    decreases |t|, 0, |t| - i
  {
    if i == |t| then [] else Prepend(t[i], Perms(RemoveAt(t, i))) + PermsFrom(t, i + 1)
  }

  function Factorial(n: nat): nat
  {
    if n == 0 then 1 else n * Factorial(n - 1)
  }

  // ---------------------------------------------------------------------
  // Product

  lemma {:induction false} PrependCount(x: int, rs: seq<seq<int>>, t: seq<int>)
    ensures multiset(Prepend(x, rs))[t] == if |t| > 0 && t[0] == x then multiset(rs)[t[1..]] else 0
    decreases |rs|
  {
    if rs != [] {
      PrependCount(x, rs[1..], t);
      SplitFirst(rs);
      if |t| > 0 && t[0] == x {
        SplitFirst(t);
        assert (t == [x] + rs[0]) == (t[1..] == rs[0]);
      } else {
        assert t != [x] + rs[0];
      }
    }
  }

  lemma {:induction false} ExtendCount(xs: seq<int>, rs: seq<seq<int>>, t: seq<int>)
    ensures multiset(Extend(xs, rs))[t] == if |t| > 0 then multiset(xs)[t[0]] * multiset(rs)[t[1..]] else 0
    decreases |xs|
  {
    if xs != [] {
      var x, rest := xs[0], xs[1..];
      ExtendCount(rest, rs, t);
      PrependCount(x, rs, t);
      var head, tail := Prepend(x, rs), Extend(rest, rs);
      assert Extend(xs, rs) == head + tail;
      assert multiset(Extend(xs, rs))[t] == multiset(head)[t] + multiset(tail)[t];
      if |t| > 0 {
        MultisetOfFirst(xs);
        var c, k, m := if x == t[0] then 1 else 0, multiset(rest)[t[0]], multiset(rs)[t[1..]];
        assert multiset(xs)[t[0]] == c + k;
        ExtendStep(multiset(Extend(xs, rs))[t], multiset(head)[t], multiset(tail)[t], c, k, m);
      }
    }
  }

  lemma MulDistributes(a: int, b: int, c: int)
    ensures (a + b) * c == a * c + b * c
  {
  }

  lemma ExtendStep(total: int, p: int, e: int, c: int, k: int, m: int)
    requires total == p + e && p == (if c == 1 then m else 0) && c in {0, 1} && e == k * m
    ensures total == (c + k) * m
  {
  }

  /** itertools.product lists each tuple exactly as often as it can be drawn. */
  lemma {:induction false} ProductCount(doms: seq<seq<int>>, t: seq<int>)
    ensures multiset(Product(doms))[t] == Multiplicity(doms, t)
    decreases |doms|
  {
    if doms == [] {
      assert |t| > 0 ==> t != [];
    } else {
      var rest := Product(doms[1..]);
      assert Product(doms) == Extend(doms[0], rest);
      ExtendCount(doms[0], rest, t);
      if |t| > 0 {
        ProductCount(doms[1..], t[1..]);
        var a, b := multiset(doms[0])[t[0]], Multiplicity(doms[1..], t[1..]);
        assert multiset(Product(doms))[t] == a * b;
        if |t| != |doms| {
          assert b == 0;
        }
      }
    }
  }

  lemma {:induction false} MultiplicityPositive(doms: seq<seq<int>>, t: seq<int>)
    ensures Multiplicity(doms, t) > 0 <==> InProduct(doms, t)
    decreases |doms|
  {
    if |t| == |doms| && doms != [] {
      MultiplicityPositive(doms[1..], t[1..]);
      var a, b := multiset(doms[0])[t[0]], Multiplicity(doms[1..], t[1..]);
      assert a * b > 0 <==> a > 0 && b > 0;
      if InProduct(doms[1..], t[1..]) && t[0] in doms[0] {
        forall i | 0 <= i < |t| ensures t[i] in doms[i] {
          if i > 0 { assert t[1..][i - 1] == t[i]; }
        }
      }
      if InProduct(doms, t) {
        forall i | 0 <= i < |t| - 1 ensures t[1..][i] in doms[1..][i] {
          assert t[i + 1] in doms[i + 1];
        }
      }
    }
  }

  /** A tuple is produced by itertools.product exactly when each component
      is drawn from the domain at its position. */
  lemma ProductMember(doms: seq<seq<int>>, t: seq<int>)
    ensures t in Product(doms) <==> InProduct(doms, t)
  {
    ProductCount(doms, t);
    MultiplicityPositive(doms, t);
  }

  /** Every produced tuple has one component per domain. */
  lemma ProductLengths(doms: seq<seq<int>>)
    ensures forall t :: t in Product(doms) ==> |t| == |doms|
  {
    forall t | t in Product(doms) ensures |t| == |doms| {
      ProductMember(doms, t);
    }
  }

  lemma {:induction false} DistinctCount<T>(s: seq<T>, x: T)
    requires Distinct(s)
    ensures multiset(s)[x] == if x in s then 1 else 0
    decreases |s|
  {
    if s != [] {
      assert s == [s[0]] + s[1..];
      DistinctCount(s[1..], x);
      if x == s[0] {
        assert x !in s[1..];
      }
    }
  }

  lemma {:induction false} MultiplicityDistinct(doms: seq<seq<int>>, t: seq<int>)
    requires forall i :: 0 <= i < |doms| ==> Distinct(doms[i])
    ensures Multiplicity(doms, t) <= 1
    decreases |doms|
  {
    if |t| == |doms| && doms != [] {
      MultiplicityDistinct(doms[1..], t[1..]);
      DistinctCount(doms[0], t[0]);
    }
  }

  /** Over domains without repeated values, itertools.product lists every
      drawable tuple exactly once and nothing else. */
  lemma ProductCountDistinct(doms: seq<seq<int>>, t: seq<int>)
    requires forall i :: 0 <= i < |doms| ==> Distinct(doms[i])
    ensures multiset(Product(doms))[t] == if InProduct(doms, t) then 1 else 0
  {
    ProductCount(doms, t);
    MultiplicityPositive(doms, t);
    MultiplicityDistinct(doms, t);
  }

  lemma {:induction false} OccurrencesConcat<T>(a: seq<T>, b: seq<T>, x: T)
    ensures Occurrences(a + b, x) == Occurrences(a, x) + Occurrences(b, x)
    decreases |a|
  {
    if a != [] {
      assert (a + b)[1..] == a[1..] + b;
      OccurrencesConcat(a[1..], b, x);
    } else {
      assert a + b == b;
    }
  }

  /** Occurrences counts what the multiset of a sequence counts. */
  lemma {:induction false} OccurrencesMultiset<T>(s: seq<T>, x: T)
    ensures Occurrences(s, x) == multiset(s)[x]
    decreases |s|
  {
    if s != [] {
      OccurrencesMultiset(s[1..], x);
      assert s == [s[0]] + s[1..];
    }
  }

  // ---------------------------------------------------------------------
  // Permutations

  lemma PrependMember(x: int, rs: seq<seq<int>>, q: seq<int>)
    ensures q in Prepend(x, rs) <==> |q| > 0 && q[0] == x && q[1..] in rs
  {
    PrependCount(x, rs, q);
  }

  lemma RemoveAtMultiset(t: seq<int>, i: int)
    requires 0 <= i < |t|
    ensures multiset(RemoveAt(t, i)) + multiset{t[i]} == multiset(t)
  {
    SplitAt(t, i);
  }

  /** p is an arrangement of t that begins with the value at position j. */
  ghost predicate StartsFrom(t: seq<int>, j: int, p: seq<int>)
  {
    0 <= j < |t| && |p| > 0 && p[0] == t[j] && p[1..] in Perms(RemoveAt(t, j))
  }

  /** Taking the last value of p out of p, and an equal value out of a
      rearrangement q of p, leaves rearrangements of each other. */
  lemma RemoveMatchingLast(p: seq<int>, q: seq<int>, j: int)
    requires multiset(p) == multiset(q) && p != [] && 0 <= j < |q| && q[j] == p[|p| - 1]
    ensures multiset(p[..|p| - 1]) == multiset(RemoveAt(q, j))
  {
    SplitLast(p);
    assert multiset(p) == multiset(p[..|p| - 1]) + multiset{p[|p| - 1]};
    RemoveAtMultiset(q, j);
    forall y ensures multiset(p[..|p| - 1])[y] == multiset(RemoveAt(q, j))[y] {
      assert multiset(p)[y] == multiset(q)[y];
    }
  }

  lemma {:induction false} PermsFromMember(t: seq<int>, i: nat, p: seq<int>)
    requires i <= |t|
    ensures p in PermsFrom(t, i) <==> exists j :: i <= j && StartsFrom(t, j, p)
    decreases |t| - i
  {
    if i < |t| {
      PermsFromMember(t, i + 1, p);
      var head, tail := Prepend(t[i], Perms(RemoveAt(t, i))), PermsFrom(t, i + 1);
      assert PermsFrom(t, i) == head + tail;
      PrependMember(t[i], Perms(RemoveAt(t, i)), p);
      assert p in head <==> StartsFrom(t, i, p);
      if exists j :: i <= j && StartsFrom(t, j, p) {
        var j :| i <= j && StartsFrom(t, j, p);
        if j > i {
          assert p in tail;
        }
      }
    }
  }

  lemma {:induction false} PermsSound(t: seq<int>, p: seq<int>)
    requires p in Perms(t)
    ensures multiset(p) == multiset(t)
    decreases |t|
  {
    if t == [] {
      assert p == [];
    } else {
      PermsFromMember(t, 0, p);
      var j :| 0 <= j && StartsFrom(t, j, p);
      PermsSound(RemoveAt(t, j), p[1..]);
      RemoveAtMultiset(t, j);
      MultisetOfFirst(p);
    }
  }

  lemma {:induction false} PermsComplete(t: seq<int>, p: seq<int>)
    requires multiset(p) == multiset(t)
    ensures p in Perms(t)
    decreases |t|
  {
    assert |p| == |multiset(p)| == |t|;
    if t != [] {
      MultisetOfFirst(p);
      assert p[0] in multiset(t);
      var j :| 0 <= j < |t| && t[j] == p[0];
      RemoveAtMultiset(t, j);
      forall y ensures multiset(p[1..])[y] == multiset(RemoveAt(t, j))[y] {
        assert multiset(p)[y] == multiset(t)[y];
      }
      assert multiset(p[1..]) == multiset(RemoveAt(t, j));
      PermsComplete(RemoveAt(t, j), p[1..]);
      assert StartsFrom(t, j, p);
      PermsFromMember(t, 0, p);
    }
  }

  /** itertools.permutations(t) yields exactly the rearrangements of t. */
  lemma PermsMember(t: seq<int>, p: seq<int>)
    ensures p in Perms(t) <==> multiset(p) == multiset(t)
  {
    if p in Perms(t) {
      PermsSound(t, p);
    }
    if multiset(p) == multiset(t) {
      PermsComplete(t, p);
    }
  }

  lemma {:induction false} PermsFromLength(t: seq<int>, i: nat)
    requires 0 < |t| && i <= |t|
    ensures |PermsFrom(t, i)| == (|t| - i) * Factorial(|t| - 1)
    decreases |t|, 0, |t| - i
  {
    if i < |t| {
      PermsFromLength(t, i + 1);
      PermsLength(RemoveAt(t, i));
      assert |PermsFrom(t, i)| == |Perms(RemoveAt(t, i))| + |PermsFrom(t, i + 1)|;
      MulDistributes(|t| - (i + 1), 1, Factorial(|t| - 1));
    }
  }

  /** A tuple of k elements has k! permutations, repeated values or not. */
  lemma {:induction false} PermsLength(t: seq<int>)
    ensures |Perms(t)| == Factorial(|t|)
    decreases |t|, 1
  {
    if t != [] {
      PermsFromLength(t, 0);
    }
  }
}
