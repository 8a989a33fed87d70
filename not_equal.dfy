/** The binary not-equal constraints between cells that share a row or a
    column. binary_not_equal(vars, i, j, axis) pairs cell (i, j) with every
    later cell of its row (axis Row) or of its column (axis Column); the
    builder calls it for every cell, row by row, first for the row and then
    for the column. Each constraint's tuples are the pairs of the product
    of the two cells' domains whose components differ. */
module NotEqual {
  import opened Tuples
  import opened CspData

  /** A board position, 0-based. */
  datatype Cell = Cell(row: int, col: int)

  /** The constraint_type argument of binary_not_equal ('row' or 'column'). */
  datatype Axis = Row | Column

  /** vars is an n-by-n grid. */
  predicate IsSquare(vars: seq<seq<Variable>>, n: nat)
  {
    |vars| == n && forall r :: 0 <= r < n ==> |vars[r]| == n
  }

  predicate InGrid(n: int, c: Cell)
  {
    0 <= c.row < n && 0 <= c.col < n
  }

  predicate AllInGrid(n: int, ps: seq<(Cell, Cell)>)
  {
    forall k :: 0 <= k < |ps| ==> InGrid(n, ps[k].0) && InGrid(n, ps[k].1)
  }

  /** Two distinct cells sharing a row or a column, the one with the
      smaller index along that line first. */
  predicate Canonical(n: int, p: (Cell, Cell))
  {
    && InGrid(n, p.0) && InGrid(n, p.1)
    && ((p.0.row == p.1.row && p.0.col < p.1.col) || (p.0.col == p.1.col && p.0.row < p.1.row))
  }

  /** The cell pairs binary_not_equal(vars, i, j, axis) emits on an n-by-n
      board, in order: (i, j) with each cell after it in its row, or in its
      column. */
  function Line(n: nat, i: nat, j: nat, axis: Axis): seq<(Cell, Cell)>
    requires i < n && j < n
  {
    if axis == Row then seq(n - 1 - j, m => (Cell(i, j), Cell(i, j + 1 + m)))
    else seq(n - 1 - i, m => (Cell(i, j), Cell(i + 1 + m, j)))
  }

  /** The pairs emitted for cells (i, 0) .. (i, j-1). */
  function CellsUpTo(n: nat, i: nat, j: nat): (ps: seq<(Cell, Cell)>)
    requires i < n && j <= n
    ensures AllInGrid(n, ps)
  {
    if j == 0 then [] else CellsUpTo(n, i, j - 1) + Line(n, i, j - 1, Row) + Line(n, i, j - 1, Column)
  }

  /** The pairs emitted for rows 0 .. i-1. */
  function RowsUpTo(n: nat, i: nat): (ps: seq<(Cell, Cell)>)
    requires i <= n
    ensures AllInGrid(n, ps)
  {
    if i == 0 then [] else RowsUpTo(n, i - 1) + CellsUpTo(n, i - 1, n)
  }

  /** Every pair emitted by the builder's loop over all cells. */
  function AllPairs(n: nat): (ps: seq<(Cell, Cell)>)
    ensures AllInGrid(n, ps)
  {
    RowsUpTo(n, n)
  }

  /** The tuples t of ts with t[0] != t[1], in order. */
  function Unequal(ts: seq<seq<int>>): seq<seq<int>>
    requires forall t :: t in ts ==> |t| == 2
  {
    if ts == [] then []
    else Unequal(ts[..|ts| - 1]) + if ts[|ts| - 1][0] != ts[|ts| - 1][1] then [ts[|ts| - 1]] else []
  }

  /** The satisfying tuples of a not-equal constraint over domains d1, d2. */
  function NotEqualTuples(d1: seq<int>, d2: seq<int>): seq<seq<int>>
  {
    ProductLengths([d1, d2]);
    Unequal(Product([d1, d2]))
  }

  /** The not-equal constraint binary_not_equal builds for the cell pair p. */
  function NotEqualConstraint(vars: seq<seq<Variable>>, p: (Cell, Cell)): Constraint
    requires IsSquare(vars, |vars|) && InGrid(|vars|, p.0) && InGrid(|vars|, p.1)
  {
    var v1, v2 := vars[p.0.row][p.0.col], vars[p.1.row][p.1.col];
    Constraint(PairLabel(Label(p.0.row + 1, p.0.col + 1), Label(p.1.row + 1, p.1.col + 1)),
               [v1, v2], NotEqualTuples(v1.domain, v2.domain))
  }

  /** The constraints for the pairs ps, in order. */
  function Realize(vars: seq<seq<Variable>>, ps: seq<(Cell, Cell)>): seq<Constraint>
    requires IsSquare(vars, |vars|) && AllInGrid(|vars|, ps)
  {
    seq(|ps|, k requires 0 <= k < |ps| => NotEqualConstraint(vars, ps[k]))
  }

  lemma RealizeConcat(vars: seq<seq<Variable>>, a: seq<(Cell, Cell)>, b: seq<(Cell, Cell)>)
    requires IsSquare(vars, |vars|) && AllInGrid(|vars|, a) && AllInGrid(|vars|, b)
    ensures AllInGrid(|vars|, a + b)
    ensures Realize(vars, a + b) == Realize(vars, a) + Realize(vars, b)
  {
    assert forall k :: 0 <= k < |a + b| ==> (a + b)[k] == if k < |a| then a[k] else b[k - |a|];
  }

  // ---------------------------------------------------------------------
  // The tuples of a not-equal constraint

  lemma {:induction false} UnequalCount(ts: seq<seq<int>>, t: seq<int>)
    requires forall s :: s in ts ==> |s| == 2
    ensures multiset(Unequal(ts))[t] == if |t| == 2 && t[0] != t[1] then multiset(ts)[t] else 0
    decreases |ts|
  {
    if ts != [] {
      var init, last := ts[..|ts| - 1], ts[|ts| - 1];
      assert ts == init + [last];
      UnequalCount(init, t);
    }
  }

  /** A pair occurs among a not-equal constraint's tuples exactly when its
      components differ, as often as it can be drawn from the two domains. */
  lemma PairMultiplicity(d1: seq<int>, d2: seq<int>, t: seq<int>)
    ensures Multiplicity([d1, d2], t) ==
      if |t| == 2 then multiset(d1)[t[0]] * multiset(d2)[t[1]] else 0
  {
    if |t| == 2 {
      assert [d1, d2][1..] == [d2];
      assert [d2][1..] == [];
      var u := t[1..];
      assert u[0] == t[1];
      assert Multiplicity([d2], u) == multiset(d2)[u[0]] * Multiplicity([], u[1..]);
      assert Multiplicity([], u[1..]) == 1;
    }
  }

  lemma NotEqualTuplesCount(d1: seq<int>, d2: seq<int>, t: seq<int>)
    ensures multiset(NotEqualTuples(d1, d2))[t] ==
      if |t| == 2 && t[0] != t[1] then multiset(d1)[t[0]] * multiset(d2)[t[1]] else 0
  {
    ProductLengths([d1, d2]);
    UnequalCount(Product([d1, d2]), t);
    ProductCount([d1, d2], t);
    PairMultiplicity(d1, d2, t);
  }

  /** The tuples of a not-equal constraint are exactly the pairs of
      domain1 x domain2 with unequal components; over domains without
      repeated values each occurs once. */
  lemma NotEqualTuplesExact(d1: seq<int>, d2: seq<int>, t: seq<int>)
    ensures t in NotEqualTuples(d1, d2) <==> |t| == 2 && t[0] in d1 && t[1] in d2 && t[0] != t[1]
    ensures Distinct(d1) && Distinct(d2) ==> multiset(NotEqualTuples(d1, d2))[t] <= 1
  {
    NotEqualTuplesCount(d1, d2, t);
    if |t| == 2 {
      var a, b := multiset(d1)[t[0]], multiset(d2)[t[1]];
      assert a * b > 0 <==> a > 0 && b > 0;
      if Distinct(d1) && Distinct(d2) {
        DistinctCount(d1, t[0]);
        DistinctCount(d2, t[1]);
      }
    }
  }

  // ---------------------------------------------------------------------
  // Which pairs are covered

  lemma LineDistinct(n: nat, i: nat, j: nat, axis: Axis)
    requires i < n && j < n
    ensures Distinct(Line(n, i, j, axis))
  {
  }

  /** binary_not_equal(vars, i, j, axis) pairs (i, j) with exactly the
      cells after it along the axis, each once. */
  lemma LineCount(n: nat, i: nat, j: nat, axis: Axis, x: (Cell, Cell))
    requires i < n && j < n
    ensures Occurrences(Line(n, i, j, axis), x) ==
      if x.0 == Cell(i, j) && Canonical(n, x) && (if axis == Row then x.1.row == i else x.1.col == j) then 1 else 0
  {
    var l := Line(n, i, j, axis);
    LineDistinct(n, i, j, axis);
    DistinctCount(l, x);
    OccurrencesMultiset(l, x);
    if x.0 == Cell(i, j) && Canonical(n, x) && (if axis == Row then x.1.row == i else x.1.col == j) {
      if axis == Row {
        assert l[x.1.col - j - 1] == x;
      } else {
        assert l[x.1.row - i - 1] == x;
      }
    }
  }

  lemma {:induction false} CellsUpToCount(n: nat, i: nat, j: nat, x: (Cell, Cell))
    requires i < n && j <= n
    ensures Occurrences(CellsUpTo(n, i, j), x) ==
      if Canonical(n, x) && x.0.row == i && x.0.col < j then 1 else 0
    decreases j
  {
    if j > 0 {
      var prev, r, c := CellsUpTo(n, i, j - 1), Line(n, i, j - 1, Row), Line(n, i, j - 1, Column);
      OccurrencesConcat(prev + r, c, x);
      OccurrencesConcat(prev, r, x);
      CellsUpToCount(n, i, j - 1, x);
      LineCount(n, i, j - 1, Row, x);
      LineCount(n, i, j - 1, Column, x);
      if x.0 == Cell(i, j - 1) && Canonical(n, x) {
        assert x.1.row == i <==> x.1.col != j - 1;
      }
    }
  }

  lemma {:induction false} RowsUpToCount(n: nat, i: nat, x: (Cell, Cell))
    requires i <= n
    ensures Occurrences(RowsUpTo(n, i), x) == if Canonical(n, x) && x.0.row < i then 1 else 0
    decreases i
  {
    if i > 0 {
      OccurrencesConcat(RowsUpTo(n, i - 1), CellsUpTo(n, i - 1, n), x);
      RowsUpToCount(n, i - 1, x);
      CellsUpToCount(n, i - 1, n, x);
    }
  }

  /** Over the whole loop, every same-row and every same-column pair of
      cells is emitted exactly once, smaller index first, and nothing else
      is emitted. */
  lemma AllPairsCount(n: nat, x: (Cell, Cell))
    ensures multiset(AllPairs(n))[x] == if Canonical(n, x) then 1 else 0
  {
    RowsUpToCount(n, n, x);
    OccurrencesMultiset(AllPairs(n), x);
  }

  /** Each unordered pair of distinct cells sharing a row or a column gets
      exactly one not-equal constraint. */
  lemma PairCoveredOnce(n: nat, a: Cell, b: Cell)
    requires InGrid(n, a) && InGrid(n, b) && a != b
    requires a.row == b.row || a.col == b.col
    ensures multiset(AllPairs(n))[(a, b)] + multiset(AllPairs(n))[(b, a)] == 1
  {
    AllPairsCount(n, (a, b));
    AllPairsCount(n, (b, a));
  }

  lemma {:induction false} CellsUpToLength(n: nat, i: nat, j: nat)
    requires i < n && j <= n
    ensures 2 * |CellsUpTo(n, i, j)| == 2 * j * (n - 1) - j * (j - 1) + 2 * j * (n - 1 - i)
    decreases j
  {
    if j > 0 {
      CellsUpToLength(n, i, j - 1);
      var prev := |CellsUpTo(n, i, j - 1)|;
      assert |CellsUpTo(n, i, j)| == prev + (n - 1 - (j - 1)) + (n - 1 - i);
      CellsLengthStep(n, i, j - 1, prev, |CellsUpTo(n, i, j)|);
    }
  }

  lemma CellsLengthStep(n: int, i: int, k: int, prev: int, cur: int)
    requires 2 * prev == 2 * k * (n - 1) - k * (k - 1) + 2 * k * (n - 1 - i)
    requires cur == prev + (n - 1 - k) + (n - 1 - i)
    ensures 2 * cur == 2 * (k + 1) * (n - 1) - (k + 1) * (k + 1 - 1) + 2 * (k + 1) * (n - 1 - i)
  {
    assert 2 * (k + 1) * (n - 1) == 2 * k * (n - 1) + 2 * (n - 1);
    assert (k + 1) * (k + 1 - 1) == k * (k - 1) + 2 * k;
    assert 2 * (k + 1) * (n - 1 - i) == 2 * k * (n - 1 - i) + 2 * (n - 1 - i);
  }

  lemma {:induction false} RowsUpToLength(n: nat, i: nat)
    requires i <= n
    ensures 2 * |RowsUpTo(n, i)| == 3 * i * (n * (n - 1)) - n * (i * (i - 1))
    decreases i
  {
    if i > 0 {
      RowsUpToLength(n, i - 1);
      CellsUpToLength(n, i - 1, n);
      var prev, cells := |RowsUpTo(n, i - 1)|, |CellsUpTo(n, i - 1, n)|;
      assert |RowsUpTo(n, i)| == prev + cells;
      RowsLengthStep(n, i - 1, prev, cells, |RowsUpTo(n, i)|);
    }
  }

  lemma RowsLengthStep(n: int, k: int, prev: int, cells: int, cur: int)
    requires 2 * prev == 3 * k * (n * (n - 1)) - n * (k * (k - 1))
    requires 2 * cells == 2 * n * (n - 1) - n * (n - 1) + 2 * n * (n - 1 - k)
    requires cur == prev + cells
    ensures 2 * cur == 3 * (k + 1) * (n * (n - 1)) - n * ((k + 1) * (k + 1 - 1))
  {
    var m, kk, nk := n * (n - 1), k * (k - 1), n * k;
    assert 2 * n * (n - 1) == 2 * m;
    assert n * (n - 1 - k) == m - nk;
    assert 3 * (k + 1) * m == 3 * k * m + 3 * m;
    assert (k + 1) * (k + 1 - 1) == kk + 2 * k;
    assert n * (kk + 2 * k) == n * kk + 2 * nk;
  }

  /** The builder emits N^2 (N - 1) not-equal constraints on an N-by-N board. */
  lemma AllPairsLength(n: nat)
    ensures |AllPairs(n)| == n * n * (n - 1)
  {
    RowsUpToLength(n, n);
    var m := n * (n - 1);
    assert 3 * n * m - n * m == 2 * (n * m);
    assert n * n * (n - 1) == n * m;
  }

  // ---------------------------------------------------------------------
  // The loops

  /** for t in itertools.product(d1, d2): if t[0] != t[1]: append t */
  method NotEqualTuplesOf(d1: seq<int>, d2: seq<int>) returns (sat: seq<seq<int>>)
    ensures sat == NotEqualTuples(d1, d2)
  {
    sat := [];
    var ts := Product([d1, d2]);
    ProductLengths([d1, d2]);
    for m := 0 to |ts|
      invariant sat == Unequal(ts[..m])
    {
      var t := ts[m];
      TakeOneMore(ts, m);
      if t[0] != t[1] {
        sat := sat + [t];
      }
    }
    assert ts[..|ts|] == ts;
  }

  /** The body of binary_not_equal's loop for one partner cell: the
      constraint between the two cells, its tuples built by the loop over
      the product of their domains. */
  method PairConstraint(vars: seq<seq<Variable>>, p: (Cell, Cell)) returns (con: Constraint)
    requires IsSquare(vars, |vars|) && InGrid(|vars|, p.0) && InGrid(|vars|, p.1)
    ensures con == NotEqualConstraint(vars, p)
  {
    var var1, var2 := vars[p.0.row][p.0.col], vars[p.1.row][p.1.col];
    var sat := NotEqualTuplesOf(var1.domain, var2.domain);
    con := Constraint(PairLabel(Label(p.0.row + 1, p.0.col + 1), Label(p.1.row + 1, p.1.col + 1)), [var1, var2], sat);
  }

  /** binary_not_equal(vars, i, j, axis): the not-equal constraints between
      cell (i, j) and every later cell of its row or column. */
  method BinaryNotEqual(vars: seq<seq<Variable>>, i: nat, j: nat, axis: Axis) returns (cs: seq<Constraint>)
    requires IsSquare(vars, |vars|) && i < |vars| && j < |vars|
    ensures AllInGrid(|vars|, Line(|vars|, i, j, axis))
    ensures cs == Realize(vars, Line(|vars|, i, j, axis))
  {
    ghost var line := Line(|vars|, i, j, axis);
    ghost var first := if axis == Row then j else i;
    ghost var done := 0;
    cs := [];
    for k := 0 to |vars[i]|
      invariant done == if k <= first then 0 else k - first - 1
      invariant cs == Realize(vars, line[..done])
    {
      var partner;
      if axis == Row {
        if k <= j {
          continue;
        }
        partner := Cell(i, k);
      } else {
        if k <= i {
          continue;
        }
        partner := Cell(k, j);
      }
      LineAt(|vars|, i, j, axis, done);
      assert line[done] == (Cell(i, j), partner);
      var con := PairConstraint(vars, (Cell(i, j), partner));
      RealizeStep(vars, line, done);
      cs := cs + [con];
      done := done + 1;
    }
    assert line[..done] == line;
  }

  lemma LineAt(n: nat, i: nat, j: nat, axis: Axis, c: int)
    requires i < n && j < n && 0 <= c < |Line(n, i, j, axis)|
    ensures Line(n, i, j, axis)[c] ==
      if axis == Row then (Cell(i, j), Cell(i, j + 1 + c)) else (Cell(i, j), Cell(i + 1 + c, j))
  {
  }

  lemma RealizeStep(vars: seq<seq<Variable>>, ps: seq<(Cell, Cell)>, c: int)
    requires IsSquare(vars, |vars|) && AllInGrid(|vars|, ps) && 0 <= c < |ps|
    ensures AllInGrid(|vars|, ps[..c]) && AllInGrid(|vars|, ps[..c + 1])
    ensures Realize(vars, ps[..c + 1]) == Realize(vars, ps[..c]) + [NotEqualConstraint(vars, ps[c])]
  {
  }

  /** The builder's loop over every cell (i, j), row by row, collecting the
      row constraints and then the column constraints of each cell. */
  method RowColumnConstraints(vars: seq<seq<Variable>>) returns (cons: seq<Constraint>)
    requires IsSquare(vars, |vars|)
    ensures cons == Realize(vars, AllPairs(|vars|))
  {
    var n := |vars|;
    cons := [];
    for i := 0 to n
      invariant cons == Realize(vars, RowsUpTo(n, i))
    {
      ghost var before := cons;
      for j := 0 to n
        invariant cons == before + Realize(vars, CellsUpTo(n, i, j))
      {
        var rowCons := BinaryNotEqual(vars, i, j, Row);
        var columnCons := BinaryNotEqual(vars, i, j, Column);
        CellsUpToStep(vars, i, j);
        ConcatAssoc(before, Realize(vars, CellsUpTo(n, i, j)), rowCons, columnCons);
        cons := cons + rowCons;
        cons := cons + columnCons;
      }
      RealizeConcat(vars, RowsUpTo(n, i), CellsUpTo(n, i, n));
    }
  }

  lemma CellsUpToStep(vars: seq<seq<Variable>>, i: nat, j: nat)
    requires IsSquare(vars, |vars|) && i < |vars| && j < |vars|
    ensures Realize(vars, CellsUpTo(|vars|, i, j + 1))
         == Realize(vars, CellsUpTo(|vars|, i, j)) + Realize(vars, Line(|vars|, i, j, Row))
            + Realize(vars, Line(|vars|, i, j, Column))
  {
    var n := |vars|;
    var c, r := CellsUpTo(n, i, j), Line(n, i, j, Row);
    RealizeConcat(vars, c, r);
    RealizeConcat(vars, c + r, Line(n, i, j, Column));
  }
}
