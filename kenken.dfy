/** kenken_csp_model: reads a board description [[N], descriptor, ...],
    creates one variable per cell with domain 1..N, turns every cage
    descriptor into an n-ary constraint over the variables it names and
    every two-entry descriptor into a fixed cell, adds the row and column
    not-equal constraints and registers variables and constraints with a
    CSP named "Kenken". The descriptors are processed in order, so a cage
    sees the variables as they stand at its turn, while the row and column
    constraints see the final grid. */
module KenKen {
  import opened Tuples
  import opened Cages
  import opened CspData
  import opened NotEqual

  datatype Option<T> = None | Some(value: T)

  /** The board description: [[N], descriptor, ...]. */
  type Board = seq<seq<int>>

  /** The variables and the constraints built so far. */
  datatype Progress = Progress(vars: seq<seq<Variable>>, cons: seq<Constraint>)

  // ---------------------------------------------------------------------
  // Reading the board description

  predicate HasSize(grid: Board)
  {
    |grid| >= 1 && |grid[0]| >= 1
  }

  /** N as range(1, N + 1) sees it: a size that is not positive gives no
      values. */
  function Size(grid: Board): nat
    requires HasSize(grid)
  {
    if grid[0][0] <= 0 then 0 else grid[0][0]
  }

  /** A cell code 'ij': two decimal digits, row then column, each 1..n. */
  predicate ValidCell(n: int, code: int)
  {
    10 <= code <= 99 && 1 <= code / 10 <= n && 1 <= code % 10 <= n
  }

  /** The 0-based position a cell code names: its first digit minus one and
      its second digit minus one. */
  function CellOf(code: int): Cell
  {
    Cell(code / 10 - 1, code % 10 - 1)
  }

  /** A descriptor with more than two entries is a cage (cell codes, then
      the target, then the operator); one with two entries fixes a cell. */
  predicate IsCage(d: seq<int>)
  {
    |d| > 2
  }

  predicate ValidDescriptor(n: int, d: seq<int>)
  {
    && |d| >= 2
    && (if IsCage(d) then forall m :: 0 <= m < |d| - 2 ==> ValidCell(n, d[m])
        else ValidCell(n, d[0]))
  }

  predicate WellFormed(grid: Board)
  {
    HasSize(grid) && forall k :: 1 <= k < |grid| ==> ValidDescriptor(Size(grid), grid[k])
  }

  lemma CellOfInGrid(n: int, code: int)
    requires ValidCell(n, code)
    ensures InGrid(n, CellOf(code))
  {
  }

  /** Decoding a cell code inverts writing the 1-based row and column as
      two digits, so distinct codes name distinct cells. */
  lemma CellCodeRoundTrip(n: int, c: Cell)
    requires InGrid(n, c) && n <= 9
    ensures ValidCell(n, 10 * (c.row + 1) + (c.col + 1))
    ensures CellOf(10 * (c.row + 1) + (c.col + 1)) == c
  {
  }

  lemma CellOfInjective(n: int, a: int, b: int)
    requires ValidCell(n, a) && ValidCell(n, b) && CellOf(a) == CellOf(b)
    ensures a == b
  {
    assert a == 10 * (a / 10) + a % 10;
    assert b == 10 * (b / 10) + b % 10;
  }

  // ---------------------------------------------------------------------
  // The grid of variables

  /** The domain list [1, ..., n]. */
  function Domain(n: nat): seq<int>
  {
    seq(n, k => k + 1)
  }

  lemma DomainValues(n: nat)
    ensures |Domain(n)| == n && Distinct(Domain(n))
    ensures forall i, j :: 0 <= i < j < n ==> Domain(n)[i] < Domain(n)[j]
    ensures forall x :: x in Domain(n) <==> 1 <= x <= n
  {
    forall x | 1 <= x <= n
      ensures x in Domain(n)
    {
      assert Domain(n)[x - 1] == x;
    }
  }

  /** The variable of cell (r, c) before any cell is fixed: named 'V{r+1}{c+1}'. */
  function InitialVariable(n: nat, c: Cell): Variable
  {
    Variable(Label(c.row + 1, c.col + 1), Domain(n))
  }

  /** The variable a fixed cell (r, c) is replaced by: named 'V{r}{c}'
      (0-based digits) with the one value as its domain. */
  function FixedVariable(c: Cell, v: int): Variable
  {
    Variable(Label(c.row, c.col), [v])
  }

  function InitialGrid(n: nat): (vars: seq<seq<Variable>>)
    ensures IsSquare(vars, n)
  {
    seq(n, r => seq(n, c => InitialVariable(n, Cell(r, c))))
  }

  function VarAt(vars: seq<seq<Variable>>, c: Cell): Variable
    requires IsSquare(vars, |vars|) && InGrid(|vars|, c)
  {
    vars[c.row][c.col]
  }

  // ---------------------------------------------------------------------
  // One descriptor

  /** The variables of a cage, in the order its cell codes are listed. */
  function CageScope(vars: seq<seq<Variable>>, d: seq<int>): seq<Variable>
    requires IsSquare(vars, |vars|) && ValidDescriptor(|vars|, d) && IsCage(d)
  {
    seq(|d| - 2, m requires 0 <= m < |d| - 2 => VarAt(vars, CellOf(d[m])))
  }

  /** The constraint 'C(Cage{index})' of a cage descriptor. */
  function CageConstraint(vars: seq<seq<Variable>>, d: seq<int>, index: int): Constraint
    requires IsSquare(vars, |vars|) && ValidDescriptor(|vars|, d) && IsCage(d)
  {
    var scope := CageScope(vars, d);
    Constraint(CageLabel(index), scope, CageSat(Domains(scope), d[|d| - 2], d[|d| - 1]))
  }

  /** The grid after a two-entry descriptor [code, value]. */
  function Fix(vars: seq<seq<Variable>>, d: seq<int>): (vars': seq<seq<Variable>>)
    requires IsSquare(vars, |vars|) && ValidDescriptor(|vars|, d) && !IsCage(d)
    ensures IsSquare(vars', |vars|)
  {
    var c := CellOf(d[0]);
    vars[c.row := vars[c.row][c.col := FixedVariable(c, d[1])]]
  }

  function Step(p: Progress, d: seq<int>, index: int): (p': Progress)
    requires IsSquare(p.vars, |p.vars|) && ValidDescriptor(|p.vars|, d)
    ensures IsSquare(p'.vars, |p.vars|)
  {
    if IsCage(d) then Progress(p.vars, p.cons + [CageConstraint(p.vars, d, index)])
    else Progress(Fix(p.vars, d), p.cons)
  }

  /** The variables and constraints once descriptors 1 .. k - 1 are done. */
  function Run(grid: Board, k: int): (p: Progress)
    requires WellFormed(grid) && 1 <= k <= |grid|
    ensures IsSquare(p.vars, Size(grid))
    decreases k
  {
    if k == 1 then Progress(InitialGrid(Size(grid)), [])
    else Step(Run(grid, k - 1), grid[k - 1], k - 1)
  }

  /** The value given to cell c by the last two-entry descriptor before k. */
  function LastFix(grid: Board, k: int, c: Cell): Option<int>
    requires WellFormed(grid) && 1 <= k <= |grid|
    decreases k
  {
    if k == 1 then None
    else if !IsCage(grid[k - 1]) && CellOf(grid[k - 1][0]) == c then Some(grid[k - 1][1])
    else LastFix(grid, k - 1, c)
  }

  /** How many cage descriptors come before k. */
  function CagesBefore(grid: Board, k: int): nat
    requires 1 <= k <= |grid|
    decreases k
  {
    if k == 1 then 0 else CagesBefore(grid, k - 1) + if IsCage(grid[k - 1]) then 1 else 0
  }

  /** No division by zero: no divide cage of two or more cells holds a cell
      fixed to 0 before the cage's turn. (A one-cell divide cage divides by
      nothing.) */
  predicate DivisionDefined(grid: Board)
    requires WellFormed(grid)
  {
    forall k, m :: 1 <= k < |grid| && |grid[k]| > 3 && grid[k][|grid[k]| - 1] == Divide && 0 <= m < |grid[k]| - 2 ==>
      LastFix(grid, k, CellOf(grid[k][m])) != Some(0)
  }

  // ---------------------------------------------------------------------
  // The whole model

  /** The variables row by row, as they are registered with the CSP. */
  function Flatten(vars: seq<seq<Variable>>): seq<Variable>
  {
    if vars == [] then [] else Flatten(vars[..|vars| - 1]) + vars[|vars| - 1]
  }

  /** The CSP and the grid kenken_csp_model returns. */
  function Model(grid: Board): (Csp, seq<seq<Variable>>)
    requires WellFormed(grid)
  {
    var p := Run(grid, |grid|);
    (Csp("Kenken", Flatten(p.vars), p.cons + Realize(p.vars, AllPairs(Size(grid)))), p.vars)
  }

  // ---------------------------------------------------------------------
  // What the descriptors do to the grid and the constraint list

  /** Every cell holds its initial variable until a two-entry descriptor
      names it; from then on it holds the variable of the last one. */
  lemma {:induction false} RunVariable(grid: Board, k: int, c: Cell)
    requires WellFormed(grid) && 1 <= k <= |grid| && InGrid(Size(grid), c)
    ensures VarAt(Run(grid, k).vars, c) ==
      match LastFix(grid, k, c)
      case None => InitialVariable(Size(grid), c)
      case Some(v) => FixedVariable(c, v)
    decreases k
  {
    if k > 1 {
      RunVariable(grid, k - 1, c);
      if !IsCage(grid[k - 1]) {
        CellOfInGrid(Size(grid), grid[k - 1][0]);
      }
    }
  }

  /** The constraint list holds one constraint per cage descriptor, in
      descriptor order, each built from the grid as it stood at that
      cage's turn. */
  lemma {:induction false} RunConstraints(grid: Board, k: int)
    requires WellFormed(grid) && 1 <= k <= |grid|
    ensures |Run(grid, k).cons| == CagesBefore(grid, k)
    ensures forall i :: 1 <= i < k && IsCage(grid[i]) ==>
      CagesBefore(grid, i) < |Run(grid, k).cons| &&
      Run(grid, k).cons[CagesBefore(grid, i)] == CageConstraint(Run(grid, i).vars, grid[i], i)
    decreases k
  {
    if k > 1 {
      RunConstraints(grid, k - 1);
      CagesBeforeGrows(grid, k - 1);
    }
  }

  lemma {:induction false} CagesBeforeGrows(grid: Board, k: int)
    requires 1 <= k <= |grid|
    ensures forall i :: 1 <= i <= k ==> CagesBefore(grid, i) <= CagesBefore(grid, k)
    decreases k
  {
    if k > 1 {
      CagesBeforeGrows(grid, k - 1);
    }
  }

  /** A two-entry descriptor replaces the variable of its own cell and
      leaves every other cell as it was. */
  lemma FixFrame(vars: seq<seq<Variable>>, d: seq<int>, c: Cell)
    requires IsSquare(vars, |vars|) && ValidDescriptor(|vars|, d) && !IsCage(d) && InGrid(|vars|, c)
    ensures VarAt(Fix(vars, d), c) == if c == CellOf(d[0]) then FixedVariable(c, d[1]) else VarAt(vars, c)
  {
  }

  /** Run(grid, k) reads only the descriptors before k: later ones, fixed
      cells included, do not change it. */
  lemma {:induction false} RunReadsPrefix(g1: Board, g2: Board, k: int)
    requires WellFormed(g1) && WellFormed(g2) && 1 <= k <= |g1| && k <= |g2|
    requires g1[..k] == g2[..k]
    ensures Run(g1, k) == Run(g2, k)
    decreases k
  {
    assert g1[0] == g1[..k][0] == g2[0];
    if k > 1 {
      assert g1[..k - 1] == g1[..k][..k - 1];
      assert g2[..k - 1] == g2[..k][..k - 1];
      RunReadsPrefix(g1, g2, k - 1);
      assert g1[k - 1] == g1[..k][k - 1] == g2[k - 1];
    }
  }

  /** Every domain in the grid is 1..N or the one value of a fixed cell,
      so no domain repeats a value. */
  lemma RunDomainsDistinct(grid: Board, k: int, c: Cell)
    requires WellFormed(grid) && 1 <= k <= |grid| && InGrid(Size(grid), c)
    ensures Distinct(VarAt(Run(grid, k).vars, c).domain)
  {
    RunVariable(grid, k, c);
    DomainValues(Size(grid));
  }

  /** Under DivisionDefined, a divide cage of two or more cells sees no 0
      in any of its cells' domains. */
  lemma DivisionDefinedAt(grid: Board, k: int)
    requires WellFormed(grid) && DivisionDefined(grid) && 1 <= k < |grid| && IsCage(grid[k])
    ensures var d := grid[k];
      d[|d| - 1] == Divide && |d| > 3 ==>
        forall i, x :: 0 <= i < |d| - 2 && x in Domains(CageScope(Run(grid, k).vars, d))[i] ==> x != 0
  {
    var d := grid[k];
    var n := Size(grid);
    if d[|d| - 1] == Divide && |d| > 3 {
      forall i, x | 0 <= i < |d| - 2 && x in Domains(CageScope(Run(grid, k).vars, d))[i]
        ensures x != 0
      {
        var c := CellOf(d[i]);
        CellOfInGrid(n, d[i]);
        RunVariable(grid, k, c);
        DomainValues(n);
      }
    }
  }

  /** The tuples of a cage constraint are exactly the assignments of values
      from its cells' domains, in cell order, that the cage rule accepts. */
  lemma CageConstraintMeaning(vars: seq<seq<Variable>>, d: seq<int>, index: int, t: seq<int>)
    requires IsSquare(vars, |vars|) && ValidDescriptor(|vars|, d) && IsCage(d)
    ensures t in CageConstraint(vars, d, index).tuples <==>
      && |t| == |d| - 2
      && (forall m :: 0 <= m < |t| ==> t[m] in VarAt(vars, CellOf(d[m])).domain)
      && Accepts(t, d[|d| - 2], d[|d| - 1])
  {
    CageSatMember(Domains(CageScope(vars, d)), d[|d| - 2], d[|d| - 1], t);
  }

  lemma {:induction false} FlattenLength(vars: seq<seq<Variable>>, n: nat)
    requires forall r :: 0 <= r < |vars| ==> |vars[r]| == n
    ensures |Flatten(vars)| == |vars| * n
    decreases |vars|
  {
    if vars != [] {
      FlattenLength(vars[..|vars| - 1], n);
      MulDistributes(|vars| - 1, 1, n);
    }
  }

  /** The row-major position of cell (r, c) in an n-wide grid. */
  function Position(n: int, r: int, c: int): int
  {
    r * n + c
  }

  lemma FlattenGrid(vars: seq<seq<Variable>>, n: nat)
    requires forall i :: 0 <= i < |vars| ==> |vars[i]| == n
    ensures |Flatten(vars)| == |vars| * n
    ensures forall r, c :: 0 <= r < |vars| && 0 <= c < n ==>
      Position(n, r, c) < |Flatten(vars)| && Flatten(vars)[Position(n, r, c)] == vars[r][c]
  {
    FlattenLength(vars, n);
    forall r, c | 0 <= r < |vars| && 0 <= c < n
      ensures Position(n, r, c) < |Flatten(vars)| && Flatten(vars)[Position(n, r, c)] == vars[r][c]
    {
      FlattenAt(vars, n, r, c);
    }
  }

  /** Cell (r, c) of an n-wide grid is registered at position r * n + c. */
  lemma {:induction false} FlattenAt(vars: seq<seq<Variable>>, n: nat, r: int, c: int)
    requires forall i :: 0 <= i < |vars| ==> |vars[i]| == n
    requires 0 <= r < |vars| && 0 <= c < n
    ensures Position(n, r, c) < |Flatten(vars)| && Flatten(vars)[Position(n, r, c)] == vars[r][c]
    decreases |vars|
  {
    var init := vars[..|vars| - 1];
    FlattenLength(init, n);
    FlattenLength(vars, n);
    if r < |vars| - 1 {
      FlattenAt(init, n, r, c);
      RowOffsetBelow(r, |vars| - 1, n, c);
    } else {
      RowOffsetLast(r, n, c);
    }
  }

  lemma RowOffsetBelow(r: int, rows: int, n: int, c: int)
    requires 0 <= r < rows && 0 <= c < n
    ensures r * n + c < rows * n
  {
    var gap := rows - (r + 1);
    MulDistributes(r, 1, n);
    MulDistributes(r + 1, gap, n);
    NonnegativeProduct(gap, n);
  }

  lemma NonnegativeProduct(a: int, b: int)
    requires a >= 0 && b >= 0
    ensures a * b >= 0
  {
  }

  lemma RowOffsetLast(r: int, n: int, c: int)
    requires 0 <= c < n
    ensures r * n + c - r * n == c
  {
  }

  lemma NotEqualConstraintInjective(vars: seq<seq<Variable>>, x: (Cell, Cell), y: (Cell, Cell))
    requires IsSquare(vars, |vars|)
    requires InGrid(|vars|, x.0) && InGrid(|vars|, x.1) && InGrid(|vars|, y.0) && InGrid(|vars|, y.1)
    requires NotEqualConstraint(vars, x) == NotEqualConstraint(vars, y)
    ensures x == y
  {
    assert NotEqualConstraint(vars, x).name == NotEqualConstraint(vars, y).name;
  }

  // ---------------------------------------------------------------------
  // The returned model

  /** The CSP registers the N * N variables of the returned N by N grid
      row by row. */
  lemma ModelVariables(grid: Board)
    requires WellFormed(grid)
    ensures Model(grid).0.name == "Kenken"
    ensures IsSquare(Model(grid).1, Size(grid))
    ensures |Model(grid).0.variables| == Size(grid) * Size(grid)
    ensures forall r, c :: 0 <= r < Size(grid) && 0 <= c < Size(grid) ==>
      Position(Size(grid), r, c) < |Model(grid).0.variables| &&
      Model(grid).0.variables[Position(Size(grid), r, c)] == Model(grid).1[r][c]
  {
    FlattenGrid(Run(grid, |grid|).vars, Size(grid));
  }

  /** One constraint per cage descriptor plus one per pair of distinct
      cells sharing a row or a column: N * N * (N - 1) of them. */
  lemma ModelConstraintCount(grid: Board)
    requires WellFormed(grid)
    ensures |Model(grid).0.constraints| == CagesBefore(grid, |grid|) + Size(grid) * Size(grid) * (Size(grid) - 1)
  {
    RunConstraints(grid, |grid|);
    AllPairsLength(Size(grid));
  }

  /** The constraint of cage descriptor k sits at position CagesBefore(k)
      and is built from the grid as it stood at the cage's turn. Since no
      domain repeats a value, an add or multiply cage holds each accepted
      assignment once, and a subtract or divide cage holds it once per
      matching ordering. */
  lemma ModelCage(grid: Board, k: int, t: seq<int>)
    requires WellFormed(grid) && 1 <= k < |grid| && IsCage(grid[k])
    ensures CagesBefore(grid, k) < |Model(grid).0.constraints|
    ensures var con := Model(grid).0.constraints[CagesBefore(grid, k)]; var d := grid[k];
      && con == CageConstraint(Run(grid, k).vars, d, k)
      && multiset(con.tuples)[t] == if InProduct(Domains(con.scope), t) then Kept(t, d[|d| - 2], d[|d| - 1]) else 0
  {
    RunConstraints(grid, |grid|);
    var d := grid[k];
    var scope := CageScope(Run(grid, k).vars, d);
    forall i | 0 <= i < |Domains(scope)|
      ensures Distinct(Domains(scope)[i])
    {
      CellOfInGrid(Size(grid), d[i]);
      RunDomainsDistinct(grid, k, CellOf(d[i]));
    }
    CageSatOverDistinctDomains(Domains(scope), d[|d| - 2], d[|d| - 1], t);
  }

  /** The constraint list is the cage constraints followed by the
      not-equal constraints of the final grid. */
  lemma ModelConstraintParts(grid: Board)
    requires WellFormed(grid)
    ensures CagesBefore(grid, |grid|) <= |Model(grid).0.constraints|
    ensures Model(grid).0.constraints[..CagesBefore(grid, |grid|)] == Run(grid, |grid|).cons
    ensures Model(grid).0.constraints[CagesBefore(grid, |grid|)..] == Realize(Model(grid).1, AllPairs(Size(grid)))
  {
    RunConstraints(grid, |grid|);
  }

  /** Among the not-equal constraints, the one for cells a, b is present
      exactly when (a, b) is a canonical pair, and it allows exactly the
      unequal pairs of values from the final domains of the two cells. */
  lemma ModelNotEqual(grid: Board, x: (Cell, Cell), t: seq<int>)
    requires WellFormed(grid) && InGrid(Size(grid), x.0) && InGrid(Size(grid), x.1)
    ensures CagesBefore(grid, |grid|) <= |Model(grid).0.constraints|
    ensures var vars := Model(grid).1; var n := Size(grid);
      && (NotEqualConstraint(vars, x) in Model(grid).0.constraints[CagesBefore(grid, |grid|)..] <==> Canonical(n, x))
      && (t in NotEqualConstraint(vars, x).tuples <==>
           |t| == 2 && t[0] in VarAt(vars, x.0).domain && t[1] in VarAt(vars, x.1).domain && t[0] != t[1])
  {
    var vars := Model(grid).1;
    ModelConstraintParts(grid);
    RealizedOnce(vars, x);
    NotEqualTuplesExact(VarAt(vars, x.0).domain, VarAt(vars, x.1).domain, t);
  }

  /** The not-equal constraint of two cells is among those the row and
      column loops build exactly when the pair is canonical. */
  lemma RealizedOnce(vars: seq<seq<Variable>>, x: (Cell, Cell))
    requires IsSquare(vars, |vars|) && InGrid(|vars|, x.0) && InGrid(|vars|, x.1)
    ensures NotEqualConstraint(vars, x) in Realize(vars, AllPairs(|vars|)) <==> Canonical(|vars|, x)
  {
    var pairs := AllPairs(|vars|);
    AllPairsCount(|vars|, x);
    assert x in pairs <==> Canonical(|vars|, x);
    if x in pairs {
      var k :| 0 <= k < |pairs| && pairs[k] == x;
      assert Realize(vars, pairs)[k] == NotEqualConstraint(vars, x);
    }
    if NotEqualConstraint(vars, x) in Realize(vars, pairs) {
      RealizedPair(vars, pairs, x);
    }
  }

  lemma RealizedPair(vars: seq<seq<Variable>>, pairs: seq<(Cell, Cell)>, x: (Cell, Cell))
    requires IsSquare(vars, |vars|) && InGrid(|vars|, x.0) && InGrid(|vars|, x.1) && AllInGrid(|vars|, pairs)
    requires NotEqualConstraint(vars, x) in Realize(vars, pairs)
    ensures x in pairs
  {
    var k :| 0 <= k < |pairs| && Realize(vars, pairs)[k] == NotEqualConstraint(vars, x);
    NotEqualConstraintInjective(vars, pairs[k], x);
  }

  /** A 2 by 2 board without cages gets 4 not-equal constraints: each of
      the two rows and two columns contributes one. */
  lemma TwoByTwoWithoutCages()
    ensures WellFormed([[2]]) && |Model([[2]]).0.constraints| == 4
  {
    ModelConstraintCount([[2]]);
  }

  /** Fixing cell 11 to 3 on a 3 by 3 board narrows the final variable of
      cell (0, 0) to the domain [3], and the not-equal constraint between it and
      its row neighbour (0, 1) allows exactly the pairs (3, 1) and (3, 2). */
  lemma FixedCellExample(t: seq<int>)
    ensures WellFormed([[3], [11, 3]])
    ensures var vars := Run([[3], [11, 3]], 2).vars;
      && vars[0][0].domain == [3]
      && (t in NotEqualConstraint(vars, (Cell(0, 0), Cell(0, 1))).tuples <==> t == [3, 1] || t == [3, 2])
  {
    var grid := [[3], [11, 3]];
    assert ValidDescriptor(3, grid[1]);
    var vars: seq<seq<Variable>> := Run(grid, 2).vars;
    RunVariable(grid, 2, Cell(0, 0));
    RunVariable(grid, 2, Cell(0, 1));
    assert Domain(3) == [1, 2, 3];
    NotEqualTuplesExact(vars[0][0].domain, vars[0][1].domain, t);
    UnequalPairsFrom(t, vars[0][0].domain, vars[0][1].domain);
  }

  lemma UnequalPairsFrom(t: seq<int>, d1: seq<int>, d2: seq<int>)
    requires d1 == [3] && d2 == [1, 2, 3]
    ensures (|t| == 2 && t[0] in d1 && t[1] in d2 && t[0] != t[1]) <==> t == [3, 1] || t == [3, 2]
  {
    if |t| == 2 {
      assert t == [t[0], t[1]];
    }
  }

  /** A fixed cell's variable is named with 0-based digits while the others
      use 1-based digits, so two cells can share a name: fixing cell 23 on a
      3 by 3 board gives it the name V12, which cell 12 also has. */
  lemma FixedCellNameClash()
    ensures WellFormed([[3], [23, 1]])
    ensures var vars := Model([[3], [23, 1]]).1;
      vars[1][2].name == vars[0][1].name == Label(1, 2)
  {
    var grid := [[3], [23, 1]];
    assert ValidDescriptor(3, grid[1]);
    RunVariable(grid, 2, Cell(1, 2));
    RunVariable(grid, 2, Cell(0, 1));
  }

  // ---------------------------------------------------------------------
  // The building loops

  /** domain = [1, ..., N] (empty when N is not positive). */
  method BuildDomain(size: int) returns (domain: seq<int>)
    ensures domain == Domain(if size <= 0 then 0 else size)
  {
    domain := [];
    var i := 1;
    while i <= size
      invariant 1 <= i <= if size <= 0 then 1 else size + 1
      invariant domain == Domain(i - 1)
    {
      assert Domain(i) == Domain(i - 1) + [i];
      domain := domain + [i];
      i := i + 1;
    }
  }

  /** One row of variables per domain value i, one variable 'V{i}{j}' per
      domain value j, all sharing the domain. */
  method BuildVariables(domain: seq<int>) returns (vars: seq<seq<Variable>>)
    requires domain == Domain(|domain|)
    ensures vars == InitialGrid(|domain|)
  {
    var n := |domain|;
    vars := [];
    for a := 0 to n
      invariant vars == InitialGrid(n)[..a]
    {
      var i := domain[a];
      var row: seq<Variable> := [];
      for b := 0 to n
        invariant row == InitialGrid(n)[a][..b]
      {
        var j := domain[b];
        row := row + [Variable(Label(i, j), domain)];
      }
      assert row == InitialGrid(n)[a];
      vars := vars + [row];
    }
  }

  /** The constraint of one cage: its variables and their domains are
      gathered in cell order, then the satisfying tuples are enumerated. */
  method CageConstraintOf(vars: seq<seq<Variable>>, d: seq<int>, index: int) returns (con: Constraint)
    requires IsSquare(vars, |vars|) && ValidDescriptor(|vars|, d) && IsCage(d)
    requires d[|d| - 1] == Divide && |d| > 3 ==>
      forall i, x :: 0 <= i < |d| - 2 && x in Domains(CageScope(vars, d))[i] ==> x != 0
    ensures con == CageConstraint(vars, d, index)
  {
    var operator := d[|d| - 1];
    var target := d[|d| - 2];
    ghost var full := CageScope(vars, d);
    var scope: seq<Variable> := [];
    var doms: seq<seq<int>> := [];
    for cell := 0 to |d| - 2
      invariant scope == full[..cell]
      invariant doms == Domains(scope)
    {
      var c := CellOf(d[cell]);
      scope := scope + [vars[c.row][c.col]];
      doms := doms + [vars[c.row][c.col].domain];
    }
    assert scope == full;
    var sat := CageTuples(doms, target, operator);
    con := Constraint(CageLabel(index), scope, sat);
  }

  /** A two-entry descriptor replaces the variable of its cell. */
  method FixCell(vars: seq<seq<Variable>>, d: seq<int>) returns (vars': seq<seq<Variable>>)
    requires IsSquare(vars, |vars|) && ValidDescriptor(|vars|, d) && !IsCage(d)
    ensures vars' == Fix(vars, d)
  {
    var i := d[0] / 10 - 1;
    var j := d[0] % 10 - 1;
    var dom := d[1];
    vars' := vars[i := vars[i][j := Variable(Label(i, j), [dom])]];
  }

  /** Registering the grid row by row with the CSP. */
  method AddVariables(vars: seq<seq<Variable>>) returns (registered: seq<Variable>)
    ensures registered == Flatten(vars)
  {
    registered := [];
    for a := 0 to |vars|
      invariant registered == Flatten(vars[..a])
    {
      assert vars[..a + 1][..a] == vars[..a];
      for b := 0 to |vars[a]|
        invariant registered == Flatten(vars[..a]) + vars[a][..b]
      {
        registered := registered + [vars[a][b]];
      }
      assert vars[a][..|vars[a]|] == vars[a];
    }
    assert vars[..|vars|] == vars;
  }

  /** The CSP "Kenken" with the grid's variables added row by row and the
      constraints added in list order. */
  method BuildCsp(vars: seq<seq<Variable>>, cons: seq<Constraint>) returns (csp: Csp)
    ensures csp == Csp("Kenken", Flatten(vars), cons)
  {
    var registered := AddVariables(vars);
    var constraints: seq<Constraint> := [];
    for m := 0 to |cons|
      invariant constraints == cons[..m]
    {
      constraints := constraints + [cons[m]];
    }
    assert cons[..|cons|] == cons;
    csp := Csp("Kenken", registered, constraints);
  }

  /** kenken_csp_model: returns the CSP and the grid of variables. */
  method KenKenCspModel(grid: Board) returns (csp: Csp, vars: seq<seq<Variable>>)
    requires WellFormed(grid) && DivisionDefined(grid)
    ensures (csp, vars) == Model(grid)
  {
    var domain := BuildDomain(grid[0][0]);
    vars := BuildVariables(domain);
    var cons: seq<Constraint> := [];
    for cage := 1 to |grid|
      invariant Progress(vars, cons) == Run(grid, cage)
    {
      var d := grid[cage];
      if |d| > 2 {
        DivisionDefinedAt(grid, cage);
        var con := CageConstraintOf(vars, d, cage);
        cons := cons + [con];
      } else {
        vars := FixCell(vars, d);
      }
    }
    var notEqual := RowColumnConstraints(vars);
    cons := cons + notEqual;
    csp := BuildCsp(vars, cons);
  }
}
