# KenKen CSP model builder

`kenken_csp_model` turns a KenKen board description `[[N], descriptor, ...]`
into a finite-domain constraint model, and `binary_not_equal` builds that
model's row and column constraints. This project models both in Dafny.

- **Variables.** There is one variable per cell. Its domain is `[1, ..., N]`,
  and it is named `V{row}{col}` with 1-based digits.
- **Cage descriptors.** A descriptor `[cell, ..., cell, target, operator]`
  becomes an n-ary constraint `C(Cage{index})`:
  - its scope is the cells' variables, in the order the cells are listed;
  - its satisfying tuples are the members of the Cartesian product of those
    variables' domains that the operator accepts.
- **The four operators.**
  - Add (0) and multiply (3) test the tuple's sum or product.
  - Subtract (1) and divide (2) test every ordering of the tuple, reduced
    left to right. The tuple is appended once for each ordering that reaches
    the target.
  - Any other code gives a constraint with no tuples.
- **Fixed cells.** A two-entry descriptor `[cell, value]` replaces the cell's
  variable with one whose domain is `[value]`.
- **Order of processing.** Descriptors are handled in order. A cage sees the
  grid as it stands at its turn. The row and column not-equal constraints are
  built after every descriptor, from the final grid. Each pair of cells
  sharing a row or a column gets one constraint, first cell first along the
  line.
- **Result.** The function returns a CSP named "Kenken" and the N-by-N grid.
  The CSP holds the variables row by row, then the cage constraints, then the
  not-equal constraints.

## Modules

- `CspData` holds the data the CSP library carries: labels, variables,
  constraints and the CSP.
- `Tuples` holds `Product` and `Perms`, which are `itertools.product` and
  `itertools.permutations` in their own order. Both are described by
  multiplicity.
- `Arith` holds the reductions of a tuple: sum, product, left-to-right
  difference and exact left-to-right quotient.
- `Cages` builds a cage's satisfying tuples with loops. The loops are proved
  against `CageSat`, and lemmas describe `CageSat` by operator.
- `NotEqual` covers `binary_not_equal` and the row and column loops.
- `KenKen` holds the descriptor loop (`Run`, a fold over the descriptors),
  the assembly, and the main method `KenKenCspModel`.

## How the model represents the source

- **Cell codes.** A code `ij` decodes to the 0-based cell
  `(code / 10 - 1, code % 10 - 1)`. This is what the source's string-digit
  decoding gives for two-digit codes.
- **Names.** Names are kept as numbers. `Label(a, b)` stands for `V{a}{b}`,
  `CageLabel(index)` for `C(Cage{index})`, and `PairLabel` for `C(V..,V..)`.
- **Name clash.** A fixed cell's new variable is named with 0-based digits
  (kenken_csp.py:127), while every other cell uses 1-based digits
  (kenken_csp.py:64). Two cells can therefore share a name.
  `KenKen.FixedCellNameClash` exhibits one such board.
- **Division.** Python's float division is replaced by exact division over
  `real`. `Arith.QuotientMatches` shows that this exact test is equivalent to
  `p[0] == target * p[1] * ... * p[k-1]`.
- **Zero divisors.** The source raises ZeroDivisionError when a divide cage
  of two or more cells contains a cell fixed to 0. `DivisionDefined`
  excludes exactly that input.
- **A 2-by-2 board without cages.** The code's loops emit 4 not-equal
  constraints: one for each of the two rows and one for each of the two
  columns. A count of 2 (one row pair and one column pair) would not match
  the loops. The model follows the code, and `KenKen.TwoByTwoWithoutCages`
  proves the count of 4.

## Model

| member | source | states |
|---|---|---|
| `KenKen.BuildDomain` | kenken_csp.py:54-57 | the domain built by the loop is `[1, ..., N]`, and empty when N is not positive |
| `KenKen.DomainValues` | kenken_csp.py:55-57 | the domain has N entries, is strictly increasing, has no repeats, and holds exactly the values 1..N |
| `KenKen.BuildVariables` | kenken_csp.py:59-65 | the grid built by the nested loops is N by N, with cell (r, c) named `V{r+1}{c+1}` and holding the full domain |
| `KenKen.CellCodeRoundTrip` | kenken_csp.py:78-79 | decoding the two-digit code of a cell gives the cell back (N <= 9) |
| `KenKen.CellOfInjective` | kenken_csp.py:124-125 | distinct valid cell codes name distinct cells |
| `KenKen.FixCell` | kenken_csp.py:123-127 | a two-entry descriptor replaces the variable of its cell, as `Fix` describes |
| `KenKen.FixFrame` | kenken_csp.py:127 | after a fix, the fixed cell holds a variable with domain `[value]` and every other cell is unchanged |
| `KenKen.RunVariable` | kenken_csp.py:59-65 | after the first k descriptors, a cell holds its initial variable if no earlier two-entry descriptor named it; otherwise it holds the variable of the last such descriptor |
| `KenKen.RunConstraints` | kenken_csp.py:71-120 | the constraint list has one entry per cage descriptor, in descriptor order; the entry for cage i is built from the grid as it stood at i's turn |
| `KenKen.RunReadsPrefix` | kenken_csp.py:71-127 | the grid and constraints after k descriptors depend only on the first k descriptors, so a later fix does not narrow an earlier cage |
| `KenKen.RunDomainsDistinct` | kenken_csp.py:123-127 | no domain in the grid repeats a value at any point |
| `KenKen.DivisionDefinedAt` | kenken_csp.py:105-111 | on boards where no divide cage holds a cell fixed to 0, every divide cage of two or more cells sees only nonzero values, so no division by zero occurs |
| `KenKen.CageConstraintOf` | kenken_csp.py:72-120 | the cage constraint built by the loops has the cells' variables as its scope, in listed order, and `CageSat` of their domains as its tuples |
| `KenKen.CageConstraintMeaning` | kenken_csp.py:75-88 | a tuple is in a cage constraint iff it has one value per cell, each value comes from the domain of the cell at that position, and the cage rule accepts it |
| `KenKen.AddVariables` | kenken_csp.py:137-140 | the variables are registered row by row |
| `KenKen.FlattenGrid` | kenken_csp.py:137-140 | the row-by-row list of an n-wide grid has length rows times n, and cell (r, c) is at position r * n + c |
| `KenKen.BuildCsp` | kenken_csp.py:135-146 | the CSP is named "Kenken", holds the grid's variables row by row, and holds the constraints in list order |
| `KenKen.KenKenCspModel` | kenken_csp.py:10-146 | the returned CSP and grid are `Model(grid)`: the descriptors folded in order, then the not-equal constraints of the final grid |
| `KenKen.ModelVariables` | kenken_csp.py:135-146 | the returned grid is N by N, the CSP holds N * N variables, and cell (r, c) is at position r * N + c |
| `KenKen.ModelConstraintCount` | kenken_csp.py:129-146 | there are (number of cage descriptors) + N * N * (N - 1) constraints |
| `KenKen.ModelConstraintParts` | kenken_csp.py:129-146 | the constraint list is the cage constraints followed by the not-equal constraints of the final grid |
| `KenKen.ModelCage` | kenken_csp.py:71-120 | cage k's constraint is at its position in the list and uses the grid of its turn; a tuple occurs `Kept` times if it comes from the domains and 0 times otherwise |
| `KenKen.ModelNotEqual` | kenken_csp.py:129-133 | a not-equal constraint for cells (a, b) is present iff (a, b) is a canonical pair; its tuples are exactly the unequal value pairs from the two final domains |
| `KenKen.RealizedOnce` | kenken_csp.py:130-133 | the row and column loops emit the constraint for a cell pair iff the pair is canonical |
| `KenKen.TwoByTwoWithoutCages` | kenken_csp.py:129-133 | a 2 by 2 board without cages gets 4 not-equal constraints |
| `KenKen.FixedCellExample` | kenken_csp.py:123-133 | fixing cell 11 to 3 on a 3 by 3 board gives cell (0, 0) the domain [3], and its constraint with (0, 1) allows exactly (3, 1) and (3, 2) |
| `KenKen.FixedCellNameClash` | kenken_csp.py:64-127 | fixing cell 23 on a 3 by 3 board gives it the name V12, which cell (0, 1) also has |
| `Cages.CageTuples` | kenken_csp.py:86-119 | the product loop with the four operator branches builds `CageSat` of the domains |
| `Cages.AppendPerOrdering` | kenken_csp.py:97-111 | a subtract or divide tuple is appended once per ordering that matches |
| `Cages.SumOf` | kenken_csp.py:91-93 | the addition loop computes the sum |
| `Cages.ProductOf` | kenken_csp.py:114-116 | the multiplication loop computes the product |
| `Cages.DifferenceOf` | kenken_csp.py:99-101 | the subtraction loop computes the left-to-right difference |
| `Cages.QuotientOf` | kenken_csp.py:107-109 | the division loop computes the exact left-to-right quotient |
| `Cages.DivisionMatches` | kenken_csp.py:106-110 | an ordering matches under division iff its first value equals the target times the product of the rest |
| `Cages.CageSatMember` | kenken_csp.py:88-118 | a tuple is kept iff it is in the product of the domains and the cage rule accepts it |
| `Cages.CageSatCount` | kenken_csp.py:88-118 | a tuple occurs (times drawn from the product) times (times kept) |
| `Cages.CageSatOverDistinctDomains` | kenken_csp.py:88-118 | over domains without repeats, add and multiply keep a tuple at most once, and subtract and divide keep it once per matching ordering |
| `Cages.KeptMeansAccepted` | kenken_csp.py:88-118 | a tuple is kept at least once iff the cage rule accepts it: the sum or product is the target, or some ordering reduces to it |
| `Cages.CountMatchingPositive` | kenken_csp.py:98-103 | the count of matching orderings is positive iff some listed ordering matches |
| `Cages.CopiesCount` | kenken_csp.py:102-103 | appending a tuple k times adds exactly k copies of it and nothing else |
| `Cages.CollectCount` | kenken_csp.py:88-118 | the tuples collected from a list occur (occurrences in the list) times (times kept) |
| `Cages.UnknownOperatorKeepsNothing` | kenken_csp.py:89-118 | an operator code outside 0..3 gives no tuples |
| `Cages.SubtractClosedForm` | kenken_csp.py:97-103 | a subtract tuple is accepted iff 2 * t[i] - sum(t) equals the target for some i |
| `Cages.DivideClosedForm` | kenken_csp.py:105-111 | a divide tuple of nonzero values is accepted iff t[i] * t[i] equals the target times prod(t) for some i |
| `Arith.SumOrderFree` | kenken_csp.py:91-93 | the sum does not depend on the order of the values |
| `Arith.ProdOrderFree` | kenken_csp.py:114-116 | the product does not depend on the order of the values |
| `Arith.DifferenceIsHeadMinusRest` | kenken_csp.py:99-101 | the left-to-right difference is the first value minus the sum of the rest |
| `Arith.QuotientTimesDivisors` | kenken_csp.py:107-109 | the left-to-right quotient times the product of the divisors gives the first value back |
| `Arith.QuotientMatches` | kenken_csp.py:107-110 | the quotient equals the target iff the first value equals the target times the product of the rest |
| `Tuples.ProductCount` | kenken_csp.py:88 | `itertools.product` yields each tuple as many times as it can be drawn from the domains |
| `Tuples.ProductMember` | kenken_csp.py:88 | a tuple is in the product iff each component comes from the domain at its position |
| `Tuples.ProductCountDistinct` | kenken_csp.py:88 | over domains without repeats, the product yields each tuple at most once |
| `Tuples.PermsMember` | kenken_csp.py:98 | `itertools.permutations(t)` yields exactly the rearrangements of t |
| `Tuples.PermsLength` | kenken_csp.py:98 | `itertools.permutations(t)` yields factorial(len(t)) orderings |
| `Tuples.PermsSound` | kenken_csp.py:106 | every yielded ordering has the same values as t |
| `Tuples.PermsComplete` | kenken_csp.py:106 | every rearrangement of t is yielded |
| `NotEqual.NotEqualTuplesOf` | kenken_csp.py:166-169 | the product loop keeps the unequal pairs of `domain1 x domain2` |
| `NotEqual.NotEqualTuplesExact` | kenken_csp.py:166-169 | a pair is kept iff its components come from the two domains and differ; over domains without repeats, it is kept at most once |
| `NotEqual.NotEqualTuplesCount` | kenken_csp.py:166-169 | an unequal pair occurs as often as it can be drawn; an equal pair never occurs |
| `NotEqual.PairConstraint` | kenken_csp.py:156-171 | one constraint for a cell pair: scope `[var1, var2]` and the unequal pairs of their domains |
| `NotEqual.BinaryNotEqual` | kenken_csp.py:148-172 | `binary_not_equal(vars, i, j, axis)` gives one constraint per later cell in the row or the column, in order |
| `NotEqual.LineDistinct` | kenken_csp.py:152-164 | one call of `binary_not_equal` never emits the same pair twice |
| `NotEqual.LineCount` | kenken_csp.py:152-164 | one call emits (i, j) paired with each cell after it on the chosen line, and nothing else |
| `NotEqual.RowColumnConstraints` | kenken_csp.py:129-133 | the row and column loops emit the not-equal constraints of `AllPairs(N)`, in loop order |
| `NotEqual.CellsUpToCount` | kenken_csp.py:131-133 | the loop over j within row i emits each canonical pair starting in that row before column j once |
| `NotEqual.RowsUpToCount` | kenken_csp.py:130-133 | the loops over rows before i emit each canonical pair starting in those rows once |
| `NotEqual.AllPairsCount` | kenken_csp.py:130-133 | every canonical pair is emitted exactly once, and no other pair is emitted |
| `NotEqual.PairCoveredOnce` | kenken_csp.py:130-133 | two distinct cells sharing a row or a column are covered exactly once, in one of the two orders |
| `NotEqual.AllPairsLength` | kenken_csp.py:130-133 | there are N * N * (N - 1) not-equal constraints |

## Left out

- The CSP library (`Variable`, `Constraint`, `CSP`, `add_satisfying_tuples`, `add_var`, `add_constraint`) is not part of this model. A variable is a name and a domain. A constraint is a name, a scope and a tuple list. The CSP is a name, a variable list and a constraint list.
- Domain sharing is not modelled. The source hands the same domain list to every initial variable; whether the library copies it is not visible, and the model treats domains as values.
- Floating point is replaced by exact arithmetic. The source compares the float quotient `p[0] / p[1] / ...` with the target; the model uses exact rational division.
- Malformed input is excluded by `WellFormed`, since the source does not check it:
  - a cell code outside 10..99, or with a digit 0 or above N (Python would wrap a 0 digit to index -1, or raise IndexError);
  - a descriptor with fewer than two entries (IndexError);
  - a board without a size entry.
  Repeated cells in a cage are allowed and modelled as written.
- The ZeroDivisionError path is excluded by `DivisionDefined`, which requires exactly that no divide cage of two or more cells holds a cell fixed to 0.
- Tuple order: `Product` and `Perms` follow itertools' order, but the lemmas describe tuple lists by multiplicity, not by position.
- Names are kept as pairs of numbers, not formatted strings. For N <= 9 the pairs are the strings' digits.
