/** The data carried by the CSP library the builder hands its model to.
    The library itself (its registration methods and its solver) is not
    part of this model: a variable is a name and a domain, a constraint a
    name, an ordered scope and an explicit list of satisfying tuples, and
    the CSP a name with its variables and constraints in registration
    order. */
module CspData {

  /** A variable name 'V{a}{b}', kept as its two numbers. */
  datatype Label = Label(a: int, b: int)

  /** A constraint name: 'C(Cage{index})' or 'C(V..,V..)'. */
  datatype ConstraintLabel = CageLabel(index: int) | PairLabel(first: Label, second: Label)

  datatype Variable = Variable(name: Label, domain: seq<int>)

  datatype Constraint = Constraint(name: ConstraintLabel, scope: seq<Variable>, tuples: seq<seq<int>>)

  datatype Csp = Csp(name: string, variables: seq<Variable>, constraints: seq<Constraint>)

  /** The domains of a scope, position by position. */
  function Domains(scope: seq<Variable>): seq<seq<int>>
  {
    seq(|scope|, m requires 0 <= m < |scope| => scope[m].domain)
  }
}
