/** Rules as the XML reader hands them to the compiler: trees of events joined by operators. */
module Rules {

  /** A validity window; a bound written with a trailing sign in a rule file is already adjusted by one microsecond. */
  datatype Delay = Delay(timeMin: nat, timeMax: nat, counterMin: nat, counterMax: nat) {
    /** A state with this delay passes the current message straight on to its outgoing transitions. */
    predicate IsZero() {
      timeMax == 0 && timeMin == 0 && counterMax == 0 && counterMin == 0
    }
  }

  datatype Operator = Then | And | Or | Not

  datatype Tree =
    | Event(id: nat)
    | Oper(op: Operator, delay: Delay, context: Tree, trigger: Tree)

  /** The root of a rule carries its own operator; BEFORE is only meaningful there. */
  datatype RuleValue = Plain(op: Operator) | Before

  datatype Rule = Rule(value: RuleValue, delay: Delay, context: Tree, trigger: Tree)

  function Size(t: Tree): (n: nat)
    ensures n > 0
  {
    match t
    case Event(_) => 1
    case Oper(_, _, c, g) => 1 + Size(c) + Size(g)
  }

  /** Event identifiers start from 1; 0 stands for the timeout event. */
  predicate PositiveIds(t: Tree) {
    match t
    case Event(id) => id > 0
    case Oper(_, _, c, g) => PositiveIds(c) && PositiveIds(g)
  }

  /** The events of a tree, from left to right. */
  function Leaves(t: Tree): (r: seq<nat>)
    ensures |r| > 0
  {
    match t
    case Event(id) => [id]
    case Oper(_, _, c, g) => Leaves(c) + Leaves(g)
  }

  /** The delay of the operator that sits between leaf k and leaf k+1, for every k. */
  function Delays(t: Tree): (r: seq<Delay>)
    ensures |r| == |Leaves(t)| - 1
  {
    match t
    case Event(_) => []
    case Oper(_, d, c, g) => Delays(c) + [d] + Delays(g)
  }

  /** Trees that use THEN only. */
  predicate OnlyThen(t: Tree) {
    match t
    case Event(_) => true
    case Oper(op, _, c, g) => op == Then && OnlyThen(c) && OnlyThen(g)
  }

  predicate Distinct<T(==)>(s: seq<T>) {
    forall i, j :: 0 <= i < j < |s| ==> s[i] != s[j]
  }
}
