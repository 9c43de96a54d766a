/**
 The semantic actions of the expression rules as an instruction set on a stack of values.
 */
module Actions {
  import opened Tokens
  import opened Syntax
  import opened Ast

  /** A semantic value: a token's string, an expression, an expression list, a list of arms. */
  datatype Meaning =
    | StringM(text: string)
    | ExprM(node: Node)
    | ListM(nodes: NodeList)
    | ArmsM(arms: NodeArms)

  datatype Action =
    | Atom(node: Node)               // a node without children, with the strings of its tokens
    | Name(text: string)             // the string of a name token
    | Unary(unary: UnaryOp)
    | Binary(op: InfixOp)
    | Conjunction
    | Disjunction
    | BetweenAction
    | FirstItem(alias: Option<string>)
    | NextItem(alias: Option<string>)
    | EmptyCall
    | CallAction(distinct: bool)
    | EmptyIn
    | ListIn
    | SelectIn(id: nat)
    | FirstArm
    | NextArm
    | CaseAction(based: bool, otherwise: bool)

  /** Nodes that an `Atom` action can make. */
  predicate IsAtom(n: Node) {
    n.Star? || n.TableStar? || n.ColumnRef? || n.TableColumn? || n.StringLiteral? || n.IntLiteral? || n.FloatLiteral?
    || n.NullLiteral? || n.Parameter? || n.Named? || n.Select? || n.OpExists?
  }

  /** The top of the value stack has the kinds of values that the action takes. */
  predicate Applies(a: Action, s: List<Meaning>) {
    match a
    case Atom(n) => IsAtom(n)
    case Name(_) => true
    case Unary(_) => s.Cons? && s.head.ExprM?
    case Binary(_) => TwoExprs(s)
    case Conjunction => TwoExprs(s)
    case Disjunction => TwoExprs(s)
    case BetweenAction => s.Cons? && s.head.ExprM? && TwoExprs(s.tail)
    case FirstItem(_) => s.Cons? && s.head.ExprM?
    case NextItem(_) => s.Cons? && s.head.ExprM? && s.tail.Cons? && s.tail.head.ListM?
    case EmptyCall => s.Cons? && s.head.StringM?
    case CallAction(_) => s.Cons? && s.head.ListM? && s.tail.Cons? && s.tail.head.StringM?
    case EmptyIn => s.Cons? && s.head.ExprM?
    case ListIn => s.Cons? && s.head.ListM? && s.head.nodes.Nodes? && s.tail.Cons? && s.tail.head.ExprM?
    case SelectIn(_) => s.Cons? && s.head.ExprM?
    case FirstArm => TwoExprs(s)
    case NextArm => TwoExprs(s) && s.tail.tail.Cons? && s.tail.tail.head.ArmsM?
    case CaseAction(based, otherwise) =>
      var s' := if otherwise then (if s.Cons? && s.head.ExprM? then s.tail else Nil) else s;
      s'.Cons? && s'.head.ArmsM? && (based ==> s'.tail.Cons? && s'.tail.head.ExprM?)
  }

  predicate TwoExprs(s: List<Meaning>) {
    s.Cons? && s.head.ExprM? && s.tail.Cons? && s.tail.head.ExprM?
  }

  /** The value stack after the action. */
  function Perform(a: Action, s: List<Meaning>): List<Meaning>
    requires Applies(a, s)
  {
    match a
    case Atom(n) => Cons(ExprM(n), s)
    case Name(x) => Cons(StringM(x), s)
    case Unary(op) => Cons(ExprM(OpUnary(op, s.head.node)), s.tail)
    case Binary(op) => Cons(ExprM(OpBinary(s.tail.head.node, op, s.head.node)), s.tail.tail)
    case Conjunction => Cons(ExprM(OpAnd(s.tail.head.node, s.head.node)), s.tail.tail)
    case Disjunction => Cons(ExprM(OpOr(s.tail.head.node, s.head.node)), s.tail.tail)
    case BetweenAction =>
      Cons(ExprM(OpBetween(s.tail.tail.head.node, s.tail.head.node, s.head.node)), s.tail.tail.tail)
    case FirstItem(alias) => Cons(ListM(Nodes(NoNodes, s.head.node, alias)), s.tail)
    case NextItem(alias) => Cons(ListM(Nodes(s.tail.head.nodes, s.head.node, alias)), s.tail.tail)
    case EmptyCall => Cons(ExprM(FunctionRef(s.head.text, false, NoNodes)), s.tail)
    case CallAction(distinct) => Cons(ExprM(FunctionRef(s.tail.head.text, distinct, s.head.nodes)), s.tail.tail)
    case EmptyIn => Cons(ExprM(OpIn(s.head.node, NoNodes)), s.tail)
    case ListIn => Cons(ExprM(OpIn(s.tail.head.node, s.head.nodes)), s.tail.tail)
    case SelectIn(id) => Cons(ExprM(OpInSelect(s.head.node, id)), s.tail)
    case FirstArm => Cons(ArmsM(NodeArm(NoNodeArms, s.tail.head.node, s.head.node)), s.tail.tail)
    case NextArm => Cons(ArmsM(NodeArm(s.tail.tail.head.arms, s.tail.head.node, s.head.node)), s.tail.tail.tail)
    case CaseAction(based, otherwise) =>
      var s' := if otherwise then s.tail else s;
      var e := if otherwise then SomeNode(s.head.node) else NoNode;
      var b := if based then SomeNode(s'.tail.head.node) else NoNode;
      Cons(ExprM(OpCase(b, s'.head.arms, e)), if based then s'.tail.tail else s'.tail)
  }

  /** The action takes the values `s` to the values `s'`. */
  predicate Does(a: Action, s: List<Meaning>, s': List<Meaning>) {
    Applies(a, s) && s' == Perform(a, s)
  }

  predicate AllApply(actions: List<Action>, s: List<Meaning>) {
    match actions
    case Nil => true
    case Cons(a, rest) => Applies(a, s) && AllApply(rest, Perform(a, s))
  }

  function PerformAll(actions: List<Action>, s: List<Meaning>): List<Meaning>
    requires AllApply(actions, s)
  {
    match actions
    case Nil => s
    case Cons(a, rest) => PerformAll(rest, Perform(a, s))
  }

  /** An action looks only at the top of the stack. */
  lemma ActionAbove(a: Action, s: List<Meaning>, below: List<Meaning>)
    requires Applies(a, s)
    ensures Applies(a, Append(s, below)) && Perform(a, Append(s, below)) == Append(Perform(a, s), below)
  {
    if s.Cons? && s.tail.Cons? {
      assert Append(s, below) == Cons(s.head, Cons(s.tail.head, Append(s.tail.tail, below)));
    }
  }

  lemma {:induction false} ActionsAbove(actions: List<Action>, s: List<Meaning>, below: List<Meaning>)
    requires AllApply(actions, s)
    ensures AllApply(actions, Append(s, below))
    ensures PerformAll(actions, Append(s, below)) == Append(PerformAll(actions, s), below)
  {
    if actions.Cons? {
      ActionAbove(actions.head, s, below);
      ActionsAbove(actions.tail, Perform(actions.head, s), below);
    }
  }
}
