/**
 The rendering of a syntax tree back to a concrete tree with as few parentheses as the grammar allows.
 Some nodes have two forms without parentheses of their own (`a IS NOT NULL` and `NOT a ISNULL`,
 `a NOT IN (..)` and `NOT (a IN (..))`); the place of the node decides which one is better.
 */
module Rendering {
  import opened Tokens
  import opened Precedence
  import opened Syntax
  import opened Machine
  import opened Soundness
  import opened Completeness
  import opened Ast

  /** The node of an expression, if the token list is one. */
  function ParseNode(ts: List<Token>): Option<Node> {
    match Parse(ts)
    case Some(e) => ParseIsSound(ts, e); Some(BuildExpr(e))
    case None => None
  }

  // ----- rendering -----

  /** Parenthesises an operand that `t` would not leave whole. */
  function GuardLeft(o: Operand, t: Token): Operand {
    if Closes(o, t) then o else Paren(Plain(o))
  }

  function GuardLeftExpr(e: Expr, t: Token): Expr {
    if ExprCloses(e, t) then e else Plain(Paren(e))
  }

  function GuardRightExpr(rule: Option<Prec>, e: Expr): Expr {
    if ExprOpens(rule, e) then e else Plain(Paren(e))
  }

  /** `a IS NOT NULL` is also `NOT a ISNULL`. */
  predicate IsNotNullTest(n: Node) {
    n.OpUnary? && n.unary == LogicalNot && n.expr.OpUnary? && n.expr.unary == IsNull
  }

  /** The negation of a test that has a NOT of its own. */
  predicate IsNegatedTest(n: Node) {
    n.OpUnary? && n.unary == LogicalNot && (n.expr.OpIn? || n.expr.OpInSelect? || n.expr.OpExists?)
  }

  /** The best form of the node is an `expr` and not an `operand`. For a negated test that is so when
      the NOT leaves the subject whole. */
  predicate OnlyExpr(n: Node)
    decreases n, 0
  {
    || n.OpAnd? || n.OpOr? || n.OpBetween? || n.OpIn? || n.OpInSelect? || n.OpExists?
    || (IsNegatedTest(n) && (n.expr.OpExists? || Closes(RenderOperand(n.expr.expr), Kw(NOT))))
  }

  function RenderOperand(n: Node): Operand
    decreases n, 3
  {
    if OnlyExpr(n) then Paren(RenderOnlyExpr(n)) else
    match n
    case Star => Leaf(Sym('*'))
    case TableStar(t) => Dotted(t, Sym('*'))
    case ColumnRef(x) => Leaf(Ident(x))
    case TableColumn(t, x) => Dotted(t, Ident(x))
    case StringLiteral(x) => Leaf(Str(x))
    case IntLiteral(x) => Leaf(Int(x))
    case FloatLiteral(x) => Leaf(Float(x))
    case NullLiteral => Leaf(Kw(NULL))
    case Parameter => Leaf(Sym('?'))
    case Named(x) => NamedParameter(x)
    case Select(id) => SubSelect(id)
    case FunctionRef(f, distinct, args) => Call(Ident(f), distinct, RenderItems(args))
    case OpCase(base, arms, otherwise) => Case(RenderOpt(base), RenderArms(arms), RenderOpt(otherwise))
    case OpUnary(op, a) => RenderUnary(op, a)
    case OpBinary(l, op, r) =>
      Infix(GuardLeft(RenderOperand(l), FirstToken(op)), op, RenderRight(InfixRule(op), r))
  }

  function RenderUnary(op: UnaryOp, a: Node): Operand
    decreases OpUnary(op, a), 2
  {
    match op
    case UnaryMinus => Neg(RenderRight(NEG_RULE, a))
    case LogicalNot =>
      if IsNotNullTest(OpUnary(op, a)) then RenderNullTest(a.expr, IsNotNull) else Not(RenderOperand(a))
    case IsNull => RenderNullTest(a, IsNullWord)
  }

  function RenderNullTest(a: Node, test: NullTest): Operand
    decreases a, 4
  {
    Postfix(GuardLeft(RenderOperand(a), TestToken(test)), test)
  }

  /** The last operand of `rule`: it must not be cut short. A prefix NOT in front of it never is. */
  function RenderRight(rule: Option<Prec>, n: Node): Operand
    decreases n, 4
  {
    var o := RenderOperand(n);
    if Opens(rule, o) then o
    else if IsNotNullTest(n) then Not(RenderOperand(n.expr))
    else Paren(Plain(o))
  }

  function RenderOnlyExpr(n: Node): Expr
    requires OnlyExpr(n)
    decreases n, 1
  {
    match n
    case OpAnd(l, r) => And(GuardLeftExpr(Render(l), Kw(AND)), GuardRightExpr(AND_RULE, Render(r)))
    case OpOr(l, r) => Or(GuardLeftExpr(Render(l), Kw(OR)), GuardRightExpr(OR_RULE, Render(r)))
    case OpBetween(a, lo, hi) => Between(RenderOperand(a), RenderOperand(lo), RenderOperand(hi))
    case OpUnary(_, test) => RenderTest(true, test)
    case _ => RenderTest(false, n)
  }

  function RenderTest(negated: bool, n: Node): Expr
    requires n.OpIn? || n.OpInSelect? || n.OpExists?
    decreases n, 0
  {
    match n
    case OpIn(a, items) => InList(RenderOperand(a), negated, RenderItems(items))
    case OpInSelect(a, id) => InSelect(RenderOperand(a), negated, id)
    case OpExists(id) => Exists(negated, id)
  }

  function Render(n: Node): Expr
    decreases n, 5
  {
    if OnlyExpr(n) then RenderOnlyExpr(n) else Plain(RenderOperand(n))
  }

  function RenderOpt(n: OptNode): OptExpr {
    match n
    case NoNode => NoExpr
    case SomeNode(x) => SomeExpr(Render(x))
  }

  function RenderItems(ns: NodeList): Items {
    match ns
    case NoNodes => NoItems
    case Nodes(init, n, a) => Snoc(RenderItems(init), Render(n), if a.None? then NoAlias else As(Ident(a.value)))
  }

  function RenderArms(ns: NodeArms): Arms {
    match ns
    case NoNodeArms => NoArms
    case NodeArm(init, w, t) => Arm(RenderArms(init), Render(w), Render(t))
  }

  /** What the makers guarantee: a CASE has an arm, and DISTINCT has an argument to bind to. */
  predicate Buildable(n: Node) {
    match n
    case FunctionRef(_, distinct, args) => BuildableList(args) && (distinct ==> args.Nodes?)
    case OpUnary(_, a) => Buildable(a)
    case OpBinary(l, _, r) => Buildable(l) && Buildable(r)
    case OpAnd(l, r) => Buildable(l) && Buildable(r)
    case OpOr(l, r) => Buildable(l) && Buildable(r)
    case OpBetween(a, lo, hi) => Buildable(a) && Buildable(lo) && Buildable(hi)
    case OpCase(base, arms, otherwise) =>
      arms.NodeArm? && BuildableOpt(base) && BuildableArms(arms) && BuildableOpt(otherwise)
    case OpIn(a, items) => Buildable(a) && BuildableList(items)
    case OpInSelect(a, _) => Buildable(a)
    case _ => true
  }

  predicate BuildableOpt(n: OptNode) {
    n.SomeNode? ==> Buildable(n.node)
  }

  predicate BuildableList(ns: NodeList) {
    ns.Nodes? ==> BuildableList(ns.init) && Buildable(ns.last)
  }

  predicate BuildableArms(ns: NodeArms) {
    ns.NodeArm? ==> BuildableArms(ns.init) && Buildable(ns.when) && Buildable(ns.then_)
  }

  // ----- the rendering is legal and stands for its node -----

  lemma GuardLeftKeeps(o: Operand, t: Token)
    requires LegalOperand(o)
    ensures LegalOperand(GuardLeft(o, t)) && Closes(GuardLeft(o, t), t) && Build(GuardLeft(o, t)) == Build(o)
  {
    assert BuildExpr(Plain(o)) == Build(o);
  }

  lemma GuardExprKeeps(e: Expr, t: Token, rule: Option<Prec>)
    requires LegalExpr(e)
    ensures LegalExpr(GuardLeftExpr(e, t)) && ExprCloses(GuardLeftExpr(e, t), t)
              && BuildExpr(GuardLeftExpr(e, t)) == BuildExpr(e)
    ensures LegalExpr(GuardRightExpr(rule, e)) && ExprOpens(rule, GuardRightExpr(rule, e))
    ensures BuildExpr(GuardRightExpr(rule, e)) == BuildExpr(e)
  {
    assert LegalOperand(Paren(e)) && Build(Paren(e)) == BuildExpr(e);
    assert LegalExpr(Plain(Paren(e))) && BuildExpr(Plain(Paren(e))) == BuildExpr(e);
  }

  /** Every operator is stronger than a prefix NOT. */
  lemma {:induction false} NotTakesAll(o: Operand)
    ensures Opens(NOT_RULE, o)
  {
    match o
    case Postfix(a, _) => NotTakesAll(a);
    case Infix(l, op, _) => NotTakesAll(l);
    case _ =>
  }

  lemma NotKeeps(o: Operand)
    requires LegalOperand(o)
    ensures LegalOperand(Not(o)) && Build(Not(o)) == OpUnary(LogicalNot, Build(o))
  {
    NotTakesAll(o);
  }

  lemma {:induction false} RenderNullTestBuilds(a: Node, test: NullTest)
    requires Buildable(a)
    ensures var o := RenderNullTest(a, test);
            LegalOperand(o) && Build(o) == Negate(test == IsNotNull, OpUnary(IsNull, a))
    decreases a, 4
  {
    RenderOperandBuilds(a);
    GuardLeftKeeps(RenderOperand(a), TestToken(test));
  }

  lemma {:induction false} RenderRightBuilds(rule: Option<Prec>, n: Node)
    requires Buildable(n)
    ensures LegalOperand(RenderRight(rule, n)) && Opens(rule, RenderRight(rule, n)) && Build(RenderRight(rule, n)) == n
    decreases n, 4
  {
    RenderOperandBuilds(n);
    var o := RenderOperand(n);
    if !Opens(rule, o) {
      if IsNotNullTest(n) {
        RenderOperandBuilds(n.expr);
        NotKeeps(RenderOperand(n.expr));
      } else {
        assert BuildExpr(Plain(o)) == Build(o);
      }
    }
  }

  lemma {:induction false} RenderUnaryBuilds(op: UnaryOp, a: Node)
    requires Buildable(a)
    ensures LegalOperand(RenderUnary(op, a)) && Build(RenderUnary(op, a)) == OpUnary(op, a)
    decreases OpUnary(op, a), 2
  {
    match op
    case UnaryMinus => RenderRightBuilds(NEG_RULE, a);
    case LogicalNot =>
      if IsNotNullTest(OpUnary(op, a)) {
        RenderNullTestBuilds(a.expr, IsNotNull);
      } else {
        RenderOperandBuilds(a);
        NotKeeps(RenderOperand(a));
      }
    case IsNull => RenderNullTestBuilds(a, IsNullWord);
  }

  lemma {:induction false} RenderBinaryBuilds(l: Node, op: InfixOp, r: Node)
    requires Buildable(l) && Buildable(r)
    ensures var o := Infix(GuardLeft(RenderOperand(l), FirstToken(op)), op, RenderRight(InfixRule(op), r));
            LegalOperand(o) && Build(o) == OpBinary(l, op, r)
    decreases OpBinary(l, op, r), 2
  {
    RenderOperandBuilds(l);
    GuardLeftKeeps(RenderOperand(l), FirstToken(op));
    RenderRightBuilds(InfixRule(op), r);
  }

  lemma {:induction false} RenderOperandBuilds(n: Node)
    requires Buildable(n)
    ensures LegalOperand(RenderOperand(n)) && Build(RenderOperand(n)) == n
    decreases n, 3
  {
    if OnlyExpr(n) {
      RenderOnlyExprBuilds(n);
    } else if n.FunctionRef? {
      RenderItemsBuilds(n.args);
    } else if n.OpCase? {
      RenderOptBuilds(n.base);
      RenderArmsBuilds(n.arms);
      RenderOptBuilds(n.otherwise);
    } else if n.OpUnary? {
      RenderUnaryBuilds(n.unary, n.expr);
    } else if n.OpBinary? {
      RenderBinaryBuilds(n.expr, n.op, n.expr2);
    }
  }

  lemma {:induction false} RenderTestBuilds(negated: bool, n: Node)
    requires Buildable(n) && (n.OpIn? || n.OpInSelect? || n.OpExists?)
    requires negated && !n.OpExists? ==> Closes(RenderOperand(n.expr), Kw(NOT))
    ensures LegalExpr(RenderTest(negated, n)) && BuildExpr(RenderTest(negated, n)) == Negate(negated, n)
    decreases n, 0
  {
    match n
    case OpIn(a, items) =>
      RenderOperandBuilds(a);
      RenderItemsBuilds(items);
    case OpInSelect(a, _) => RenderOperandBuilds(a);
    case OpExists(_) =>
  }

  lemma LogicForms(l: Node, r: Node)
    ensures RenderOnlyExpr(OpAnd(l, r)) == And(GuardLeftExpr(Render(l), Kw(AND)), GuardRightExpr(AND_RULE, Render(r)))
    ensures RenderOnlyExpr(OpOr(l, r)) == Or(GuardLeftExpr(Render(l), Kw(OR)), GuardRightExpr(OR_RULE, Render(r)))
  {}

  lemma LogicBuilds(l: Node, r: Node)
    requires LegalExpr(Render(l)) && BuildExpr(Render(l)) == l
    requires LegalExpr(Render(r)) && BuildExpr(Render(r)) == r
    ensures LegalExpr(RenderOnlyExpr(OpAnd(l, r))) && BuildExpr(RenderOnlyExpr(OpAnd(l, r))) == OpAnd(l, r)
    ensures LegalExpr(RenderOnlyExpr(OpOr(l, r))) && BuildExpr(RenderOnlyExpr(OpOr(l, r))) == OpOr(l, r)
  {
    hide Render, RenderOnlyExpr, GuardLeftExpr, GuardRightExpr, Resolve, TokenPrec;
    LogicForms(l, r);
    GuardExprKeeps(Render(l), Kw(AND), None);
    GuardExprKeeps(Render(l), Kw(OR), None);
    GuardExprKeeps(Render(r), Kw(AND), AND_RULE);
    GuardExprKeeps(Render(r), Kw(OR), OR_RULE);
  }

  lemma {:induction false} RenderOnlyExprBuilds(n: Node)
    requires Buildable(n) && OnlyExpr(n)
    ensures LegalExpr(RenderOnlyExpr(n)) && BuildExpr(RenderOnlyExpr(n)) == n
    decreases n, 1
  {
    if n.OpAnd? || n.OpOr? {
      RenderBuilds(n.expr);
      RenderBuilds(n.expr2);
      LogicBuilds(n.expr, n.expr2);
    } else if n.OpBetween? {
      RenderOperandBuilds(n.expr);
      RenderOperandBuilds(n.low);
      RenderOperandBuilds(n.high);
      BetweenTakesAll(RenderOperand(n.high));
    } else if n.OpUnary? {
      RenderTestBuilds(true, n.expr);
    } else {
      RenderTestBuilds(false, n);
    }
  }

  /** Every node is the value of its rendering. */
  lemma {:induction false} RenderBuilds(n: Node)
    requires Buildable(n)
    ensures LegalExpr(Render(n)) && BuildExpr(Render(n)) == n
    decreases n, 5
  {
    if OnlyExpr(n) {
      RenderOnlyExprBuilds(n);
    } else {
      RenderOperandBuilds(n);
    }
  }

  lemma {:induction false} RenderOptBuilds(n: OptNode)
    requires BuildableOpt(n)
    ensures LegalOpt(RenderOpt(n)) && BuildOpt(RenderOpt(n)) == n
    decreases n
  {
    if n.SomeNode? {
      RenderBuilds(n.node);
    }
  }

  lemma {:induction false} RenderItemsBuilds(ns: NodeList)
    requires BuildableList(ns)
    ensures LegalItems(RenderItems(ns)) && BuildItems(RenderItems(ns)) == ns
    ensures ns.Nodes? <==> RenderItems(ns).Snoc?
    decreases ns
  {
    if ns.Nodes? {
      RenderItemsBuilds(ns.init);
      RenderBuilds(ns.last);
    }
  }

  lemma {:induction false} RenderArmsBuilds(ns: NodeArms)
    requires BuildableArms(ns)
    ensures LegalArms(RenderArms(ns)) && BuildArms(RenderArms(ns)) == ns
    ensures ns.NodeArm? <==> RenderArms(ns).Arm?
    decreases ns
  {
    if ns.NodeArm? {
      RenderArmsBuilds(ns.init);
      RenderBuilds(ns.when);
      RenderBuilds(ns.then_);
    }
  }

  /** Token round trip: parsing the tokens of a rendered node gives the node back. */
  lemma TokenRoundTrip(n: Node)
    requires Buildable(n)
    ensures ParseNode(ExprTokens(Render(n), Nil)) == Some(n)
  {
    RenderBuilds(n);
    ParseIsComplete(Render(n));
  }
}
