/**
 The syntax tree that the semantic actions build.
 */
module Ast {
  import opened Tokens
  import opened Syntax

  datatype UnaryOp = UnaryMinus | LogicalNot | IsNull

  /** `Expr` values by the maker that produces them (src/sql/Expr.cpp:42-223). */
  datatype Node =
    | Star
    | TableStar(table: string)
    | ColumnRef(name: string)
    | TableColumn(table: string, name: string)
    | StringLiteral(text: string)
    | IntLiteral(text: string)
    | FloatLiteral(text: string)
    | NullLiteral
    | Parameter
    | Named(name: string)
    | Select(id: nat)
    | FunctionRef(name: string, distinct: bool, args: NodeList)
    | OpUnary(unary: UnaryOp, expr: Node)
    | OpBinary(expr: Node, op: InfixOp, expr2: Node)
    | OpAnd(expr: Node, expr2: Node)
    | OpOr(expr: Node, expr2: Node)
    | OpBetween(expr: Node, low: Node, high: Node)
    | OpCase(base: OptNode, arms: NodeArms, otherwise: OptNode)
    | OpIn(expr: Node, items: NodeList)
    | OpInSelect(expr: Node, id: nat)
    | OpExists(id: nat)

  datatype OptNode = NoNode | SomeNode(node: Node)

  datatype NodeList = NoNodes | Nodes(init: NodeList, last: Node, alias: Option<string>)

  datatype NodeArms = NoNodeArms | NodeArm(init: NodeArms, when: Node, then_: Node)

  // ----- semantic actions -----

  function NameText(t: Token): string
    requires IsName(t)
  {
    match t
    case Ident(n) => n
    case Str(b) => b
    case Kw(RECURSIVE) => "recursive"
    case Kw(TEXT) => "text"
    case Kw(ON) => "ON"
    case Kw(KEY) => "key"
    case Kw(TEMP) => "temp"
    case Kw(_) => "replace"
  }

  function AliasText(a: Alias): Option<string>
    requires LegalAlias(a)
  {
    if a.NoAlias? then None else Some(NameText(a.name))
  }

  function BuildLeaf(t: Token): Node
    requires IsLeaf(t)
  {
    match t
    case Ident(n) => ColumnRef(n)
    case Float(x) => FloatLiteral(x)
    case Int(x) => IntLiteral(x)
    case Sym(c) => if c == '*' then Star else Parameter
    case _ => if t == Kw(NULL) then NullLiteral else StringLiteral(NameText(t))
  }

  function Negate(negated: bool, n: Node): Node {
    if negated then OpUnary(LogicalNot, n) else n
  }

  function Build(o: Operand): Node
    requires LegalOperand(o)
  {
    match o
    case Leaf(t) => BuildLeaf(t)
    case Dotted(table, column) => if column == Sym('*') then TableStar(table) else TableColumn(table, NameText(column))
    case NamedParameter(n) => Named(n)
    case Paren(e) => BuildExpr(e)
    case SubSelect(id) => Select(id)
    case Call(f, distinct, args) => FunctionRef(NameText(f), distinct, BuildItems(args))
    case Case(base, arms, otherwise) => OpCase(BuildOpt(base), BuildArms(arms), BuildOpt(otherwise))
    case Neg(a) => OpUnary(UnaryMinus, Build(a))
    case Not(a) => OpUnary(LogicalNot, Build(a))
    case Postfix(a, test) => Negate(test == IsNotNull, OpUnary(IsNull, Build(a)))
    case Infix(l, op, r) => OpBinary(Build(l), op, Build(r))
  }

  function BuildExpr(e: Expr): Node
    requires LegalExpr(e)
  {
    match e
    case Plain(o) => Build(o)
    case And(l, r) => OpAnd(BuildExpr(l), BuildExpr(r))
    case Or(l, r) => OpOr(BuildExpr(l), BuildExpr(r))
    case Between(o, lo, hi) => OpBetween(Build(o), Build(lo), Build(hi))
    case InList(o, negated, items) => Negate(negated, OpIn(Build(o), BuildItems(items)))
    case InSelect(o, negated, id) => Negate(negated, OpInSelect(Build(o), id))
    case Exists(negated, id) => Negate(negated, OpExists(id))
  }

  function BuildOpt(e: OptExpr): OptNode
    requires LegalOpt(e)
  {
    match e
    case NoExpr => NoNode
    case SomeExpr(x) => SomeNode(BuildExpr(x))
  }

  function BuildItems(items: Items): NodeList
    requires LegalItems(items)
  {
    match items
    case NoItems => NoNodes
    case Snoc(init, e, a) => Nodes(BuildItems(init), BuildExpr(e), AliasText(a))
  }

  function BuildArms(arms: Arms): NodeArms
    requires LegalArms(arms)
  {
    match arms
    case NoArms => NoNodeArms
    case Arm(init, w, t) => NodeArm(BuildArms(init), BuildExpr(w), BuildExpr(t))
  }

  lemma LegalInfix(l: Operand, op: InfixOp, r: Operand)
    ensures LegalOperand(Infix(l, op, r)) <==>
              LegalOperand(l) && LegalOperand(r) && Closes(l, FirstToken(op)) && Opens(InfixRule(op), r)
    ensures LegalOperand(Infix(l, op, r)) ==> Build(Infix(l, op, r)) == OpBinary(Build(l), op, Build(r))
  {}
}
