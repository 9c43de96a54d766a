/**
 Concrete syntax trees of the expression grammar, their token yield, and the condition under which
 a tree respects the precedence table.

 Yields are written in continuation form: `OperandTokens(o, ts)` is the yield of `o` followed by
 `ts`. So no lemma below ever has to reassociate a concatenation.
 */
module Syntax {
  import opened Tokens
  import opened Precedence

  /** The binary operators of the `operand` level. */
  datatype InfixOp =
    | Minus | Plus | Slash | Asterisk | Percentage | Caret
    | Like | NotLike | Concatenate
    | Equals | Differs | Less | Greater | AtMost | AtLeast

  datatype NullTest = IsNullWord | IsNullPair | IsNotNull

  /** `operand` and `expr` are two levels: AND, OR, BETWEEN, IN and EXISTS form only an `expr`. */
  datatype Operand =
    | Leaf(token: Token)
    | Dotted(table: string, column: Token)
    | NamedParameter(name: string)
    | Paren(inner: Expr)
    | SubSelect(id: nat)
    | Call(function_: Token, distinct: bool, args: Items)
    | Case(base: OptExpr, arms: Arms, otherwise: OptExpr)
    | Neg(arg: Operand)
    | Not(arg: Operand)
    | Postfix(arg: Operand, test: NullTest)
    | Infix(left: Operand, op: InfixOp, right: Operand)

  datatype Expr =
    | Plain(operand: Operand)
    | And(left: Expr, right: Expr)
    | Or(left: Expr, right: Expr)
    | Between(subject: Operand, low: Operand, high: Operand)
    | InList(subject: Operand, negated: bool, items: Items)
    | InSelect(subject: Operand, negated: bool, id: nat)
    | Exists(negated: bool, id: nat)

  datatype OptExpr = NoExpr | SomeExpr(expr: Expr)

  datatype Alias = NoAlias | Bare(name: Token) | As(name: Token)

  /** `expr_list` and `case_list` are left recursive: the last element is on the outside. */
  datatype Items = NoItems | Snoc(init: Items, last: Expr, alias: Alias)

  datatype Arms = NoArms | Arm(init: Arms, when: Expr, then_: Expr)

  // ----- tokens of operators -----

  /** The lookahead that announces an operator once its left operand is on the stack. */
  function FirstToken(op: InfixOp): Token {
    match op
    case Minus => Sym('-')
    case Plus => Sym('+')
    case Slash => Sym('/')
    case Asterisk => Sym('*')
    case Percentage => Sym('%')
    case Caret => Sym('^')
    case Like => Kw(LIKE)
    case NotLike => Kw(NOT)
    case Concatenate => Concat
    case Equals => Sym('=')
    case Differs => NotEquals
    case Less => Sym('<')
    case Greater => Sym('>')
    case AtMost => LessEq
    case AtLeast => GreaterEq
  }

  /** The last terminal of the operator's rule; it gives the rule its precedence. */
  function LastToken(op: InfixOp): Token {
    if op == NotLike then Kw(LIKE) else FirstToken(op)
  }

  function TestToken(test: NullTest): Token {
    if test == IsNullWord then Kw(ISNULL) else Kw(IS)
  }

  const NEG_RULE := TokenPrec(Sym('-'))
  const NOT_RULE := TokenPrec(Kw(NOT))
  const AND_RULE := TokenPrec(Kw(AND))
  const OR_RULE := TokenPrec(Kw(OR))

  function InfixRule(op: InfixOp): Option<Prec> {
    TokenPrec(LastToken(op))
  }

  // ----- token classes -----

  predicate IsName(t: Token) {
    match t
    case Ident(_) => true
    case Str(_) => true
    case Kw(w) => w == RECURSIVE || w == TEXT || w == ON || w == KEY || w == TEMP || w == REPLACE
    case _ => false
  }

  predicate IsAliasName(t: Token) {
    t.Ident? || t.Str?
  }

  /** Tokens that are an operand on their own. */
  predicate IsLeaf(t: Token) {
    IsName(t) || t.Float? || t.Int? || t == Kw(NULL) || t == Sym('*') || t == Sym('?')
  }

  // ----- yields -----

  function OpTokens(op: InfixOp, ts: List<Token>): List<Token> {
    if op == NotLike then Cons(Kw(NOT), Cons(Kw(LIKE), ts)) else Cons(FirstToken(op), ts)
  }

  function TestTokens(test: NullTest, ts: List<Token>): List<Token> {
    match test
    case IsNullWord => Cons(Kw(ISNULL), ts)
    case IsNullPair => Cons(Kw(IS), Cons(Kw(NULL), ts))
    case IsNotNull => Cons(Kw(IS), Cons(Kw(NOT), Cons(Kw(NULL), ts)))
  }

  function NegatedTokens(negated: bool, t: Token, ts: List<Token>): List<Token> {
    if negated then Cons(Kw(NOT), Cons(t, ts)) else Cons(t, ts)
  }

  function SelectTokens(id: nat, ts: List<Token>): List<Token> {
    Cons(Sym('('), Cons(SubQuery(id), Cons(Sym(')'), ts)))
  }

  function AliasTokens(a: Alias, ts: List<Token>): List<Token> {
    match a
    case NoAlias => ts
    case Bare(n) => Cons(n, ts)
    case As(n) => Cons(Kw(AS), Cons(n, ts))
  }

  function OperandTokens(o: Operand, ts: List<Token>): List<Token> {
    match o
    case Leaf(t) => Cons(t, ts)
    case Dotted(table, column) => Cons(Ident(table), Cons(Sym('.'), Cons(column, ts)))
    case NamedParameter(name) => Cons(Sym(':'), Cons(Ident(name), ts))
    case Paren(e) => Cons(Sym('('), ExprTokens(e, Cons(Sym(')'), ts)))
    case SubSelect(id) => SelectTokens(id, ts)
    case Call(f, distinct, args) =>
      Cons(f, Cons(Sym('('), if distinct then Cons(Kw(DISTINCT), ItemsTokens(args, Cons(Sym(')'), ts)))
                             else ItemsTokens(args, Cons(Sym(')'), ts))))
    case Case(base, arms, otherwise) =>
      Cons(Kw(CASE), OptTokens(base, ArmsTokens(arms, ElseTokens(otherwise, Cons(Kw(END), ts)))))
    case Neg(a) => Cons(Sym('-'), OperandTokens(a, ts))
    case Not(a) => Cons(Kw(NOT), OperandTokens(a, ts))
    case Postfix(a, test) => OperandTokens(a, TestTokens(test, ts))
    case Infix(l, op, r) => OperandTokens(l, OpTokens(op, OperandTokens(r, ts)))
  }

  function ExprTokens(e: Expr, ts: List<Token>): List<Token> {
    match e
    case Plain(o) => OperandTokens(o, ts)
    case And(l, r) => ExprTokens(l, Cons(Kw(AND), ExprTokens(r, ts)))
    case Or(l, r) => ExprTokens(l, Cons(Kw(OR), ExprTokens(r, ts)))
    case Between(o, lo, hi) =>
      OperandTokens(o, Cons(Kw(BETWEEN), OperandTokens(lo, Cons(Kw(AND), OperandTokens(hi, ts)))))
    case InList(o, negated, items) =>
      OperandTokens(o, NegatedTokens(negated, Kw(IN), Cons(Sym('('), ItemsTokens(items, Cons(Sym(')'), ts)))))
    case InSelect(o, negated, id) => OperandTokens(o, NegatedTokens(negated, Kw(IN), SelectTokens(id, ts)))
    case Exists(negated, id) => NegatedTokens(negated, Kw(EXISTS), SelectTokens(id, ts))
  }

  function OptTokens(e: OptExpr, ts: List<Token>): List<Token> {
    match e
    case NoExpr => ts
    case SomeExpr(x) => ExprTokens(x, ts)
  }

  function ElseTokens(e: OptExpr, ts: List<Token>): List<Token> {
    match e
    case NoExpr => ts
    case SomeExpr(x) => Cons(Kw(ELSE), ExprTokens(x, ts))
  }

  function ItemsTokens(items: Items, ts: List<Token>): List<Token> {
    match items
    case NoItems => ts
    case Snoc(init, e, a) =>
      if init.NoItems? then ExprTokens(e, AliasTokens(a, ts))
      else ItemsTokens(init, Cons(Sym(','), ExprTokens(e, AliasTokens(a, ts))))
  }

  function ArmsTokens(arms: Arms, ts: List<Token>): List<Token> {
    match arms
    case NoArms => ts
    case Arm(init, w, t) => ArmsTokens(init, Cons(Kw(WHEN), ExprTokens(w, Cons(Kw(THEN), ExprTokens(t, ts)))))
  }

  // ----- the precedence table as a condition on the two spines of a tree -----

  /** Every rule that ends where `o` ends reduces before the lookahead `t`. */
  predicate Closes(o: Operand, t: Token) {
    match o
    case Neg(a) => Resolve(NEG_RULE, t) == Reduce && Closes(a, t)
    case Not(a) => Resolve(NOT_RULE, t) == Reduce && Closes(a, t)
    case Infix(_, op, r) => Resolve(InfixRule(op), t) == Reduce && Closes(r, t)
    case _ => true
  }

  /** Every operator that follows an operand beginning where `o` begins is shifted although `rule`
      could reduce. */
  predicate Opens(rule: Option<Prec>, o: Operand) {
    match o
    case Postfix(a, test) => Resolve(rule, TestToken(test)) == Shift && Opens(rule, a)
    case Infix(l, op, _) => Resolve(rule, FirstToken(op)) == Shift && Opens(rule, l)
    case _ => true
  }

  /** The same two conditions for the AND/OR level. */
  predicate ExprCloses(e: Expr, t: Token) {
    match e
    case And(_, r) => Resolve(AND_RULE, t) == Reduce && ExprCloses(r, t)
    case Or(_, r) => Resolve(OR_RULE, t) == Reduce && ExprCloses(r, t)
    case _ => true
  }

  predicate ExprOpens(rule: Option<Prec>, e: Expr) {
    match e
    case And(l, _) => Resolve(rule, Kw(AND)) == Shift && ExprOpens(rule, l)
    case Or(l, _) => Resolve(rule, Kw(OR)) == Shift && ExprOpens(rule, l)
    case _ => true
  }

  predicate LegalOperand(o: Operand) {
    match o
    case Leaf(t) => IsLeaf(t)
    case Dotted(_, column) => IsName(column) || column == Sym('*')
    case NamedParameter(_) => true
    case Paren(e) => LegalExpr(e)
    case SubSelect(_) => true
    case Call(f, distinct, args) => IsName(f) && LegalItems(args) && (distinct ==> args.Snoc?)
    case Case(base, arms, otherwise) => LegalOpt(base) && arms.Arm? && LegalArms(arms) && LegalOpt(otherwise)
    case Neg(a) => LegalOperand(a) && Opens(NEG_RULE, a)
    case Not(a) => LegalOperand(a) && Opens(NOT_RULE, a)
    case Postfix(a, test) => LegalOperand(a) && Closes(a, TestToken(test))
    case Infix(l, op, r) =>
      LegalOperand(l) && LegalOperand(r) && Closes(l, FirstToken(op)) && Opens(InfixRule(op), r)
  }

  predicate LegalExpr(e: Expr) {
    match e
    case Plain(o) => LegalOperand(o)
    case And(l, r) => LegalExpr(l) && LegalExpr(r) && ExprCloses(l, Kw(AND)) && ExprOpens(AND_RULE, r)
    case Or(l, r) => LegalExpr(l) && LegalExpr(r) && ExprCloses(l, Kw(OR)) && ExprOpens(OR_RULE, r)
    case Between(o, lo, hi) =>
      // the rule of BETWEEN ends its precedence lookup at AND, below every operand operator
      LegalOperand(o) && LegalOperand(lo) && LegalOperand(hi) && Opens(AND_RULE, hi)
    case InList(o, negated, items) => LegalOperand(o) && LegalItems(items) && (negated ==> Closes(o, Kw(NOT)))
    case InSelect(o, negated, _) => LegalOperand(o) && (negated ==> Closes(o, Kw(NOT)))
    case Exists(_, _) => true
  }

  predicate LegalOpt(e: OptExpr) {
    match e
    case NoExpr => true
    case SomeExpr(x) => LegalExpr(x)
  }

  predicate LegalAlias(a: Alias) {
    a.NoAlias? || IsAliasName(a.name)
  }

  predicate LegalItems(items: Items) {
    match items
    case NoItems => true
    case Snoc(init, e, a) => LegalItems(init) && LegalExpr(e) && LegalAlias(a)
  }

  predicate LegalArms(arms: Arms) {
    match arms
    case NoArms => true
    case Arm(init, w, t) => LegalArms(init) && LegalExpr(w) && LegalExpr(t)
  }

  /** The BETWEEN rule never reduces in favour of an operand operator. */
  lemma {:induction false} BetweenTakesAll(o: Operand)
    ensures Opens(AND_RULE, o)
  {
    match o
    case Postfix(a, _) => BetweenTakesAll(a);
    case Infix(l, op, _) => BetweenTakesAll(l);
    case _ =>
  }
}
