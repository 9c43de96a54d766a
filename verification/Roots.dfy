/**
 What the node of an expression says about its tokens: for every form the type, the operator code
 and the strings of the root, and the tokens that each of its children stands for.
 */
module Roots {
  import opened Tokens
  import opened Syntax
  import opened Machine
  import opened Soundness
  import opened Yields
  import opened Forms
  import opened Readings
  import opened Ast
  import opened Rendering
  import opened Memory
  import opened Nodes

  /** `t` is the heap tree of the tokens `ts`, as `ParseExpression` leaves it; as an element of a list
      it may have an alias. */
  ghost predicate Stands(t: Tree, ts: List<Token>, alias: Option<string>)
    reads Feet(t)
  {
    ParseNode(ts).Some? && Linked(t) && Represents(t, ParseNode(ts).value, alias)
  }

  ghost predicate HasText(s: CString?, text: Option<string>) {
    if text.None? then s == null else s != null && s.text == text.value
  }

  /** The root of `t`: its type, operator code and strings. */
  ghost predicate Root(t: Tree, type_: ExprType, op: OperatorType, name: Option<string>, table: Option<string>)
    reads Feet(t)
  {
    && t.Tree? && t.node.type_ == type_ && t.node.opType == op
    && HasText(t.node.name, name) && HasText(t.node.table, table)
  }

  ghost predicate RootIs(t: Tree, op: OperatorType)
    reads Feet(t)
  {
    Root(t, KOperator, op, None, None)
  }

  /** The fields of the root are the references of the tree. */
  ghost predicate Wired(t: Tree)
    requires t.Tree?
    reads Feet(t)
  {
    t.node.expr == Ref(t.expr) && t.node.expr2 == Ref(t.expr2) && t.node.exprList == VecRef(t.list)
  }

  /** The vector holds the roots of the trees, in order. */
  ghost predicate Lists(ts: Trees)
    reads FeetVector(ts)
  {
    match ts
    case NullVector => true
    case Vector(v, items) =>
      |v.items| == |items| && forall i | 0 <= i < |items| :: items[i].Tree? && items[i].node == v.items[i]
  }

  // ----- opening a node -----

  lemma NodeOf(ts: List<Token>, e: Syntax.Expr)
    requires Is(ts, e)
    ensures LegalExpr(e) && ParseNode(ts) == Some(BuildExpr(e))
  {
    ParseIsSound(ts, e);
  }

  lemma OperandNode(ts: List<Token>, o: Operand)
    requires IsOperand(ts, o)
    ensures LegalOperand(o) && ParseNode(ts) == Some(Build(o))
  {
    hide Parse;
    ParseIsSound(ts, Plain(o));
    assert LegalExpr(Plain(o)) && BuildExpr(Plain(o)) == Build(o);
  }

  /** The tree that a parse leaves behind. */
  lemma BuiltStands(t: Tree, e: Memory.Expr, ts: List<Token>)
    requires ParseNode(ts).Some? && Built(t, e, ParseNode(ts).value)
    ensures Ref(t) == e && Stands(t, ts, None)
  {
    hide ParseNode;
  }

  lemma Opened(t: Tree, n: Node, alias: Option<string>)
    requires Linked(t) && Represents(t, n, alias)
    ensures t.Tree?
    ensures Root(t, HeadOf(n).type_, HeadOf(n).opType, HeadOf(n).name, HeadOf(n).table) && Wired(t) && Lists(t.list)
    ensures t.node.number == HeadOf(n).number && t.node.distinct == HeadOf(n).distinct
    ensures HasText(t.node.alias, alias)
    ensures if HeadOf(n).select.None? then t.node.select == null
            else t.node.select != null && t.node.select.id == HeadOf(n).select.value
    ensures Children(t.expr, t.list, t.expr2, n) && Linked(t.expr) && LinkedVector(t.list) && Linked(t.expr2)
  {
    hide HeadOf, Children, Lists;
    WiredVector(t.list);
  }

  lemma WiredVector(ts: Trees)
    requires LinkedVector(ts)
    ensures Lists(ts)
  {
    hide Linked;
  }

  // ----- single tokens and names -----

  lemma LeafRoot(t: Tree, token: Token, alias: Option<string>)
    requires Stands(t, Cons(token, Nil), alias)
    ensures t.Tree? && Wired(t) && t.expr.NullTree? && t.list.NullVector? && t.expr2.NullTree?
    ensures match token
            case Ident(x) => Root(t, KColumnRef, KNone, Some(x), None)
            case Float(x) => Root(t, KLiteralFloat, KNone, None, None) && t.node.number == x
            case Int(x) => Root(t, KLiteralInt, KNone, None, None) && t.node.number == x
            case Kw(NULL) => Root(t, KLiteralNull, KNone, None, None)
            case Sym('*') => Root(t, KStar, KNone, None, None)
            case Sym('?') => Root(t, KParameter, KNone, None, None)
            case _ => NameIn(token).Some? && Root(t, KLiteralString, KNone, NameIn(token), None)
  {
    hide Parse, Root, Represents, Linked, Children, Wired;
    LeafForm(token);
    OperandNode(Cons(token, Nil), Leaf(token));
    Opened(t, Build(Leaf(token)), alias);
    LeafHead(token);
    LeafChildren(t.expr, t.list, t.expr2, Build(Leaf(token)));
  }

  lemma LeafHead(token: Token)
    requires StandsAlone(token)
    ensures var h := HeadOf(Build(Leaf(token)));
            && h.opType == KNone && h.table == None && Childless(Build(Leaf(token)))
            && match token
               case Ident(x) => h.type_ == KColumnRef && h.name == Some(x)
               case Float(x) => h.type_ == KLiteralFloat && h.name == None && h.number == x
               case Int(x) => h.type_ == KLiteralInt && h.name == None && h.number == x
               case Kw(NULL) => h.type_ == KLiteralNull && h.name == None
               case Sym('*') => h.type_ == KStar && h.name == None
               case Sym('?') => h.type_ == KParameter && h.name == None
               case _ => h.type_ == KLiteralString && h.name == NameIn(token)
  {}

  lemma LeafChildren(x: Tree, ts: Trees, y: Tree, n: Node)
    requires Childless(n) && Children(x, ts, y, n)
    ensures x.NullTree? && ts.NullVector? && y.NullTree?
  {}

  lemma DottedRoot(t: Tree, table: string, column: Token, alias: Option<string>)
    requires Stands(t, Cons(Ident(table), Cons(Sym('.'), Cons(column, Nil))), alias)
    ensures t.Tree? && Wired(t) && t.expr.NullTree? && t.list.NullVector? && t.expr2.NullTree?
    ensures if column == Sym('*') then Root(t, KStar, KNone, None, Some(table))
            else NameIn(column).Some? && Root(t, KColumnRef, KNone, NameIn(column), Some(table))
  {
    hide Parse, Root, Represents, Linked, Children, Wired;
    var ts := Cons(Ident(table), Cons(Sym('.'), Cons(column, Nil)));
    DottedForm(table, column);
    OperandNode(ts, Dotted(table, column));
    var n := Build(Dotted(table, column));
    Opened(t, n, alias);
    LeafChildren(t.expr, t.list, t.expr2, n);
  }

  lemma NamedRoot(t: Tree, name: string, alias: Option<string>)
    requires Stands(t, Cons(Sym(':'), Cons(Ident(name), Nil)), alias)
    ensures t.Tree? && Wired(t) && t.expr.NullTree? && t.list.NullVector? && t.expr2.NullTree?
    ensures Root(t, KNamedParameter, KNone, Some(name), None)
  {
    hide Parse, ParseNode, Root, Represents, Linked, Children, Wired;
    NamedForm(name);
    OperandNode(Cons(Sym(':'), Cons(Ident(name), Nil)), NamedParameter(name));
    var n := Build(NamedParameter(name));
    Opened(t, n, alias);
    LeafChildren(t.expr, t.list, t.expr2, n);
  }

  // ----- operators -----

  /** The infix operators by their tokens, with the operator codes. */
  const OPERATORS: seq<(List<Token>, OperatorType)> := [
    (Cons(Sym('-'), Nil), KMinus), (Cons(Sym('+'), Nil), KPlus), (Cons(Sym('/'), Nil), KSlash),
    (Cons(Sym('*'), Nil), KAsterisk), (Cons(Sym('%'), Nil), KPercentage), (Cons(Sym('^'), Nil), KCaret),
    (Cons(Kw(LIKE), Nil), KLike), (Cons(Kw(NOT), Cons(Kw(LIKE), Nil)), KNotLike), (Cons(Concat, Nil), KConcat),
    (Cons(Sym('='), Nil), KEquals), (Cons(NotEquals, Nil), KNotEquals), (Cons(Sym('<'), Nil), KLess),
    (Cons(Sym('>'), Nil), KGreater), (Cons(LessEq, Nil), KLessEq), (Cons(GreaterEq, Nil), KGreaterEq)]

  /** `t` has exactly the two operands. */
  ghost predicate Operands(t: Tree, xs: List<Token>, ys: List<Token>)
    requires t.Tree?
    reads Feet(t)
  {
    Wired(t) && Stands(t.expr, xs, None) && t.list.NullVector? && Stands(t.expr2, ys, None)
  }

  /** `t` has exactly the one operand. */
  ghost predicate OneOperand(t: Tree, xs: List<Token>)
    requires t.Tree?
    reads Feet(t)
  {
    Wired(t) && Stands(t.expr, xs, None) && t.list.NullVector? && t.expr2.NullTree?
  }

  /** The operator between two operands is the one that the tokens say. */
  lemma CodeOf(op: InfixOp, i: nat, ys: List<Token>)
    requires i < |OPERATORS| && OpTokens(op, ys) == Append(OPERATORS[i].0, ys)
    ensures BinaryCode(op) == OPERATORS[i].1
  {
    OneWord(OPERATORS[i].0, ys);
  }

  lemma OneWord(ws: List<Token>, ys: List<Token>)
    requires ws.Cons?
    ensures Append(ws, ys) == Cons(ws.head, Append(ws.tail, ys))
    ensures ws.tail.Nil? ==> Append(ws, ys) == Cons(ws.head, ys)
    ensures ws.tail.Cons? && ws.tail.tail.Nil? ==> Append(ws, ys) == Cons(ws.head, Cons(ws.tail.head, ys))
  {
    if ws.tail.Cons? {
      assert Append(ws.tail, ys) == Cons(ws.tail.head, Append(ws.tail.tail, ys));
    }
  }

  /** Wherever the tokens of the operator `i` stand between two operands and hold them together, the
      root has its code, and the operands are its children in order. */
  lemma InfixRoot(t: Tree, xs: List<Token>, i: nat, ys: List<Token>, alias: Option<string>,
                  x: Operand, op: InfixOp, y: Operand)
    requires i < |OPERATORS| && IsOperand(xs, x) && IsOperand(ys, y)
    requires IsOperand(Append(xs, Append(OPERATORS[i].0, ys)), Infix(x, op, y))
    requires Stands(t, Append(xs, Append(OPERATORS[i].0, ys)), alias)
    ensures t.Tree? && RootIs(t, OPERATORS[i].1) && Operands(t, xs, ys)
  {
    hide Parse, ParseNode, Root, Represents, Linked, Children, Wired, BinaryCode, OpTokens, LegalOperand;
    var ts := Append(xs, Append(OPERATORS[i].0, ys));
    OperandNode(ts, Infix(x, op, y));
    OperandInPlace(ts, Infix(x, op, y), Nil);
    OperandInPlace(ys, y, Nil);
    OperandInPlace(xs, x, OpTokens(op, ys));
    AppendCancels(xs, OpTokens(op, ys), Append(OPERATORS[i].0, ys));
    CodeOf(op, i, ys);
    OperandNode(xs, x);
    OperandNode(ys, y);
    LegalInfix(x, op, y);
    var n := OpBinary(Build(x), op, Build(y));
    Opened(t, n, alias);
    assert HeadOf(n) == Operator(BinaryCode(op));
    BinaryChildren(t.expr, t.list, t.expr2, n);
  }

  lemma BinaryChildren(x: Tree, ts: Trees, y: Tree, n: Node)
    requires (n.OpBinary? || n.OpAnd? || n.OpOr?) && Children(x, ts, y, n)
    ensures Represents(x, n.expr, None) && ts.NullVector? && Represents(y, n.expr2, None)
  {
    hide Represents;
  }

  lemma UnaryChildren(x: Tree, ts: Trees, y: Tree, n: Node)
    requires n.OpUnary? && Children(x, ts, y, n)
    ensures Represents(x, n.expr, None) && ts.NullVector? && y.NullTree?
  {
    hide Represents;
  }

  lemma LogicNode(xs: List<Token>, and: bool, ys: List<Token>, x: Syntax.Expr, e: Syntax.Expr, y: Syntax.Expr)
    requires Is(xs, x) && Is(ys, y) && (e == And(x, y) || e == Or(x, y))
    requires Is(Append(xs, Cons(if and then Kw(AND) else Kw(OR), ys)), e)
    ensures ParseNode(xs).Some? && ParseNode(ys).Some?
    ensures var l, r := ParseNode(xs).value, ParseNode(ys).value;
            ParseNode(Append(xs, Cons(if and then Kw(AND) else Kw(OR), ys)))
              == Some(if and then OpAnd(l, r) else OpOr(l, r))
  {
    hide Parse, ParseNode, LegalExpr;
    var word := if and then Kw(AND) else Kw(OR);
    var ts := Append(xs, Cons(word, ys));
    ExprInPlace(ts, e, Nil);
    ExprInPlace(ys, y, Nil);
    ExprInPlace(xs, x, Cons(if e.And? then Kw(AND) else Kw(OR), ys));
    AppendCancels(xs, Cons(if e.And? then Kw(AND) else Kw(OR), ys), Cons(word, ys));
    NodeOf(ts, e);
    NodeOf(xs, x);
    NodeOf(ys, y);
  }

  /** AND and OR. */
  lemma LogicRoot(t: Tree, xs: List<Token>, and: bool, ys: List<Token>, alias: Option<string>,
                  x: Syntax.Expr, e: Syntax.Expr, y: Syntax.Expr)
    requires Is(xs, x) && Is(ys, y) && (e == And(x, y) || e == Or(x, y))
    requires Is(Append(xs, Cons(if and then Kw(AND) else Kw(OR), ys)), e)
    requires Stands(t, Append(xs, Cons(if and then Kw(AND) else Kw(OR), ys)), alias)
    ensures t.Tree? && RootIs(t, if and then KAnd else KOr) && Operands(t, xs, ys)
  {
    hide Parse, ParseNode, Root, Represents, Linked, Children, Wired, LegalExpr;
    LogicNode(xs, and, ys, x, e, y);
    var l, r := ParseNode(xs).value, ParseNode(ys).value;
    var n := if and then OpAnd(l, r) else OpOr(l, r);
    Opened(t, n, alias);
    BinaryChildren(t.expr, t.list, t.expr2, n);
  }

  /** The prefixes. NOT always takes the whole operand; the minus sign where the result says so. */
  lemma PrefixRoot(t: Tree, minus: bool, xs: List<Token>, alias: Option<string>, x: Operand, o: Operand)
    requires IsOperand(xs, x) && (minus ==> IsOperand(Cons(Sym('-'), xs), o) && (o == Neg(x) || o == Not(x)))
    requires Stands(t, Cons(if minus then Sym('-') else Kw(NOT), xs), alias)
    ensures t.Tree? && RootIs(t, if minus then KUnaryMinus else KNot) && OneOperand(t, xs)
  {
    hide Parse, ParseNode, Root, Represents, Linked, Children, Wired;
    var ts := Cons(if minus then Sym('-') else Kw(NOT), xs);
    NotForm(xs, x);
    var o' := if minus then o else Not(x);
    OperandInPlace(ts, o', Nil);
    OperandNode(ts, o');
    OperandNode(xs, x);
    var n := OpUnary(if minus then UnaryMinus else LogicalNot, Build(x));
    assert Build(o') == n;
    Opened(t, n, alias);
    UnaryChildren(t.expr, t.list, t.expr2, n);
  }

  const IS_NOT_NULL := Cons(Kw(IS), Cons(Kw(NOT), Cons(Kw(NULL), Nil)))

  predicate IsTest(ws: List<Token>) {
    ws == Cons(Kw(ISNULL), Nil) || ws == Cons(Kw(IS), Cons(Kw(NULL), Nil)) || ws == IS_NOT_NULL
  }

  lemma TestNode(xs: List<Token>, ws: List<Token>, x: Operand, test: NullTest)
    requires IsTest(ws) && IsOperand(xs, x) && IsOperand(Append(xs, ws), Postfix(x, test))
    ensures LegalOperand(x) && ParseNode(xs) == Some(Build(x))
    ensures var test := OpUnary(IsNull, Build(x));
            ParseNode(Append(xs, ws)) == Some(if ws == IS_NOT_NULL then OpUnary(LogicalNot, test) else test)
  {
    hide Parse, ParseNode, LegalOperand;
    var ts := Append(xs, ws);
    OperandInPlace(ts, Postfix(x, test), Nil);
    OperandInPlace(xs, x, TestTokens(test, Nil));
    AppendCancels(xs, TestTokens(test, Nil), ws);
    OperandNode(ts, Postfix(x, test));
    OperandNode(xs, x);
    assert Build(Postfix(x, test)) == Negate(test == IsNotNull, OpUnary(IsNull, Build(x)));
  }

  lemma NullTestRoot(t: Tree, n: Node, alias: Option<string>)
    requires Linked(t) && Represents(t, OpUnary(IsNull, n), alias)
    ensures t.Tree? && RootIs(t, KIsNull) && Wired(t) && t.list.NullVector? && t.expr2.NullTree?
    ensures Linked(t.expr) && Represents(t.expr, n, None)
  {
    hide Root, Represents, Linked, Children, Wired;
    Opened(t, OpUnary(IsNull, n), alias);
    UnaryChildren(t.expr, t.list, t.expr2, OpUnary(IsNull, n));
  }

  /** The null tests: `x ISNULL`, `x IS NULL`, and `x IS NOT NULL`, which has two nodes. */
  lemma TestRoot(t: Tree, xs: List<Token>, ws: List<Token>, alias: Option<string>, x: Operand, test: NullTest)
    requires IsTest(ws) && IsOperand(xs, x) && IsOperand(Append(xs, ws), Postfix(x, test))
    requires Stands(t, Append(xs, ws), alias)
    ensures t.Tree? && Wired(t) && t.list.NullVector? && t.expr2.NullTree?
    ensures if ws == IS_NOT_NULL
            then RootIs(t, KNot) && t.expr.Tree? && RootIs(t.expr, KIsNull) && OneOperand(t.expr, xs)
            else RootIs(t, KIsNull) && OneOperand(t, xs)
  {
    hide Parse, ParseNode, Root, Represents, Linked, Children, Wired, HeadOf;
    TestNode(xs, ws, x, test);
    var inner := OpUnary(IsNull, Build(x));
    if ws == IS_NOT_NULL {
      NotRoot(t, inner, alias);
      NullTestRoot(t.expr, Build(x), None);
    } else {
      NullTestRoot(t, Build(x), alias);
    }
  }

  lemma NotRoot(t: Tree, n: Node, alias: Option<string>)
    requires Linked(t) && Represents(t, OpUnary(LogicalNot, n), alias)
    ensures t.Tree? && RootIs(t, KNot) && Wired(t) && t.list.NullVector? && t.expr2.NullTree?
    ensures Linked(t.expr) && Represents(t.expr, n, None)
  {
    hide Root, Represents, Linked, Children, Wired;
    Opened(t, OpUnary(LogicalNot, n), alias);
    UnaryChildren(t.expr, t.list, t.expr2, OpUnary(LogicalNot, n));
  }

  /** Parentheses leave no trace. */
  lemma ParenRoot(t: Tree, xs: List<Token>, alias: Option<string>)
    requires Parse(xs).Some?
    ensures Stands(t, Cons(Sym('('), Append(xs, Cons(Sym(')'), Nil))), alias) <==> Stands(t, xs, alias)
  {
    hide Parse, ParseNode, Represents, Linked;
    var e := Parse(xs).value;
    ParenForm(xs, e);
    OperandNode(Cons(Sym('('), Append(xs, Cons(Sym(')'), Nil))), Paren(e));
    NodeOf(xs, e);
  }

  // ----- BETWEEN, EXISTS and nested selects -----

  lemma BetweenRoot(t: Tree, xs: List<Token>, ls: List<Token>, hs: List<Token>, alias: Option<string>,
                    x: Operand, lo: Operand, hi: Operand)
    requires IsOperand(xs, x) && IsOperand(ls, lo) && IsOperand(hs, hi)
    requires Stands(t, Append(xs, Cons(Kw(BETWEEN), Append(ls, Cons(Kw(AND), hs)))), alias)
    ensures t.Tree? && RootIs(t, KBetween) && Wired(t) && Lists(t.list) && t.expr2.NullTree?
    ensures Stands(t.expr, xs, None) && t.list.Vector? && |t.list.items| == 2
    ensures Stands(t.list.items[0], ls, None) && Stands(t.list.items[1], hs, None)
  {
    hide Parse, ParseNode, Root, Represents, Linked, Children, Wired, Lists, LegalOperand;
    BetweenForm(xs, ls, hs, x, lo, hi);
    NodeOf(Append(xs, Cons(Kw(BETWEEN), Append(ls, Cons(Kw(AND), hs)))), Between(x, lo, hi));
    OperandNode(xs, x);
    OperandNode(ls, lo);
    OperandNode(hs, hi);
    var n := OpBetween(Build(x), Build(lo), Build(hi));
    assert BuildExpr(Between(x, lo, hi)) == n;
    Opened(t, n, alias);
    BetweenChildren(t.expr, t.list, t.expr2, n);
  }

  lemma BetweenChildren(x: Tree, ts: Trees, y: Tree, n: Node)
    requires n.OpBetween? && Children(x, ts, y, n) && LinkedVector(ts)
    ensures Represents(x, n.expr, None) && y.NullTree? && ts.Vector? && |ts.items| == 2
    ensures Represents(ts.items[0], n.low, None) && Represents(ts.items[1], n.high, None)
    ensures Linked(ts.items[0]) && Linked(ts.items[1])
  {
    hide Represents, Linked;
    assert RepresentsBoundVector(ts, n);
    assert RepresentsBounds(ts.items, n);
  }

  lemma SelectRoot(t: Tree, id: nat, alias: Option<string>)
    requires Stands(t, Selected(id), alias)
    ensures t.Tree? && Root(t, KSelect, KNone, None, None) && t.node.select != null && t.node.select.id == id
    ensures Wired(t) && t.expr.NullTree? && t.list.NullVector? && t.expr2.NullTree?
  {
    hide Parse, ParseNode, Root, Represents, Linked, Children, Wired;
    SelectForm(id);
    OperandNode(Selected(id), SubSelect(id));
    var n := Build(SubSelect(id));
    Opened(t, n, alias);
    LeafChildren(t.expr, t.list, t.expr2, n);
  }

  /** The root of `EXISTS (select)`. */
  ghost predicate ExistsNode(t: Tree, id: nat)
    reads Feet(t)
  {
    && t.Tree? && RootIs(t, KExists) && t.node.select != null && t.node.select.id == id
    && Wired(t) && t.expr.NullTree? && t.list.NullVector? && t.expr2.NullTree?
  }

  lemma ExistsRoot(t: Tree, negated: bool, id: nat, alias: Option<string>)
    requires Stands(t, ExistsWords(negated, id), alias)
    ensures t.Tree?
    ensures if negated
            then RootIs(t, KNot) && Wired(t) && ExistsNode(t.expr, id) && t.list.NullVector? && t.expr2.NullTree?
            else ExistsNode(t, id)
  {
    hide Parse, ParseNode, Root, Represents, Linked, Children, Wired, ExistsNode, ExistsWords;
    ExistsForm(negated, id);
    NodeOf(ExistsWords(negated, id), Exists(negated, id));
    if negated {
      NotRoot(t, OpExists(id), alias);
      OpenExists(t.expr, id, None);
    } else {
      OpenExists(t, id, alias);
    }
  }

  lemma OpenExists(t: Tree, id: nat, alias: Option<string>)
    requires Linked(t) && Represents(t, OpExists(id), alias)
    ensures t.Tree? && ExistsNode(t, id)
  {
    hide Root, Represents, Linked, Children, Wired;
    Opened(t, OpExists(id), alias);
    LeafChildren(t.expr, t.list, t.expr2, OpExists(id));
  }

  // ----- lists -----

  /** The trees are those of the elements, in order, each with its alias. */
  ghost predicate AllStand(items: seq<Tree>, es: seq<Element>)
    reads FeetItems(items)
  {
    |items| == |es| && forall i | 0 <= i < |items| :: Stands(items[i], es[i].tokens, es[i].alias)
  }

  lemma ElementNode(e: Element)
    requires Is(e.tokens, e.tree)
    ensures LegalExpr(e.tree) && ParseNode(e.tokens) == Some(BuildExpr(e.tree))
    ensures LegalAlias(AliasOf(e)) && AliasText(AliasOf(e)) == e.alias
  {
    hide Parse, ParseNode, LegalExpr;
    NodeOf(e.tokens, e.tree);
  }

  lemma {:induction false} ListStands(items: seq<Tree>, refs: seq<Memory.Expr>, es: seq<Element>)
    requires AllAre(es) && LinkedItems(items, refs) && LegalItems(ItemsFor(es))
    requires RepresentsList(items, BuildItems(ItemsFor(es)))
    ensures AllStand(items, es)
    decreases |es|
  {
    hide Parse, ParseNode, Is, Represents, Linked, LegalExpr, LegalAlias, AliasOf, AliasText;
    if es != [] {
      var n, m := |es| - 1, |items| - 1;
      ElementNode(es[n]);
      ListStands(items[..m], refs[..m], es[..n]);
      assert forall i | 0 <= i < m :: items[i] == items[..m][i] && es[i] == es[..n][i];
    }
  }

  /** The list of an IN or of a call. */
  ghost predicate ListOf(ts: Trees, es: seq<Element>)
    reads FeetVector(ts)
  {
    ts.Vector? && Lists(ts) && AllStand(ts.items, es)
  }

  lemma VectorStands(ts: Trees, es: seq<Element>)
    requires AllAre(es) && LinkedVector(ts) && LegalItems(ItemsFor(es))
    requires RepresentsVector(ts, BuildItems(ItemsFor(es)))
    ensures ListOf(ts, es)
  {
    hide AllStand, Lists, Linked, RepresentsList;
    WiredVector(ts);
    ListStands(ts.items, ts.vec.items, es);
  }

  /** The root of `xs IN (list)`; without elements there is no vector. */
  ghost predicate InNode(t: Tree, xs: List<Token>, es: seq<Element>)
    reads Feet(t)
  {
    && t.Tree? && RootIs(t, KIn) && t.node.select == null && Wired(t) && Stands(t.expr, xs, None) && t.expr2.NullTree?
    && if es == [] then t.list.NullVector? else ListOf(t.list, es)
  }

  lemma OpenIn(t: Tree, xs: List<Token>, x: Operand, es: seq<Element>, alias: Option<string>)
    requires IsOperand(xs, x) && AllAre(es) && LegalOperand(x) && LegalItems(ItemsFor(es))
    requires Linked(t) && Represents(t, OpIn(Build(x), BuildItems(ItemsFor(es))), alias)
    ensures InNode(t, xs, es)
  {
    hide Parse, ParseNode, Root, Represents, Linked, LinkedVector, Children, Wired, LegalOperand, LegalItems, ListOf,
        Lists, RepresentsVector, ItemsFor;
    var n := OpIn(Build(x), BuildItems(ItemsFor(es)));
    OperandNode(xs, x);
    Opened(t, n, alias);
    InChildren(t.expr, t.list, t.expr2, n);
    ListInPlace(es, Nil);
    EmptyItems(ItemsFor(es));
    if es != [] {
      VectorStands(t.list, es);
    }
  }

  lemma EmptyItems(items: Items)
    requires LegalItems(items)
    ensures BuildItems(items).NoNodes? <==> items.NoItems?
  {}

  lemma InChildren(x: Tree, ts: Trees, y: Tree, n: Node)
    requires n.OpIn? && Children(x, ts, y, n)
    ensures Represents(x, n.expr, None) && y.NullTree?
    ensures if n.items.NoNodes? then ts.NullVector? else RepresentsVector(ts, n.items)
  {
    hide Represents, RepresentsVector;
  }

  lemma InRoot(t: Tree, xs: List<Token>, es: seq<Element>, alias: Option<string>, x: Operand)
    requires IsOperand(xs, x) && AllAre(es) && Stands(t, Append(xs, Cons(Kw(IN), Listed(es))), alias)
    ensures InNode(t, xs, es)
  {
    hide Parse, ParseNode, Represents, Linked, InNode, ItemsFor, Listed;
    InForm(xs, x, es);
    NodeOf(Append(xs, Cons(Kw(IN), Listed(es))), InList(x, false, ItemsFor(es)));
    OpenIn(t, xs, x, es, alias);
  }

  /** `NOT IN` is the negation of `IN`, where it is accepted. */
  lemma NotInRoot(t: Tree, xs: List<Token>, es: seq<Element>, alias: Option<string>, x: Operand)
    requires IsOperand(xs, x) && AllAre(es) && Stands(t, Append(xs, Cons(Kw(NOT), Cons(Kw(IN), Listed(es)))), alias)
    ensures t.Tree? && RootIs(t, KNot) && Wired(t) && InNode(t.expr, xs, es) && t.list.NullVector? && t.expr2.NullTree?
  {
    hide Parse, Represents, Linked, Root, Wired, InNode, ItemsFor, Listed;
    var ts := Append(xs, Cons(Kw(NOT), Cons(Kw(IN), Listed(es))));
    NotInForm(xs, x, es);
    NodeOf(ts, InList(x, true, ItemsFor(es)));
    NotRoot(t, OpIn(Build(x), BuildItems(ItemsFor(es))), alias);
    OpenIn(t.expr, xs, x, es, None);
  }

  /** The root of `xs IN (select)`. */
  ghost predicate InSelectNode(t: Tree, xs: List<Token>, id: nat)
    reads Feet(t)
  {
    && t.Tree? && RootIs(t, KIn) && t.node.select != null && t.node.select.id == id
    && Wired(t) && Stands(t.expr, xs, None) && t.list.NullVector? && t.expr2.NullTree?
  }

  lemma OpenInSelect(t: Tree, xs: List<Token>, x: Operand, id: nat, alias: Option<string>)
    requires IsOperand(xs, x) && LegalOperand(x) && Linked(t) && Represents(t, OpInSelect(Build(x), id), alias)
    ensures t.Tree? && InSelectNode(t, xs, id)
  {
    hide Parse, ParseNode, Root, Represents, Linked, Children, Wired, LegalOperand;
    var n := OpInSelect(Build(x), id);
    OperandNode(xs, x);
    Opened(t, n, alias);
    InSelectChildren(t.expr, t.list, t.expr2, n);
  }

  lemma InSelectChildren(x: Tree, ts: Trees, y: Tree, n: Node)
    requires n.OpInSelect? && Children(x, ts, y, n)
    ensures Represents(x, n.expr, None) && ts.NullVector? && y.NullTree?
  {
    hide Represents;
  }

  lemma InSelectRoot(t: Tree, xs: List<Token>, negated: bool, id: nat, alias: Option<string>, x: Operand)
    requires IsOperand(xs, x)
    requires Stands(t, Append(xs, InSelectWords(negated, id)), alias)
    ensures t.Tree?
    ensures if negated
            then RootIs(t, KNot) && Wired(t) && InSelectNode(t.expr, xs, id) && t.list.NullVector? && t.expr2.NullTree?
            else InSelectNode(t, xs, id)
  {
    hide Parse, Represents, Linked, Root, Wired, InSelectNode, InSelectWords, EndsInNot;
    InSelectForm(xs, x, negated, id);
    NodeOf(Append(xs, InSelectWords(negated, id)), InSelect(x, negated, id));
    if negated {
      NotRoot(t, OpInSelect(Build(x), id), alias);
      OpenInSelect(t.expr, xs, x, id, None);
    } else {
      OpenInSelect(t, xs, x, id, alias);
    }
  }

  /** A call: the name in its text, the arguments in order, and whether DISTINCT was there. */
  lemma CallRoot(t: Tree, f: Token, distinct: bool, es: seq<Element>, alias: Option<string>)
    requires NameIn(f).Some? && AllAre(es) && (distinct ==> es != [])
    requires Stands(t, CallWords(f, distinct, es), alias)
    ensures t.Tree? && Root(t, KFunctionRef, KNone, NameIn(f), None) && t.node.distinct == distinct
    ensures Wired(t) && t.expr.NullTree? && ListOf(t.list, es) && t.expr2.NullTree?
  {
    hide Parse, ParseNode, Root, Represents, Linked, LinkedVector, Children, Wired, LegalItems, ListOf, Lists,
        RepresentsVector, ItemsFor, CallWords;
    CallForm(f, distinct, es);
    OperandNode(CallWords(f, distinct, es), Call(f, distinct, ItemsFor(es)));
    var n := FunctionRef(NameText(f), distinct, BuildItems(ItemsFor(es)));
    assert Build(Call(f, distinct, ItemsFor(es))) == n;
    NameIs(f);
    Opened(t, n, alias);
    CallChildren(t.expr, t.list, t.expr2, n);
    VectorStands(t.list, es);
  }

  lemma NameIs(f: Token)
    requires NameIn(f).Some?
    ensures IsName(f) && NameText(f) == NameIn(f).value
  {}

  lemma CallChildren(x: Tree, ts: Trees, y: Tree, n: Node)
    requires n.FunctionRef? && Children(x, ts, y, n)
    ensures x.NullTree? && y.NullTree? && RepresentsVector(ts, n.args)
  {
    hide RepresentsVector;
  }

  // ----- CASE -----

  /** The elements of a CASE are its branches in order. */
  ghost predicate AllBranchesStand(items: seq<Tree>, bs: seq<Branch>)
    reads FeetItems(items)
  {
    |items| == |bs| && forall i | 0 <= i < |items| :: BranchStands(items[i], bs[i])
  }

  ghost predicate BranchStands(t: Tree, b: Branch)
    reads Feet(t)
  {
    t.Tree? && RootIs(t, KCaseListElement) && t.node.alias == null && Operands(t, b.when, b.then_)
  }

  lemma OpenBranch(t: Tree, b: Branch, ns: NodeArms)
    requires Is(b.when, b.whenTree) && Is(b.then_, b.thenTree) && Linked(t)
    requires LegalExpr(b.whenTree) && LegalExpr(b.thenTree)
    requires ns.NodeArm? && ns.when == BuildExpr(b.whenTree) && ns.then_ == BuildExpr(b.thenTree)
    requires RepresentsArm(t, ns)
    ensures BranchStands(t, b)
  {
    hide Parse, ParseNode, Represents, LegalExpr;
    NodeOf(b.when, b.whenTree);
    NodeOf(b.then_, b.thenTree);
  }

  lemma {:induction false} BranchesStand(items: seq<Tree>, refs: seq<Memory.Expr>, bs: seq<Branch>)
    requires AllBranchesAre(bs) && LinkedItems(items, refs) && LegalArms(ArmsFor(bs))
    requires RepresentsArms(items, BuildArms(ArmsFor(bs)))
    ensures AllBranchesStand(items, bs)
    decreases |bs|
  {
    hide Parse, Is, RepresentsArm, Linked, LegalExpr, BranchStands;
    if bs != [] {
      var n, m := |bs| - 1, |items| - 1;
      OpenBranch(items[m], bs[n], BuildArms(ArmsFor(bs)));
      BranchesStand(items[..m], refs[..m], bs[..n]);
      assert forall i | 0 <= i < m :: items[i] == items[..m][i] && bs[i] == bs[..n][i];
    }
  }

  /** An optional child: absent exactly when its tokens are. */
  ghost predicate PartStands(t: Tree, p: Part)
    reads Feet(t)
  {
    if p.Absent? then t.NullTree? else Stands(t, p.tokens, None)
  }

  lemma OpenPart(t: Tree, p: Part)
    requires PartIs(p) && LegalOpt(OptFor(p)) && Linked(t) && RepresentsOpt(t, BuildOpt(OptFor(p)))
    ensures PartStands(t, p)
  {
    hide Parse, ParseNode, Represents, Linked, LegalExpr;
    if p.Present? {
      NodeOf(p.tokens, p.tree);
    }
  }

  lemma CaseRoot(t: Tree, base: Part, bs: seq<Branch>, otherwise: Part, alias: Option<string>)
    requires PartIs(base) && AllBranchesAre(bs) && PartIs(otherwise) && bs != []
    requires Stands(t, CaseWords(base, bs, otherwise), alias)
    ensures t.Tree? && RootIs(t, KCase) && Wired(t) && PartStands(t.expr, base) && PartStands(t.expr2, otherwise)
    ensures t.list.Vector? && Lists(t.list) && AllBranchesStand(t.list.items, bs)
  {
    hide Parse, ParseNode, Root, Represents, Linked, Children, Wired, LegalArms, LegalOpt, ArmsFor, OptFor, PartIs,
        Lists, CaseWords, RepresentsOpt, RepresentsArms, LinkedItems, PartStands, AllBranchesStand;
    var o := Case(OptFor(base), ArmsFor(bs), OptFor(otherwise));
    CaseForm(base, bs, otherwise);
    OperandNode(CaseWords(base, bs, otherwise), o);
    var n := OpCase(BuildOpt(OptFor(base)), BuildArms(ArmsFor(bs)), BuildOpt(OptFor(otherwise)));
    assert Build(o) == n;
    Opened(t, n, alias);
    CaseChildren(t.expr, t.list, t.expr2, n);
    OpenPart(t.expr, base);
    OpenPart(t.expr2, otherwise);
    BranchesStand(t.list.items, t.list.vec.items, bs);
  }

  lemma CaseChildren(x: Tree, ts: Trees, y: Tree, n: Node)
    requires n.OpCase? && Children(x, ts, y, n)
    ensures RepresentsOpt(x, n.base) && RepresentsOpt(y, n.otherwise) && ts.Vector? && RepresentsArms(ts.items, n.arms)
  {
    hide RepresentsOpt, RepresentsArms;
  }
}
