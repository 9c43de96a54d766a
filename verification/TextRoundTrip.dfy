/**
 From a node to text and back: rendering, spelling, scanning and parsing compose to the identity.
 */
module TextRoundTrip {
  import opened Tokens
  import opened Precedence
  import opened Syntax
  import opened Machine
  import opened Completeness
  import opened Ast
  import opened Rendering
  import opened Rules
  import opened Lexing
  import opened Languages
  import opened Spelled
  import opened Keywords

  /** Names, strings and numbers that some text can stand for. Nested selects have no text here. */
  ghost predicate Sayable(order: seq<string>, n: Node) {
    match n
    case TableStar(t) => Writable(order, Ident(t))
    case ColumnRef(x) => Writable(order, Ident(x))
    case TableColumn(t, x) => Writable(order, Ident(t)) && Writable(order, Ident(x))
    case StringLiteral(x) => Writable(order, Str(x))
    case IntLiteral(x) => Writable(order, Int(x))
    case FloatLiteral(x) => Writable(order, Float(x))
    case Named(x) => Writable(order, Ident(x))
    case Select(_) => false
    case FunctionRef(f, _, args) => Writable(order, Ident(f)) && SayableList(order, args)
    case OpUnary(_, a) => Sayable(order, a)
    case OpBinary(l, _, r) => Sayable(order, l) && Sayable(order, r)
    case OpAnd(l, r) => Sayable(order, l) && Sayable(order, r)
    case OpOr(l, r) => Sayable(order, l) && Sayable(order, r)
    case OpBetween(a, lo, hi) => Sayable(order, a) && Sayable(order, lo) && Sayable(order, hi)
    case OpCase(base, arms, otherwise) => SayableOpt(order, base) && SayableArms(order, arms)
        && SayableOpt(order, otherwise)
    case OpIn(a, items) => Sayable(order, a) && SayableList(order, items)
    case OpInSelect(_, _) => false
    case OpExists(_) => false
    case _ => true
  }

  ghost predicate SayableOpt(order: seq<string>, n: OptNode) {
    n.SomeNode? ==> Sayable(order, n.node)
  }

  ghost predicate SayableList(order: seq<string>, ns: NodeList) {
    ns.Nodes? ==>
      SayableList(order, ns.init) && Sayable(order, ns.last)
          && (ns.alias.Some? ==> Writable(order, Ident(ns.alias.value)))
  }

  ghost predicate SayableArms(order: seq<string>, ns: NodeArms) {
    ns.NodeArm? ==> SayableArms(order, ns.init) && Sayable(order, ns.when) && Sayable(order, ns.then_)
  }

  /** The keywords and symbols that a rendering uses are writable. */
  ghost predicate GrammarIsWritable(order: seq<string>) {
    && (forall k: Keyword | !k.Reserved? :: Writable(order, Kw(k)))
    && (forall c | c in SINGLES :: Writable(order, Sym(c)))
  }

  lemma SourceGrammarIsWritable()
    ensures GrammarIsWritable(KEYWORDS)
  {
    SourceWordsAreComplete();
    forall k: Keyword | !k.Reserved? ensures Writable(KEYWORDS, Kw(k)) {
      NamedKeyword(k);
      NamedIsCapital(k);
    }
  }

  lemma NamedIsCapital(k: Keyword)
    requires !k.Reserved?
    ensures Spelling(k) != [] && SameLetters(Spelling(k), Spelling(k))
  {
    match k
    case _ =>
  }

  // ----- from nodes to trees -----

  /** The same condition on concrete trees: every name, string and number is writable. */
  ghost predicate SaidOperand(order: seq<string>, o: Operand) {
    match o
    case Leaf(t) => Writable(order, t)
    case Dotted(table, column) => Writable(order, Ident(table)) && Writable(order, column)
    case NamedParameter(x) => Writable(order, Ident(x))
    case Paren(e) => SaidExpr(order, e)
    case SubSelect(_) => false
    case Call(f, _, args) => Writable(order, f) && SaidItems(order, args)
    case Case(base, arms, otherwise) => SaidOpt(order, base) && SaidArms(order, arms) && SaidOpt(order, otherwise)
    case Neg(a) => SaidOperand(order, a)
    case Not(a) => SaidOperand(order, a)
    case Postfix(a, _) => SaidOperand(order, a)
    case Infix(l, _, r) => SaidOperand(order, l) && SaidOperand(order, r)
  }

  ghost predicate SaidExpr(order: seq<string>, e: Expr) {
    match e
    case Plain(o) => SaidOperand(order, o)
    case And(l, r) => SaidExpr(order, l) && SaidExpr(order, r)
    case Or(l, r) => SaidExpr(order, l) && SaidExpr(order, r)
    case Between(o, lo, hi) => SaidOperand(order, o) && SaidOperand(order, lo) && SaidOperand(order, hi)
    case InList(o, _, items) => SaidOperand(order, o) && SaidItems(order, items)
    case InSelect(_, _, _) => false
    case Exists(_, _) => false
  }

  ghost predicate SaidOpt(order: seq<string>, e: OptExpr) {
    e.SomeExpr? ==> SaidExpr(order, e.expr)
  }

  ghost predicate SaidItems(order: seq<string>, items: Items) {
    items.Snoc? ==>
      SaidItems(order, items.init) && SaidExpr(order, items.last)
          && (!items.alias.NoAlias? ==> Writable(order, items.alias.name))
  }

  ghost predicate SaidArms(order: seq<string>, arms: Arms) {
    arms.Arm? ==> SaidArms(order, arms.init) && SaidExpr(order, arms.when) && SaidExpr(order, arms.then_)
  }

  lemma ParenIsSaid(order: seq<string>, o: Operand)
    requires SaidOperand(order, o)
    ensures SaidOperand(order, Paren(Plain(o)))
  {
    assert SaidExpr(order, Plain(o));
  }

  lemma ExprGuardsAreSaid(order: seq<string>, e: Expr, t: Token, rule: Option<Prec>)
    requires SaidExpr(order, e)
    ensures SaidExpr(order, GuardLeftExpr(e, t)) && SaidExpr(order, GuardRightExpr(rule, e))
  {
    assert SaidExpr(order, Plain(Paren(e))) by { assert SaidOperand(order, Paren(e)); }
  }

  lemma {:induction false} OperandIsSaid(order: seq<string>, n: Node)
    requires GrammarIsWritable(order) && Sayable(order, n)
    ensures SaidOperand(order, RenderOperand(n))
    decreases n, 3
  {
    if OnlyExpr(n) {
      OnlyExprIsSaid(order, n);
    } else if n.FunctionRef? {
      ListIsSaid(order, n.args);
    } else if n.OpCase? {
      OptIsSaid(order, n.base);
      ArmsAreSaid(order, n.arms);
      OptIsSaid(order, n.otherwise);
    } else if n.OpUnary? {
      UnaryIsSaid(order, n.unary, n.expr);
    } else if n.OpBinary? {
      OperandIsSaid(order, n.expr);
      ParenIsSaid(order, RenderOperand(n.expr));
      RightIsSaid(order, InfixRule(n.op), n.expr2);
    } else {
      LeafIsSaid(order, n);
    }
  }

  lemma {:induction false} UnaryIsSaid(order: seq<string>, op: UnaryOp, a: Node)
    requires GrammarIsWritable(order) && Sayable(order, a)
    ensures SaidOperand(order, RenderUnary(op, a))
    decreases OpUnary(op, a), 2
  {
    match op
    case UnaryMinus => RightIsSaid(order, NEG_RULE, a);
    case LogicalNot =>
      if IsNotNullTest(OpUnary(op, a)) {
        NullTestIsSaid(order, a.expr, IsNotNull);
      } else {
        OperandIsSaid(order, a);
      }
    case IsNull => NullTestIsSaid(order, a, IsNullWord);
  }

  lemma {:induction false} NullTestIsSaid(order: seq<string>, a: Node, test: NullTest)
    requires GrammarIsWritable(order) && Sayable(order, a)
    ensures SaidOperand(order, RenderNullTest(a, test))
    decreases a, 4
  {
    OperandIsSaid(order, a);
    ParenIsSaid(order, RenderOperand(a));
  }

  lemma {:induction false} RightIsSaid(order: seq<string>, rule: Option<Prec>, a: Node)
    requires GrammarIsWritable(order) && Sayable(order, a)
    ensures SaidOperand(order, RenderRight(rule, a))
    decreases a, 4
  {
    OperandIsSaid(order, a);
    ParenIsSaid(order, RenderOperand(a));
    if IsNotNullTest(a) {
      OperandIsSaid(order, a.expr);
    }
  }

  lemma LeafIsSaid(order: seq<string>, n: Node)
    requires GrammarIsWritable(order) && Sayable(order, n) && !OnlyExpr(n)
    requires !n.FunctionRef? && !n.OpCase? && !n.OpUnary? && !n.OpBinary?
    ensures SaidOperand(order, RenderOperand(n))
  {
    assert '*' in SINGLES && '?' in SINGLES;
    assert Writable(order, Sym('*')) && Writable(order, Sym('?')) && Writable(order, Kw(NULL));
  }

  lemma {:induction false} OnlyExprIsSaid(order: seq<string>, n: Node)
    requires OnlyExpr(n) && GrammarIsWritable(order) && Sayable(order, n)
    ensures SaidExpr(order, RenderOnlyExpr(n))
    decreases n, 1
  {
    if n.OpAnd? || n.OpOr? {
      ExprIsSaid(order, n.expr);
      ExprIsSaid(order, n.expr2);
      ExprGuardsAreSaid(order, Render(n.expr), if n.OpAnd? then Kw(AND) else Kw(OR), None);
      ExprGuardsAreSaid(order, Render(n.expr2), Kw(AND), if n.OpAnd? then AND_RULE else OR_RULE);
    } else if n.OpBetween? {
      OperandIsSaid(order, n.expr);
      OperandIsSaid(order, n.low);
      OperandIsSaid(order, n.high);
    } else if n.OpUnary? {
      TestIsSaid(order, true, n.expr);
    } else {
      TestIsSaid(order, false, n);
    }
  }

  lemma {:induction false} TestIsSaid(order: seq<string>, negated: bool, n: Node)
    requires GrammarIsWritable(order) && Sayable(order, n) && (n.OpIn? || n.OpInSelect? || n.OpExists?)
    ensures SaidExpr(order, RenderTest(negated, n))
    decreases n, 0
  {
    if n.OpIn? {
      OperandIsSaid(order, n.expr);
      ListIsSaid(order, n.items);
    }
  }

  lemma {:induction false} ExprIsSaid(order: seq<string>, n: Node)
    requires GrammarIsWritable(order) && Sayable(order, n)
    ensures SaidExpr(order, Render(n))
    decreases n, 5
  {
    if OnlyExpr(n) {
      OnlyExprIsSaid(order, n);
    } else {
      OperandIsSaid(order, n);
    }
  }

  lemma {:induction false} OptIsSaid(order: seq<string>, n: OptNode)
    requires GrammarIsWritable(order) && SayableOpt(order, n)
    ensures SaidOpt(order, RenderOpt(n))
    decreases n
  {
    if n.SomeNode? {
      ExprIsSaid(order, n.node);
    }
  }

  lemma {:induction false} ListIsSaid(order: seq<string>, ns: NodeList)
    requires GrammarIsWritable(order) && SayableList(order, ns)
    ensures SaidItems(order, RenderItems(ns))
    decreases ns
  {
    if ns.Nodes? {
      ListIsSaid(order, ns.init);
      ExprIsSaid(order, ns.last);
    }
  }

  lemma {:induction false} ArmsAreSaid(order: seq<string>, ns: NodeArms)
    requires GrammarIsWritable(order) && SayableArms(order, ns)
    ensures SaidArms(order, RenderArms(ns))
    decreases ns
  {
    if ns.NodeArm? {
      ArmsAreSaid(order, ns.init);
      ExprIsSaid(order, ns.when);
      ExprIsSaid(order, ns.then_);
    }
  }

  // ----- from trees to tokens -----

  lemma GrammarTokens(order: seq<string>, ts: List<Token>)
    requires GrammarIsWritable(order) && AllWritable(order, ts)
    ensures forall k: Keyword | !k.Reserved? :: AllWritable(order, Cons(Kw(k), ts))
    ensures forall c | c in SINGLES :: AllWritable(order, Cons(Sym(c), ts))
    ensures forall op :: AllWritable(order, OpTokens(op, ts))
    ensures forall test :: AllWritable(order, TestTokens(test, ts))
  {
    forall op ensures AllWritable(order, OpTokens(op, ts)) {
      OpIsWritable(order, op, ts);
    }
    forall test ensures AllWritable(order, TestTokens(test, ts)) {
      assert AllWritable(order, Cons(Kw(NULL), ts)) && AllWritable(order, Cons(Kw(NOT), Cons(Kw(NULL), ts)));
    }
  }

  lemma OpIsWritable(order: seq<string>, op: InfixOp, ts: List<Token>)
    requires GrammarIsWritable(order) && AllWritable(order, ts)
    ensures AllWritable(order, OpTokens(op, ts))
  {}

  lemma {:induction false} OperandIsWritable(order: seq<string>, o: Operand, ts: List<Token>)
    requires GrammarIsWritable(order) && SaidOperand(order, o) && AllWritable(order, ts)
    ensures AllWritable(order, OperandTokens(o, ts))
    decreases o, 1
  {
    GrammarTokens(order, ts);
    match o
    case Paren(e) =>
      ExprIsWritable(order, e, Cons(Sym(')'), ts));
      GrammarTokens(order, ExprTokens(e, Cons(Sym(')'), ts)));
    case Call(f, distinct, args) => CallIsWritable(order, f, distinct, args, ts);
    case Case(base, arms, otherwise) => CaseIsWritable(order, base, arms, otherwise, ts);
    case Neg(a) =>
      OperandIsWritable(order, a, ts);
      GrammarTokens(order, OperandTokens(a, ts));
    case Not(a) =>
      OperandIsWritable(order, a, ts);
      GrammarTokens(order, OperandTokens(a, ts));
    case Postfix(a, test) => OperandIsWritable(order, a, TestTokens(test, ts));
    case Infix(l, op, r) =>
      OperandIsWritable(order, r, ts);
      OpIsWritable(order, op, OperandTokens(r, ts));
      OperandIsWritable(order, l, OpTokens(op, OperandTokens(r, ts)));
    case Dotted(table, column) =>
      assert '.' in SINGLES;
    case NamedParameter(_) =>
      assert ':' in SINGLES;
    case _ =>
  }

  lemma {:induction false} CallIsWritable(order: seq<string>, f: Token, distinct: bool, args: Items, ts: List<Token>)
    requires GrammarIsWritable(order) && SaidOperand(order, Call(f, distinct, args)) && AllWritable(order, ts)
    ensures AllWritable(order, OperandTokens(Call(f, distinct, args), ts))
    decreases Call(f, distinct, args), 0
  {
    assert '(' in SINGLES && ')' in SINGLES;
    GrammarTokens(order, ts);
    var list := ItemsTokens(args, Cons(Sym(')'), ts));
    ItemsAreWritable(order, args, Cons(Sym(')'), ts));
    GrammarTokens(order, list);
    GrammarTokens(order, if distinct then Cons(Kw(DISTINCT), list) else list);
  }

  lemma {:induction false} CaseIsWritable(order: seq<string>, base: OptExpr, arms: Arms, otherwise: OptExpr,
                                          ts: List<Token>)
    requires GrammarIsWritable(order) && SaidOperand(order, Case(base, arms, otherwise)) && AllWritable(order, ts)
    ensures AllWritable(order, OperandTokens(Case(base, arms, otherwise), ts))
    decreases Case(base, arms, otherwise), 0
  {
    GrammarTokens(order, ts);
    var closing := ElseTokens(otherwise, Cons(Kw(END), ts));
    if otherwise.SomeExpr? {
      ExprIsWritable(order, otherwise.expr, Cons(Kw(END), ts));
      GrammarTokens(order, ExprTokens(otherwise.expr, Cons(Kw(END), ts)));
    }
    ArmsAreWritable(order, arms, closing);
    var body := ArmsTokens(arms, closing);
    if base.SomeExpr? {
      ExprIsWritable(order, base.expr, body);
    }
    GrammarTokens(order, OptTokens(base, body));
  }

  lemma {:induction false} ExprIsWritable(order: seq<string>, e: Expr, ts: List<Token>)
    requires GrammarIsWritable(order) && SaidExpr(order, e) && AllWritable(order, ts)
    ensures AllWritable(order, ExprTokens(e, ts))
    decreases e, 2
  {
    match e
    case Plain(o) => OperandIsWritable(order, o, ts);
    case And(l, r) =>
      ExprIsWritable(order, r, ts);
      GrammarTokens(order, ExprTokens(r, ts));
      ExprIsWritable(order, l, Cons(Kw(AND), ExprTokens(r, ts)));
    case Or(l, r) =>
      ExprIsWritable(order, r, ts);
      GrammarTokens(order, ExprTokens(r, ts));
      ExprIsWritable(order, l, Cons(Kw(OR), ExprTokens(r, ts)));
    case Between(o, lo, hi) =>
      OperandIsWritable(order, hi, ts);
      var afterAnd := OperandTokens(hi, ts);
      GrammarTokens(order, afterAnd);
      OperandIsWritable(order, lo, Cons(Kw(AND), afterAnd));
      GrammarTokens(order, OperandTokens(lo, Cons(Kw(AND), afterAnd)));
      OperandIsWritable(order, o, Cons(Kw(BETWEEN), OperandTokens(lo, Cons(Kw(AND), afterAnd))));
    case InList(o, negated, items) => InIsWritable(order, o, negated, items, ts);
    case _ =>
  }

  lemma {:induction false} InIsWritable(order: seq<string>, o: Operand, negated: bool, items: Items, ts: List<Token>)
    requires GrammarIsWritable(order) && SaidExpr(order, InList(o, negated, items)) && AllWritable(order, ts)
    ensures AllWritable(order, ExprTokens(InList(o, negated, items), ts))
    decreases InList(o, negated, items), 0
  {
    assert '(' in SINGLES && ')' in SINGLES;
    GrammarTokens(order, ts);
    var closing := Cons(Sym(')'), ts);
    ItemsAreWritable(order, items, closing);
    GrammarTokens(order, ItemsTokens(items, closing));
    var list := Cons(Sym('('), ItemsTokens(items, closing));
    GrammarTokens(order, list);
    GrammarTokens(order, Cons(Kw(IN), list));
    OperandIsWritable(order, o, NegatedTokens(negated, Kw(IN), list));
  }

  lemma {:induction false} ItemsAreWritable(order: seq<string>, items: Items, ts: List<Token>)
    requires GrammarIsWritable(order) && SaidItems(order, items) && AllWritable(order, ts)
    ensures AllWritable(order, ItemsTokens(items, ts))
    decreases items
  {
    if items.Snoc? {
      var tail := AliasTokens(items.alias, ts);
      assert AllWritable(order, tail) by {
        if !items.alias.NoAlias? {
          GrammarTokens(order, Cons(items.alias.name, ts));
        }
      }
      ExprIsWritable(order, items.last, tail);
      if items.init.Snoc? {
        assert ',' in SINGLES;
        GrammarTokens(order, ExprTokens(items.last, tail));
        ItemsAreWritable(order, items.init, Cons(Sym(','), ExprTokens(items.last, tail)));
      }
    }
  }

  lemma {:induction false} ArmsAreWritable(order: seq<string>, arms: Arms, ts: List<Token>)
    requires GrammarIsWritable(order) && SaidArms(order, arms) && AllWritable(order, ts)
    ensures AllWritable(order, ArmsTokens(arms, ts))
    decreases arms
  {
    if arms.Arm? {
      ExprIsWritable(order, arms.then_, ts);
      var afterThen := ExprTokens(arms.then_, ts);
      GrammarTokens(order, afterThen);
      ExprIsWritable(order, arms.when, Cons(Kw(THEN), afterThen));
      GrammarTokens(order, ExprTokens(arms.when, Cons(Kw(THEN), afterThen)));
      ArmsAreWritable(order, arms.init, Cons(Kw(WHEN), ExprTokens(arms.when, Cons(Kw(THEN), afterThen))));
    }
  }

  // ----- the whole pipeline -----

  /** The text of a node, under the keyword rules of the source. */
  function Say(n: Node): string {
    Spell(KEYWORDS, ExprTokens(Render(n), Nil))
  }

  /** What the parser builds for a text that is one expression. */
  ghost function Understand(s: string): Option<Node> {
    TableIsTotal(KEYWORDS);
    ParseNode(Lex(Table(KEYWORDS), INITIAL, s))
  }

  /** Text round trip. */
  lemma TextRoundTrips(n: Node)
    requires Buildable(n) && Sayable(KEYWORDS, n)
    ensures Understand(Say(n)) == Some(n)
  {
    SourceGrammarIsWritable();
    ExprIsSaid(KEYWORDS, n);
    ExprIsWritable(KEYWORDS, Render(n), Nil);
    SpellingIsRead(KEYWORDS, ExprTokens(Render(n), Nil));
    TokenRoundTrip(n);
  }
}
