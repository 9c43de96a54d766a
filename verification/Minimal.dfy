/**
 No expression has a shorter reading: every token list that parses to a node has at least as many
 opening parentheses as the rendering of the node.
 */
module Minimal {
  import opened Tokens
  import opened Precedence
  import opened Syntax
  import opened Machine
  import opened Soundness
  import opened Completeness
  import opened Ast
  import opened Rendering

  // ----- counting parentheses -----

  /** The parentheses of a tree that only group. */
  ghost function Parens(o: Operand): nat {
    match o
    case Paren(e) => 1 + ParensExpr(e)
    case Call(_, _, args) => ParensItems(args)
    case Case(base, arms, otherwise) => ParensOpt(base) + ParensArms(arms) + ParensOpt(otherwise)
    case Neg(a) => Parens(a)
    case Not(a) => Parens(a)
    case Postfix(a, _) => Parens(a)
    case Infix(l, _, r) => Parens(l) + Parens(r)
    case _ => 0
  }

  ghost function ParensExpr(e: Expr): nat {
    match e
    case Plain(o) => Parens(o)
    case And(l, r) => ParensExpr(l) + ParensExpr(r)
    case Or(l, r) => ParensExpr(l) + ParensExpr(r)
    case Between(o, lo, hi) => Parens(o) + Parens(lo) + Parens(hi)
    case InList(o, _, items) => Parens(o) + ParensItems(items)
    case InSelect(o, _, _) => Parens(o)
    case Exists(_, _) => 0
  }

  ghost function ParensOpt(e: OptExpr): nat {
    if e.NoExpr? then 0 else ParensExpr(e.expr)
  }

  ghost function ParensItems(items: Items): nat {
    if items.NoItems? then 0 else ParensItems(items.init) + ParensExpr(items.last)
  }

  ghost function ParensArms(arms: Arms): nat {
    if arms.NoArms? then 0 else ParensArms(arms.init) + ParensExpr(arms.when) + ParensExpr(arms.then_)
  }

  // ----- a rendering against any other tree of the same node -----

  /** No rule has the level of ISNULL or of IS. */
  predicate IsRule(rule: Option<Prec>) {
    rule.Some? ==> rule.value.level != 7 && rule.value.level != 8
  }

  lemma RulesAreRules(op: InfixOp)
    ensures IsRule(InfixRule(op)) && IsRule(NEG_RULE) && IsRule(NOT_RULE)
  {}

  /** IS and ISNULL look the same to every rule. */
  lemma TestsResolveAlike(rule: Option<Prec>)
    requires IsRule(rule)
    ensures Resolve(rule, Kw(IS)) == Resolve(rule, Kw(ISNULL))
  {}

  lemma {:induction false} TestsCloseAlike(o: Operand)
    ensures Closes(o, Kw(IS)) <==> Closes(o, Kw(ISNULL))
  {
    hide IsRule, Resolve, TokenPrec;
    match o
    case Neg(a) =>
      RulesAreRules(Minus);
      TestsResolveAlike(NEG_RULE);
      TestsCloseAlike(a);
    case Not(a) =>
      RulesAreRules(Minus);
      TestsResolveAlike(NOT_RULE);
      TestsCloseAlike(a);
    case Infix(_, op, r) =>
      RulesAreRules(op);
      TestsResolveAlike(InfixRule(op));
      TestsCloseAlike(r);
    case _ =>
  }

  /** `o` has no fewer parentheses than the operand form `b`, and more of them if it fits in front of
      `t` or behind `rule` where `b` does not. Against a null test, a prefix NOT is not compared
      behind `rule`. */
  ghost predicate NoBetter(o: Operand, b: Operand, test: bool, t: Token, rule: Option<Prec>) {
    && Parens(o) >= Parens(b)
    && (Closes(o, t) && !Closes(b, t) ==> Parens(o) > Parens(b))
    && (Opens(rule, o) && !Opens(rule, b) && !(test && o.Not?) ==> Parens(o) > Parens(b))
  }

  ghost predicate NoBetterExpr(e: Expr, b: Expr, t: Token, rule: Option<Prec>) {
    && ParensExpr(e) >= ParensExpr(b)
    && (ExprCloses(e, t) && !ExprCloses(b, t) ==> ParensExpr(e) > ParensExpr(b))
    && (ExprOpens(rule, e) && !ExprOpens(rule, b) ==> ParensExpr(e) > ParensExpr(b))
  }

  // ----- the forms of a rendering, one node at a time -----

  lemma NullTestForms(x: Node)
    ensures var g := GuardLeft(RenderOperand(x), Kw(IS));
            && RenderNullTest(x, IsNullWord) == Postfix(g, IsNullWord)
            && RenderNullTest(x, IsNotNull) == Postfix(g, IsNotNull)
    ensures RenderOperand(OpUnary(IsNull, x)) == RenderNullTest(x, IsNullWord)
    ensures RenderOperand(OpUnary(LogicalNot, OpUnary(IsNull, x))) == RenderNullTest(x, IsNotNull)
  {
    TestsCloseAlike(RenderOperand(x));
    hide Closes;
    var n := OpUnary(IsNull, x);
    assert RenderOperand(n) == RenderUnary(IsNull, x);
    assert RenderOperand(OpUnary(LogicalNot, n)) == RenderUnary(LogicalNot, n);
  }

  lemma PrefixForms(x: Node)
    ensures RenderOperand(OpUnary(UnaryMinus, x)) == Neg(RenderRight(NEG_RULE, x))
    ensures var n := OpUnary(LogicalNot, x);
            !IsNotNullTest(n) && !OnlyExpr(n) ==>
              RenderOperand(n) == Not(RenderOperand(x)) && Render(n) == Plain(Not(RenderOperand(x)))
  {
    var n := OpUnary(LogicalNot, x);
    assert RenderOperand(OpUnary(UnaryMinus, x)) == RenderUnary(UnaryMinus, x);
    assert !OnlyExpr(n) ==> RenderOperand(n) == RenderUnary(LogicalNot, x);
  }

  /** A test with a NOT of its own, in both forms. */
  lemma NegatedForms(test: Node)
    requires test.OpIn? || test.OpInSelect? || test.OpExists?
    ensures RenderOperand(test) == Paren(RenderTest(false, test)) && Render(test) == RenderTest(false, test)
    ensures var n := OpUnary(LogicalNot, test);
            OnlyExpr(n) ==> RenderOperand(n) == Paren(RenderTest(true, test)) && Render(n) == RenderTest(true, test)
    ensures ParensExpr(RenderTest(true, test)) == ParensExpr(RenderTest(false, test))
  {
    var n := OpUnary(LogicalNot, test);
    assert RenderOnlyExpr(test) == RenderTest(false, test);
    if OnlyExpr(n) {
      assert RenderOnlyExpr(n) == RenderTest(true, test);
    }
  }

  lemma BinaryForm(x: Node, op: InfixOp, y: Node)
    ensures RenderOperand(OpBinary(x, op, y))
         == Infix(GuardLeft(RenderOperand(x), FirstToken(op)), op, RenderRight(InfixRule(op), y))
  {}

  lemma RenderedLogic(x: Node, y: Node)
    ensures Render(OpAnd(x, y)) == And(GuardLeftExpr(Render(x), Kw(AND)), GuardRightExpr(AND_RULE, Render(y)))
    ensures Render(OpOr(x, y)) == Or(GuardLeftExpr(Render(x), Kw(OR)), GuardRightExpr(OR_RULE, Render(y)))
  {
    LogicForms(x, y);
    assert Render(OpAnd(x, y)) == RenderOnlyExpr(OpAnd(x, y));
    assert Render(OpOr(x, y)) == RenderOnlyExpr(OpOr(x, y));
  }

  // ----- the rendering is least -----

  lemma LeftForm(a: Operand, x: Node, t: Token, rule: Option<Prec>)
    requires NoBetter(a, RenderOperand(x), IsNotNullTest(x), t, rule)
    requires Closes(a, t) && Resolve(NOT_RULE, t) != Reduce
    ensures var g := GuardLeft(RenderOperand(x), t);
            Parens(a) >= Parens(g) && (Opens(rule, a) && !Opens(rule, g) ==> Parens(a) > Parens(g))
  {
    hide RenderOperand;
    var b := RenderOperand(x);
    assert ParensExpr(Plain(b)) == Parens(b);
  }

  lemma RightForm(a: Operand, x: Node, t: Token, rule: Option<Prec>)
    requires NoBetter(a, RenderOperand(x), IsNotNullTest(x), t, rule) && Opens(rule, a)
    ensures var g := RenderRight(rule, x);
            Parens(a) >= Parens(g) && (Closes(a, t) && !Closes(g, t) ==> Parens(a) > Parens(g))
  {
    var b := RenderOperand(x);
    var g := RenderRight(rule, x);
    if IsNotNullTest(x) && !Opens(rule, b) {
      NullTestForms(x.expr.expr);
      assert g == Not(RenderOperand(x.expr));
      hide RenderOperand, RenderRight, RenderNullTest, GuardLeft;
      assert Closes(RenderOperand(x.expr), t);
      assert Parens(g) == Parens(RenderOperand(x.expr)) == Parens(b);
    } else {
      hide RenderOperand;
      assert ParensExpr(Plain(b)) == Parens(b);
    }
  }

  lemma {:induction false} OperandIsLeast(o: Operand, t: Token, rule: Option<Prec>)
    requires LegalOperand(o) && IsRule(rule)
    ensures NoBetter(o, RenderOperand(Build(o)), IsNotNullTest(Build(o)), t, rule)
    decreases o, 1
  {
    hide RenderOperand, NoBetter;
    match o
    case Paren(e) =>
      ExprIsLeast(e, t, rule);
      ParenIsLeast(e, t, rule);
    case Call(f, distinct, args) =>
      ItemsAreLeast(args);
      CallIsLeast(o, t, rule);
    case Case(base, arms, otherwise) =>
      OptIsLeast(base);
      ArmsAreLeast(arms);
      OptIsLeast(otherwise);
      CaseIsLeast(o, t, rule);
    case Neg(a) =>
      RulesAreRules(Minus);
      OperandIsLeast(a, t, NEG_RULE);
      NegIsLeast(a, t, rule);
    case Not(a) =>
      OperandIsLeast(a, t, rule);
      NotIsLeast(a, t, rule);
    case Postfix(a, test) => PostfixIsLeast(a, test, t, rule);
    case Infix(l, op, r) => InfixIsLeast(l, op, r, t, rule);
    case _ => LeafIsLeast(o, t, rule);
  }

  lemma LeafIsLeast(o: Operand, t: Token, rule: Option<Prec>)
    requires LegalOperand(o) && (o.Leaf? || o.Dotted? || o.NamedParameter? || o.SubSelect?)
    ensures NoBetter(o, RenderOperand(Build(o)), IsNotNullTest(Build(o)), t, rule)
  {}

  lemma CallIsLeast(o: Operand, t: Token, rule: Option<Prec>)
    requires LegalOperand(o) && o.Call? && ParensItems(o.args) >= ParensItems(RenderItems(BuildItems(o.args)))
    ensures NoBetter(o, RenderOperand(Build(o)), IsNotNullTest(Build(o)), t, rule)
  {}

  lemma CaseIsLeast(o: Operand, t: Token, rule: Option<Prec>)
    requires LegalOperand(o) && o.Case?
    requires ParensOpt(o.base) >= ParensOpt(RenderOpt(BuildOpt(o.base)))
    requires ParensArms(o.arms) >= ParensArms(RenderArms(BuildArms(o.arms)))
    requires ParensOpt(o.otherwise) >= ParensOpt(RenderOpt(BuildOpt(o.otherwise)))
    ensures NoBetter(o, RenderOperand(Build(o)), IsNotNullTest(Build(o)), t, rule)
  {}

  lemma NegIsLeast(a: Operand, t: Token, rule: Option<Prec>)
    requires LegalOperand(Neg(a)) && NoBetter(a, RenderOperand(Build(a)), IsNotNullTest(Build(a)), t, NEG_RULE)
    ensures NoBetter(Neg(a), RenderOperand(Build(Neg(a))), IsNotNullTest(Build(Neg(a))), t, rule)
  {
    hide RenderOperand, RenderRight;
    var x := Build(a);
    assert Build(Neg(a)) == OpUnary(UnaryMinus, x);
    hide Build;
    RightForm(a, x, t, NEG_RULE);
    PrefixForms(x);
  }

  lemma ParenIsLeast(e: Expr, t: Token, rule: Option<Prec>)
    requires LegalExpr(e) && ParensExpr(e) >= ParensExpr(Render(BuildExpr(e)))
    ensures NoBetter(Paren(e), RenderOperand(BuildExpr(e)), IsNotNullTest(BuildExpr(e)), t, rule)
  {
    hide BuildExpr, RenderOnlyExpr;
    var n := BuildExpr(e);
    assert OnlyExpr(n) ==> RenderOperand(n) == Paren(Render(n));
    assert !OnlyExpr(n) ==> Render(n) == Plain(RenderOperand(n));
    hide RenderOperand, Render, OnlyExpr;
  }

  lemma NotCompares(a: Operand, b: Operand, t: Token, rule: Option<Prec>)
    requires NoBetter(a, b, true, t, rule)
    ensures NoBetter(Not(a), Not(b), false, t, rule)
  {}

  /** A negated test in parentheses is as good as the prefix form, and fits everywhere. */
  lemma NegatedCompares(a: Operand, plain: Expr, b: Expr, t: Token, rule: Option<Prec>)
    requires NoBetter(a, Paren(plain), false, t, rule) && ParensExpr(b) == ParensExpr(plain)
    ensures NoBetter(Not(a), Paren(b), false, t, rule)
  {}

  lemma NotIsLeast(a: Operand, t: Token, rule: Option<Prec>)
    requires LegalOperand(Not(a)) && NoBetter(a, RenderOperand(Build(a)), IsNotNullTest(Build(a)), t, rule)
    ensures NoBetter(Not(a), RenderOperand(Build(Not(a))), IsNotNullTest(Build(Not(a))), t, rule)
  {
    hide RenderOperand, RenderRight, RenderNullTest, RenderTest, Render, OnlyExpr, GuardLeft;
    var m := Build(a);
    var n := OpUnary(LogicalNot, m);
    assert Build(Not(a)) == n;
    hide Build, LegalOperand;
    PrefixForms(m);
    if IsNotNullTest(n) {
      NullTestForms(m.expr);
    } else if IsNegatedTest(n) && OnlyExpr(n) {
      NegatedForms(m);
      NegatedCompares(a, RenderTest(false, m), RenderTest(true, m), t, rule);
    } else {
      if !IsNegatedTest(n) {
        OnlyNegated(n);
      }
      NotCompares(a, RenderOperand(m), t, rule);
    }
  }

  lemma OnlyNegated(n: Node)
    requires n.OpUnary? && !IsNegatedTest(n)
    ensures !OnlyExpr(n)
  {}

  lemma PostfixCompares(a: Operand, test: NullTest, b: Operand, test': NullTest, t: Token, rule: Option<Prec>)
    requires Parens(a) >= Parens(b) && IsRule(rule) && (Opens(rule, a) && !Opens(rule, b) ==> Parens(a) > Parens(b))
    ensures NoBetter(Postfix(a, test), Postfix(b, test'), false, t, rule)
  {
    TestsResolveAlike(rule);
    hide Resolve, TokenPrec, IsRule;
  }

  lemma {:induction false} PostfixIsLeast(a: Operand, test: NullTest, t: Token, rule: Option<Prec>)
    requires LegalOperand(Postfix(a, test)) && IsRule(rule)
    ensures var n := Build(Postfix(a, test)); NoBetter(Postfix(a, test), RenderOperand(n), IsNotNullTest(n), t, rule)
    decreases Postfix(a, test), 0
  {
    hide RenderOperand, RenderNullTest, GuardLeft, IsRule, NoBetter, Closes, Opens, Parens;
    var x := Build(a);
    assert Build(Postfix(a, test)) == Negate(test == IsNotNull, OpUnary(IsNull, x));
    hide Build;
    TestsCloseAlike(a);
    OperandIsLeast(a, Kw(IS), rule);
    LeftForm(a, x, Kw(IS), rule);
    NullTestForms(x);
    var b := GuardLeft(RenderOperand(x), Kw(IS));
    PostfixCompares(a, test, b, IsNullWord, t, rule);
    PostfixCompares(a, test, b, IsNotNull, t, rule);
    NoPrefixNot(Postfix(a, test), Postfix(b, IsNotNull), t, rule);
  }

  lemma NoPrefixNot(o: Operand, b: Operand, t: Token, rule: Option<Prec>)
    requires NoBetter(o, b, false, t, rule)
    ensures NoBetter(o, b, true, t, rule)
  {}

  lemma InfixCompares(l: Operand, op: InfixOp, r: Operand, b: Operand, c: Operand, t: Token, rule: Option<Prec>)
    requires Parens(l) >= Parens(b) && (Opens(rule, l) && !Opens(rule, b) ==> Parens(l) > Parens(b))
    requires Parens(r) >= Parens(c) && (Closes(r, t) && !Closes(c, t) ==> Parens(r) > Parens(c))
    ensures NoBetter(Infix(l, op, r), Infix(b, op, c), false, t, rule)
  {}

  /** No operator lets a prefix NOT in front of it reduce. */
  lemma NotBeforeInfix(op: InfixOp)
    ensures Resolve(NOT_RULE, FirstToken(op)) != Reduce
  {}

  lemma {:induction false} InfixIsLeast(l: Operand, op: InfixOp, r: Operand, t: Token, rule: Option<Prec>)
    requires LegalOperand(Infix(l, op, r)) && IsRule(rule)
    ensures var n := Build(Infix(l, op, r)); NoBetter(Infix(l, op, r), RenderOperand(n), IsNotNullTest(n), t, rule)
    decreases Infix(l, op, r), 0
  {
    hide RenderOperand, RenderRight, GuardLeft, IsRule, NoBetter, Closes, Opens, Parens, Resolve, TokenPrec;
    NotBeforeInfix(op);
    RulesAreRules(op);
    OperandIsLeast(l, FirstToken(op), rule);
    OperandIsLeast(r, t, InfixRule(op));
    var x, y := Build(l), Build(r);
    assert Build(Infix(l, op, r)) == OpBinary(x, op, y);
    hide Build;
    LeftForm(l, x, FirstToken(op), rule);
    RightForm(r, y, t, InfixRule(op));
    BinaryForm(x, op, y);
    InfixCompares(l, op, r, GuardLeft(RenderOperand(x), FirstToken(op)), RenderRight(InfixRule(op), y), t, rule);
  }

  lemma {:induction false} ExprIsLeast(e: Expr, t: Token, rule: Option<Prec>)
    requires LegalExpr(e) && IsRule(rule)
    ensures NoBetterExpr(e, Render(BuildExpr(e)), t, rule)
    decreases e, 2
  {
    match e
    case Plain(o) =>
      OperandIsLeast(o, t, rule);
      PlainIsLeast(o, t, rule);
    case And(l, r) =>
      ExprIsLeast(l, Kw(AND), rule);
      ExprIsLeast(r, t, AND_RULE);
      LogicIsLeast(true, l, r, t, rule);
    case Or(l, r) =>
      ExprIsLeast(l, Kw(OR), rule);
      ExprIsLeast(r, t, OR_RULE);
      LogicIsLeast(false, l, r, t, rule);
    case Between(o, lo, hi) =>
      OperandIsLeast(o, t, rule);
      OperandIsLeast(lo, t, rule);
      OperandIsLeast(hi, t, rule);
      BetweenIsLeast(o, lo, hi, t, rule);
    case InList(o, negated, items) =>
      OperandIsLeast(o, Kw(NOT), rule);
      ItemsAreLeast(items);
      InListIsLeast(o, negated, items, t, rule);
    case InSelect(o, negated, id) =>
      OperandIsLeast(o, Kw(NOT), rule);
      InSelectIsLeast(o, negated, id, t, rule);
    case Exists(negated, id) =>
      NegatedForms(OpExists(id));
  }

  /** An operand that stands for a conjunction or disjunction is parenthesised. */
  lemma PlainIsLeast(o: Operand, t: Token, rule: Option<Prec>)
    requires LegalOperand(o)
    requires NoBetter(o, RenderOperand(Build(o)), IsNotNullTest(Build(o)), t, rule)
    ensures NoBetterExpr(Plain(o), Render(Build(o)), t, rule)
  {
    var n := Build(o);
    if n.OpAnd? || n.OpOr? {
      assert o.Paren?;
    }
    assert ParensExpr(Plain(o)) == Parens(o);
  }

  lemma LeftExprForm(l: Expr, b: Expr, t: Token, rule: Option<Prec>)
    requires ExprCloses(l, t) && NoBetterExpr(l, b, t, rule)
    ensures var g := GuardLeftExpr(b, t);
            && ParensExpr(l) >= ParensExpr(g)
            && (ExprOpens(rule, l) && !ExprOpens(rule, g) ==> ParensExpr(l) > ParensExpr(g))
  {
    assert ParensExpr(Plain(Paren(b))) == 1 + ParensExpr(b) by { assert Parens(Paren(b)) == 1 + ParensExpr(b); }
  }

  lemma RightExprForm(r: Expr, c: Expr, t: Token, rule: Option<Prec>)
    requires ExprOpens(rule, r) && NoBetterExpr(r, c, t, rule)
    ensures var g := GuardRightExpr(rule, c);
            && ParensExpr(r) >= ParensExpr(g)
            && (ExprCloses(r, t) && !ExprCloses(g, t) ==> ParensExpr(r) > ParensExpr(g))
  {
    assert ParensExpr(Plain(Paren(c))) == 1 + ParensExpr(c) by { assert Parens(Paren(c)) == 1 + ParensExpr(c); }
  }

  lemma LogicCompares(conj: bool, l: Expr, r: Expr, b: Expr, c: Expr, t: Token, rule: Option<Prec>)
    requires ParensExpr(l) >= ParensExpr(b) && ParensExpr(r) >= ParensExpr(c)
    requires ExprOpens(rule, l) && !ExprOpens(rule, b) ==> ParensExpr(l) > ParensExpr(b)
    requires ExprCloses(r, t) && !ExprCloses(c, t) ==> ParensExpr(r) > ParensExpr(c)
    ensures if conj then NoBetterExpr(And(l, r), And(b, c), t, rule) else NoBetterExpr(Or(l, r), Or(b, c), t, rule)
  {
    hide Resolve, TokenPrec;
    var more := ParensExpr(l) - ParensExpr(b) + ParensExpr(r) - ParensExpr(c);
    if conj {
      assert ParensExpr(And(l, r)) - ParensExpr(And(b, c)) == more;
    } else {
      assert ParensExpr(Or(l, r)) - ParensExpr(Or(b, c)) == more;
    }
  }

  lemma LogicIsLeast(conj: bool, l: Expr, r: Expr, t: Token, rule: Option<Prec>)
    requires var e := if conj then And(l, r) else Or(l, r); LegalExpr(e)
    requires NoBetterExpr(l, Render(BuildExpr(l)), if conj then Kw(AND) else Kw(OR), rule)
    requires NoBetterExpr(r, Render(BuildExpr(r)), t, if conj then AND_RULE else OR_RULE)
    ensures var e := if conj then And(l, r) else Or(l, r); NoBetterExpr(e, Render(BuildExpr(e)), t, rule)
  {
    hide NoBetterExpr, Render, GuardLeftExpr, GuardRightExpr, ExprCloses, ExprOpens, ParensExpr;
    var x, y := BuildExpr(l), BuildExpr(r);
    RenderedLogic(x, y);
    var head, own := if conj then Kw(AND) else Kw(OR), if conj then AND_RULE else OR_RULE;
    LeftExprForm(l, Render(x), head, rule);
    RightExprForm(r, Render(y), t, own);
    LogicCompares(conj, l, r, GuardLeftExpr(Render(x), head), GuardRightExpr(own, Render(y)), t, rule);
  }

  lemma BetweenIsLeast(o: Operand, lo: Operand, hi: Operand, t: Token, rule: Option<Prec>)
    requires LegalExpr(Between(o, lo, hi)) && Parens(o) >= Parens(RenderOperand(Build(o)))
    requires Parens(lo) >= Parens(RenderOperand(Build(lo))) && Parens(hi) >= Parens(RenderOperand(Build(hi)))
    ensures var e := Between(o, lo, hi); NoBetterExpr(e, Render(BuildExpr(e)), t, rule)
  {
    hide Closes, Opens, Resolve, TokenPrec, BuildItems, LegalItems;
    var x, y, z := Build(o), Build(lo), Build(hi);
    var n := OpBetween(x, y, z);
    assert BuildExpr(Between(o, lo, hi)) == n;
    assert Render(n) == Between(RenderOperand(x), RenderOperand(y), RenderOperand(z));
    hide RenderOperand, Render, Build;
  }

  lemma InListIsLeast(o: Operand, negated: bool, items: Items, t: Token, rule: Option<Prec>)
    requires LegalExpr(InList(o, negated, items))
    requires NoBetter(o, RenderOperand(Build(o)), IsNotNullTest(Build(o)), Kw(NOT), rule)
    requires ParensItems(items) >= ParensItems(RenderItems(BuildItems(items)))
    ensures var e := InList(o, negated, items); NoBetterExpr(e, Render(BuildExpr(e)), t, rule)
  {
    hide RenderOperand, RenderItems, Render, Closes, Opens;
    var test := OpIn(Build(o), BuildItems(items));
    assert BuildExpr(InList(o, negated, items)) == Negate(negated, test);
    hide Build, BuildExpr, BuildItems;
    TestIsLeast(o, negated, test);
    var b := InList(RenderOperand(test.expr), false, RenderItems(test.items));
    assert RenderTest(false, test) == b;
    assert ParensExpr(Plain(Not(Paren(b)))) == Parens(Not(Paren(b))) == Parens(Paren(b)) == 1 + ParensExpr(b);
  }

  lemma InSelectIsLeast(o: Operand, negated: bool, id: nat, t: Token, rule: Option<Prec>)
    requires LegalExpr(InSelect(o, negated, id))
    requires NoBetter(o, RenderOperand(Build(o)), IsNotNullTest(Build(o)), Kw(NOT), rule)
    ensures var e := InSelect(o, negated, id); NoBetterExpr(e, Render(BuildExpr(e)), t, rule)
  {
    hide RenderOperand, Render, Closes, Opens;
    var test := OpInSelect(Build(o), id);
    assert BuildExpr(InSelect(o, negated, id)) == Negate(negated, test);
    hide Build, BuildExpr;
    TestIsLeast(o, negated, test);
    var b := InSelect(RenderOperand(test.expr), false, id);
    assert RenderTest(false, test) == b;
    assert ParensExpr(Plain(Not(Paren(b)))) == Parens(Not(Paren(b))) == Parens(Paren(b)) == 1 + ParensExpr(b);
  }

  /** The form of a test and its negation, up to the parentheses that NOT needs. */
  lemma TestIsLeast(o: Operand, negated: bool, test: Node)
    requires LegalOperand(o) && (test.OpIn? || test.OpInSelect?) && test.expr == Build(o)
    ensures var b := Render(Negate(negated, test));
            if !negated || Closes(RenderOperand(test.expr), Kw(NOT)) then b == RenderTest(negated, test)
            else b == Plain(Not(Paren(RenderTest(false, test))))
  {
    hide RenderOperand, Render, RenderTest, Closes;
    NegatedForms(test);
    PrefixForms(test);
    assert OnlyExpr(OpUnary(LogicalNot, test)) <==> Closes(RenderOperand(test.expr), Kw(NOT));
  }

  lemma {:induction false} OptIsLeast(e: OptExpr)
    requires LegalOpt(e)
    ensures ParensOpt(e) >= ParensOpt(RenderOpt(BuildOpt(e)))
    decreases e
  {
    if e.SomeExpr? {
      ExprIsLeast(e.expr, Kw(AND), None);
    }
  }

  lemma {:induction false} ItemsAreLeast(items: Items)
    requires LegalItems(items)
    ensures ParensItems(items) >= ParensItems(RenderItems(BuildItems(items)))
    decreases items
  {
    if items.Snoc? {
      ItemsAreLeast(items.init);
      ExprIsLeast(items.last, Kw(AND), None);
    }
  }

  lemma {:induction false} ArmsAreLeast(arms: Arms)
    requires LegalArms(arms)
    ensures ParensArms(arms) >= ParensArms(RenderArms(BuildArms(arms)))
    decreases arms
  {
    if arms.Arm? {
      ArmsAreLeast(arms.init);
      ExprIsLeast(arms.when, Kw(AND), None);
      ExprIsLeast(arms.then_, Kw(AND), None);
    }
  }

  // ----- from trees to tokens -----

  /** The opening parentheses of a token list. */
  ghost function Opening(ts: List<Token>): nat {
    match ts
    case Nil => 0
    case Cons(t, rest) => Opening(rest) + if t == Sym('(') then 1 else 0
  }

  /** The parentheses that belong to the notation of a node: calls, lists and selects. */
  ghost function Brackets(n: Node): nat {
    match n
    case Select(_) => 1
    case FunctionRef(_, _, args) => 1 + BracketsList(args)
    case OpUnary(_, a) => Brackets(a)
    case OpBinary(l, _, r) => Brackets(l) + Brackets(r)
    case OpAnd(l, r) => Brackets(l) + Brackets(r)
    case OpOr(l, r) => Brackets(l) + Brackets(r)
    case OpBetween(a, lo, hi) => Brackets(a) + Brackets(lo) + Brackets(hi)
    case OpCase(base, arms, otherwise) => BracketsOpt(base) + BracketsArms(arms) + BracketsOpt(otherwise)
    case OpIn(a, items) => 1 + Brackets(a) + BracketsList(items)
    case OpInSelect(a, _) => 1 + Brackets(a)
    case OpExists(_) => 1
    case _ => 0
  }

  ghost function BracketsOpt(n: OptNode): nat {
    if n.NoNode? then 0 else Brackets(n.node)
  }

  ghost function BracketsList(ns: NodeList): nat {
    if ns.NoNodes? then 0 else BracketsList(ns.init) + Brackets(ns.last)
  }

  ghost function BracketsArms(ns: NodeArms): nat {
    if ns.NoNodeArms? then 0 else BracketsArms(ns.init) + Brackets(ns.when) + Brackets(ns.then_)
  }

  lemma OpOpens(op: InfixOp, ts: List<Token>)
    ensures Opening(OpTokens(op, ts)) == Opening(ts)
  {}

  lemma TestOpens(test: NullTest, ts: List<Token>)
    ensures Opening(TestTokens(test, ts)) == Opening(ts)
  {
    assert Opening(Cons(Kw(NULL), ts)) == Opening(ts);
  }

  lemma NegatedOpens(negated: bool, k: Keyword, ts: List<Token>)
    ensures Opening(NegatedTokens(negated, Kw(k), ts)) == Opening(ts)
  {}

  lemma AliasOpens(a: Alias, ts: List<Token>)
    requires LegalAlias(a)
    ensures Opening(AliasTokens(a, ts)) == Opening(ts)
  {}

  lemma SelectOpens(id: nat, ts: List<Token>)
    ensures Opening(SelectTokens(id, ts)) == 1 + Opening(ts)
  {
    assert Opening(Cons(Sym(')'), ts)) == Opening(ts);
  }

  /** Every opening parenthesis of a legal tree groups, or belongs to the notation of its node. */
  lemma {:induction false} OperandCount(o: Operand, ts: List<Token>)
    requires LegalOperand(o)
    ensures Opening(OperandTokens(o, ts)) == Parens(o) + Brackets(Build(o)) + Opening(ts)
    decreases o, 1
  {
    hide Closes, Opens;
    match o
    case Paren(e) => ParenCount(e, ts);
    case Call(f, distinct, args) => CallCount(f, distinct, args, ts);
    case Case(base, arms, otherwise) => CaseCount(base, arms, otherwise, ts);
    case Neg(a) => OperandCount(a, ts);
    case Not(a) => OperandCount(a, ts);
    case Postfix(a, test) => PostfixCount(a, test, ts);
    case Infix(l, op, r) => InfixCount(l, op, r, ts);
    case SubSelect(id) => SelectOpens(id, ts);
    case _ => LeafCount(o, ts);
  }

  lemma {:induction false} ParenCount(e: Expr, ts: List<Token>)
    requires LegalExpr(e)
    ensures var o := Paren(e); Opening(OperandTokens(o, ts)) == Parens(o) + Brackets(Build(o)) + Opening(ts)
    decreases Paren(e), 0
  {
    hide ExprTokens, ParensExpr, BuildExpr;
    ExprCount(e, Cons(Sym(')'), ts));
  }

  lemma {:induction false} PostfixCount(a: Operand, test: NullTest, ts: List<Token>)
    requires LegalOperand(Postfix(a, test))
    ensures var o := Postfix(a, test);
            Opening(OperandTokens(o, ts)) == Parens(o) + Brackets(Build(o)) + Opening(ts)
    decreases Postfix(a, test), 0
  {
    hide TestTokens, Closes, Opens, Negate;
    TestOpens(test, ts);
    OperandCount(a, TestTokens(test, ts));
    NegatedBrackets(test == IsNotNull, OpUnary(IsNull, Build(a)));
  }

  lemma {:induction false} InfixCount(l: Operand, op: InfixOp, r: Operand, ts: List<Token>)
    requires LegalOperand(Infix(l, op, r))
    ensures var o := Infix(l, op, r);
            Opening(OperandTokens(o, ts)) == Parens(o) + Brackets(Build(o)) + Opening(ts)
    decreases Infix(l, op, r), 0
  {
    hide OpTokens, Closes, Opens, Resolve, TokenPrec, Build, LegalOperand;
    LegalInfix(l, op, r);
    assert OperandTokens(Infix(l, op, r), ts) == OperandTokens(l, OpTokens(op, OperandTokens(r, ts)));
    hide OperandTokens;
    OperandCount(r, ts);
    OpOpens(op, OperandTokens(r, ts));
    OperandCount(l, OpTokens(op, OperandTokens(r, ts)));
  }

  lemma LeafCount(o: Operand, ts: List<Token>)
    requires LegalOperand(o) && (o.Leaf? || o.Dotted? || o.NamedParameter?)
    ensures Opening(OperandTokens(o, ts)) == Parens(o) + Brackets(Build(o)) + Opening(ts)
  {
    if o.Dotted? {
      assert Opening(Cons(o.column, ts)) == Opening(ts);
    } else if o.NamedParameter? {
      assert Opening(Cons(Ident(o.name), ts)) == Opening(ts);
    }
  }

  lemma {:induction false} CallCount(f: Token, distinct: bool, args: Items, ts: List<Token>)
    requires LegalOperand(Call(f, distinct, args))
    ensures var o := Call(f, distinct, args);
            Opening(OperandTokens(o, ts)) == Parens(o) + Brackets(Build(o)) + Opening(ts)
    decreases Call(f, distinct, args), 0
  {
    hide ItemsTokens, ParensItems, BuildItems, BracketsList;
    ItemsCount(args, Cons(Sym(')'), ts));
    var list := ItemsTokens(args, Cons(Sym(')'), ts));
    var marked := if distinct then Cons(Kw(DISTINCT), list) else list;
    assert Opening(marked) == Opening(list);
    assert Opening(Cons(Sym('('), marked)) == 1 + Opening(list);
  }

  lemma {:induction false} OptCount(e: OptExpr, ts: List<Token>)
    requires LegalOpt(e)
    ensures Opening(OptTokens(e, ts)) == ParensOpt(e) + BracketsOpt(BuildOpt(e)) + Opening(ts)
    ensures Opening(ElseTokens(e, ts)) == ParensOpt(e) + BracketsOpt(BuildOpt(e)) + Opening(ts)
    decreases e
  {
    if e.SomeExpr? {
      ExprCount(e.expr, ts);
    }
  }

  lemma {:induction false} CaseCount(base: OptExpr, arms: Arms, otherwise: OptExpr, ts: List<Token>)
    requires LegalOperand(Case(base, arms, otherwise))
    ensures var o := Case(base, arms, otherwise);
            Opening(OperandTokens(o, ts)) == Parens(o) + Brackets(Build(o)) + Opening(ts)
    decreases Case(base, arms, otherwise), 0
  {
    hide OptTokens, ArmsTokens, ElseTokens;
    var closing := ElseTokens(otherwise, Cons(Kw(END), ts));
    OptCount(otherwise, Cons(Kw(END), ts));
    ArmsCount(arms, closing);
    OptCount(base, ArmsTokens(arms, closing));
  }

  lemma {:induction false} ExprCount(e: Expr, ts: List<Token>)
    requires LegalExpr(e)
    ensures Opening(ExprTokens(e, ts)) == ParensExpr(e) + Brackets(BuildExpr(e)) + Opening(ts)
    decreases e, 2
  {
    hide OperandTokens, Parens, ItemsTokens, ParensItems, Build, BuildItems, NegatedTokens, SelectTokens;
    match e
    case Plain(o) => OperandCount(o, ts);
    case And(l, r) =>
      ExprCount(r, ts);
      ExprCount(l, Cons(Kw(AND), ExprTokens(r, ts)));
    case Or(l, r) =>
      ExprCount(r, ts);
      ExprCount(l, Cons(Kw(OR), ExprTokens(r, ts)));
    case Between(o, lo, hi) => BetweenCount(o, lo, hi, ts);
    case InList(o, negated, items) => InListCount(o, negated, items, ts);
    case InSelect(o, negated, id) => InSelectCount(o, negated, id, ts);
    case Exists(negated, id) =>
      NegatedOpens(negated, EXISTS, SelectTokens(id, ts));
      SelectOpens(id, ts);
      NegatedBrackets(negated, OpExists(id));
  }

  lemma NegatedBrackets(negated: bool, n: Node)
    ensures Brackets(Negate(negated, n)) == Brackets(n)
  {}

  lemma {:induction false} BetweenCount(o: Operand, lo: Operand, hi: Operand, ts: List<Token>)
    requires LegalExpr(Between(o, lo, hi))
    ensures var e := Between(o, lo, hi);
            Opening(ExprTokens(e, ts)) == ParensExpr(e) + Brackets(BuildExpr(e)) + Opening(ts)
    decreases Between(o, lo, hi), 0
  {
    hide OperandTokens, Parens;
    OperandCount(hi, ts);
    var upper := Cons(Kw(AND), OperandTokens(hi, ts));
    OperandCount(lo, upper);
    OperandCount(o, Cons(Kw(BETWEEN), OperandTokens(lo, upper)));
  }

  lemma {:induction false} InListCount(o: Operand, negated: bool, items: Items, ts: List<Token>)
    requires LegalExpr(InList(o, negated, items))
    ensures var e := InList(o, negated, items);
            Opening(ExprTokens(e, ts)) == ParensExpr(e) + Brackets(BuildExpr(e)) + Opening(ts)
    decreases InList(o, negated, items), 0
  {
    hide OperandTokens, Parens, ItemsTokens, ParensItems, Build, BuildItems, NegatedTokens, Negate;
    NegatedBrackets(negated, OpIn(Build(o), BuildItems(items)));
    ItemsCount(items, Cons(Sym(')'), ts));
    var list := Cons(Sym('('), ItemsTokens(items, Cons(Sym(')'), ts)));
    NegatedOpens(negated, IN, list);
    OperandCount(o, NegatedTokens(negated, Kw(IN), list));
  }

  lemma {:induction false} InSelectCount(o: Operand, negated: bool, id: nat, ts: List<Token>)
    requires LegalExpr(InSelect(o, negated, id))
    ensures var e := InSelect(o, negated, id);
            Opening(ExprTokens(e, ts)) == ParensExpr(e) + Brackets(BuildExpr(e)) + Opening(ts)
    decreases InSelect(o, negated, id), 0
  {
    hide OperandTokens, Parens, Build, NegatedTokens, SelectTokens, Negate;
    NegatedBrackets(negated, OpInSelect(Build(o), id));
    SelectOpens(id, ts);
    NegatedOpens(negated, IN, SelectTokens(id, ts));
    OperandCount(o, NegatedTokens(negated, Kw(IN), SelectTokens(id, ts)));
  }

  lemma {:induction false} ItemsCount(items: Items, ts: List<Token>)
    requires LegalItems(items)
    ensures Opening(ItemsTokens(items, ts)) == ParensItems(items) + BracketsList(BuildItems(items)) + Opening(ts)
    decreases items
  {
    if items.Snoc? {
      AliasOpens(items.alias, ts);
      ExprCount(items.last, AliasTokens(items.alias, ts));
      if items.init.Snoc? {
        ItemsCount(items.init, Cons(Sym(','), ExprTokens(items.last, AliasTokens(items.alias, ts))));
      }
    }
  }

  lemma {:induction false} ArmsCount(arms: Arms, ts: List<Token>)
    requires LegalArms(arms)
    ensures Opening(ArmsTokens(arms, ts)) == ParensArms(arms) + BracketsArms(BuildArms(arms)) + Opening(ts)
    decreases arms
  {
    if arms.Arm? {
      ExprCount(arms.then_, ts);
      var afterWhen := Cons(Kw(THEN), ExprTokens(arms.then_, ts));
      ExprCount(arms.when, afterWhen);
      ArmsCount(arms.init, Cons(Kw(WHEN), ExprTokens(arms.when, afterWhen)));
    }
  }

  // ----- nodes that some token list stands for -----

  lemma {:induction false} BuiltOperand(o: Operand)
    requires LegalOperand(o)
    ensures Buildable(Build(o))
    decreases o
  {
    match o
    case Paren(e) => BuiltExpr(e);
    case Call(_, _, args) => BuiltItems(args);
    case Case(base, arms, otherwise) =>
      BuiltOpt(base);
      BuiltArms(arms);
      BuiltOpt(otherwise);
    case Neg(a) => BuiltOperand(a);
    case Not(a) => BuiltOperand(a);
    case Postfix(a, _) => BuiltOperand(a);
    case Infix(l, _, r) =>
      BuiltOperand(l);
      BuiltOperand(r);
    case _ =>
  }

  lemma {:induction false} BuiltExpr(e: Expr)
    requires LegalExpr(e)
    ensures Buildable(BuildExpr(e))
    decreases e
  {
    match e
    case Plain(o) => BuiltOperand(o);
    case And(l, r) =>
      BuiltExpr(l);
      BuiltExpr(r);
    case Or(l, r) =>
      BuiltExpr(l);
      BuiltExpr(r);
    case Between(o, lo, hi) =>
      BuiltOperand(o);
      BuiltOperand(lo);
      BuiltOperand(hi);
    case InList(o, _, items) =>
      BuiltOperand(o);
      BuiltItems(items);
    case InSelect(o, _, _) => BuiltOperand(o);
    case Exists(_, _) =>
  }

  lemma {:induction false} BuiltOpt(e: OptExpr)
    requires LegalOpt(e)
    ensures BuildableOpt(BuildOpt(e))
    decreases e
  {
    if e.SomeExpr? {
      BuiltExpr(e.expr);
    }
  }

  lemma {:induction false} BuiltItems(items: Items)
    requires LegalItems(items)
    ensures BuildableList(BuildItems(items)) && (items.Snoc? <==> BuildItems(items).Nodes?)
    decreases items
  {
    if items.Snoc? {
      BuiltItems(items.init);
      BuiltExpr(items.last);
    }
  }

  lemma {:induction false} BuiltArms(arms: Arms)
    requires LegalArms(arms)
    ensures BuildableArms(BuildArms(arms)) && (arms.Arm? <==> BuildArms(arms).NodeArm?)
    decreases arms
  {
    if arms.Arm? {
      BuiltArms(arms.init);
      BuiltExpr(arms.when);
      BuiltExpr(arms.then_);
    }
  }

  /** The buildable nodes are exactly the nodes that the parser returns. */
  lemma BuildableIffParsed(n: Node)
    ensures Buildable(n) <==> exists ts :: ParseNode(ts) == Some(n)
  {
    if Buildable(n) {
      TokenRoundTrip(n);
    }
    forall ts | ParseNode(ts) == Some(n) ensures Buildable(n) {
      ParseIsSound(ts, Parse(ts).value);
      BuiltExpr(Parse(ts).value);
    }
  }

  // ----- what the parser makes of fewer parentheses -----

  /** No token list of a node has fewer opening parentheses than its rendering. */
  lemma FewestParentheses(n: Node, ts: List<Token>)
    requires ParseNode(ts) == Some(n)
    ensures Opening(ts) >= Opening(ExprTokens(Render(n), Nil))
  {
    var e := Parse(ts).value;
    ParseIsSound(ts, e);
    BuildableIffParsed(n);
    RenderBuilds(n);
    ExprCount(e, Nil);
    ExprCount(Render(n), Nil);
    ExprIsLeast(e, Kw(AND), None);
  }

  function Without<T>(ts: List<T>, i: nat): List<T>
    requires i < ts.Size()
  {
    if i == 0 then ts.tail else Cons(ts.head, Without(ts.tail, i - 1))
  }

  function At<T>(ts: List<T>, i: nat): T
    requires i < ts.Size()
  {
    if i == 0 then ts.head else At(ts.tail, i - 1)
  }

  lemma {:induction false} OneLess(ts: List<Token>, i: nat, j: nat)
    requires i < j < ts.Size() && At(ts, i) == Sym('(')
    ensures i < Without(ts, j).Size() && Opening(Without(Without(ts, j), i)) < Opening(ts)
    decreases j
  {
    if i == 0 {
      WithoutOpens(ts.tail, j - 1);
    } else {
      OneLess(ts.tail, i - 1, j - 1);
    }
  }

  lemma {:induction false} WithoutOpens(ts: List<Token>, i: nat)
    requires i < ts.Size()
    ensures Opening(Without(ts, i)) <= Opening(ts)
  {
    if i > 0 {
      WithoutOpens(ts.tail, i - 1);
    }
  }

  /** Deleting any opening parenthesis of a rendering together with any later token, its partner for
      one, leaves a token list that is rejected or stands for another node. */
  lemma NoPairIsIdle(n: Node, i: nat, j: nat)
    requires i < j < ExprTokens(Render(n), Nil).Size() && At(ExprTokens(Render(n), Nil), i) == Sym('(')
    ensures i < Without(ExprTokens(Render(n), Nil), j).Size()
    ensures ParseNode(Without(Without(ExprTokens(Render(n), Nil), j), i)) != Some(n)
  {
    var ts := ExprTokens(Render(n), Nil);
    OneLess(ts, i, j);
    var rest := Without(Without(ts, j), i);
    if ParseNode(rest) == Some(n) {
      FewestParentheses(n, rest);
    }
  }
}
