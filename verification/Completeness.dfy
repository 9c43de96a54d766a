/**
 The machine recovers every legal tree from its yield. Together with soundness this makes parsing
 a bijection between accepted token lists and legal trees.
 */
module Completeness {
  import opened Tokens
  import opened Precedence
  import opened Syntax
  import opened Machine
  import opened Soundness

  /** What may stand behind a complete operand: nothing that would extend a name. */
  ghost predicate Quiet(ts: List<Token>) {
    ts.Cons? ==> ts.head != Sym('(') && ts.head != Sym('.')
  }

  /** What may stand behind a complete expression, apart from AND and OR. */
  ghost predicate Ends(ts: List<Token>) {
    Quiet(ts) && (ts.Cons? ==> !ContinuesOperand(ts.head) && ts.head != Kw(BETWEEN) && ts.head != Kw(IN))
  }

  /** The tokens that can begin an operand. */
  predicate StartsOperand(t: Token) {
    t == Sym('-') || t == Kw(NOT) || t == Sym('(') || t == Kw(CASE) || t == Sym(':') || IsLeaf(t)
  }

  lemma {:induction false} OperandHead(o: Operand, ts: List<Token>)
    requires LegalOperand(o)
    ensures OperandTokens(o, ts).Cons? && StartsOperand(OperandTokens(o, ts).head)
  {
    match o
    case Postfix(a, test) => OperandHead(a, TestTokens(test, ts));
    case Infix(l, op, r) => OperandHead(l, OpTokens(op, OperandTokens(r, ts)));
    case _ =>
  }

  lemma {:induction false} ExprHead(e: Expr, ts: List<Token>)
    requires LegalExpr(e)
    ensures ExprTokens(e, ts).Cons?
    ensures StartsOperand(ExprTokens(e, ts).head) || ExprTokens(e, ts).head == Kw(EXISTS)
  {
    match e
    case Plain(o) => OperandHead(o, ts);
    case And(l, r) => ExprHead(l, Cons(Kw(AND), ExprTokens(r, ts)));
    case Or(l, r) => ExprHead(l, Cons(Kw(OR), ExprTokens(r, ts)));
    case Between(o, lo, hi) =>
      OperandHead(o, Cons(Kw(BETWEEN), OperandTokens(lo, Cons(Kw(AND), OperandTokens(hi, ts)))));
    case InList(o, negated, items) =>
      OperandHead(o, NegatedTokens(negated, Kw(IN), Cons(Sym('('), ItemsTokens(items, Cons(Sym(')'), ts)))));
    case InSelect(o, negated, id) => OperandHead(o, NegatedTokens(negated, Kw(IN), SelectTokens(id, ts)));
    case Exists(negated, id) =>
  }

  lemma {:induction false} ItemsHead(items: Items, ts: List<Token>)
    requires LegalItems(items) && items.Snoc?
    ensures ItemsTokens(items, ts).Cons?
    ensures StartsOperand(ItemsTokens(items, ts).head) || ItemsTokens(items, ts).head == Kw(EXISTS)
  {
    var rest := ExprTokens(items.last, AliasTokens(items.alias, ts));
    if items.init.NoItems? {
      ExprHead(items.last, AliasTokens(items.alias, ts));
    } else {
      ItemsHead(items.init, Cons(Sym(','), rest));
    }
  }

  lemma {:induction false} ArmsHead(arms: Arms, ts: List<Token>)
    requires arms.Arm?
    ensures ArmsTokens(arms, ts).Cons? && ArmsTokens(arms, ts).head == Kw(WHEN)
  {
    var rest := Cons(Kw(WHEN), ExprTokens(arms.when, Cons(Kw(THEN), ExprTokens(arms.then_, ts))));
    if arms.init.Arm? {
      ArmsHead(arms.init, rest);
    }
  }

  lemma InfixOfFirstToken(op: InfixOp)
    ensures op != NotLike ==> InfixOf(FirstToken(op)) == Some(op)
    ensures ContinuesOperand(FirstToken(op))
  {}

  // ----- single steps -----

  lemma ShiftsInfix(run: Observer, l: Operand, op: InfixOp, k: Stack, ts: List<Token>)
    requires Respects(run) && Resolve(OperandRule(k), FirstToken(op)) == Shift
    ensures run(HaveOperand(l, k), OpTokens(op, ts)) == run(Want(Push(InfixI(l, op), k)), ts)
  {
    InfixOfFirstToken(op);
    assert Step(HaveOperand(l, k), OpTokens(op, ts)) == Next(Want(Push(InfixI(l, op), k)), ts);
  }

  lemma ShiftsTest(run: Observer, a: Operand, test: NullTest, k: Stack, ts: List<Token>)
    requires Respects(run) && Resolve(OperandRule(k), TestToken(test)) == Shift
    ensures run(HaveOperand(a, k), TestTokens(test, ts)) == run(HaveOperand(Postfix(a, test), k), ts)
  {
    assert Step(HaveOperand(a, k), TestTokens(test, ts)) == Next(HaveOperand(Postfix(a, test), k), ts);
  }

  /** A pending prefix or infix rule is reduced when its operand is closed. */
  lemma Reduces(run: Observer, o: Operand, item: Item, k: Stack, ts: List<Token>)
    requires Respects(run) && (item.InfixI? || item.NegI? || item.NotI?)
    requires ts.Cons? && ContinuesOperand(ts.head) ==> Resolve(OperandRule(Push(item, k)), ts.head) == Reduce
    ensures run(HaveOperand(o, Push(item, k)), ts)
         == run(HaveOperand(if item.InfixI? then Infix(item.left, item.op,
             o) else if item.NegI? then Neg(o) else Not(o), k), ts)
  {
    var r := if item.InfixI? then Infix(item.left, item.op, o) else if item.NegI? then Neg(o) else Not(o);
    assert Step(HaveOperand(o, Push(item, k)), ts) == Next(HaveOperand(r, k), ts);
  }

  lemma StartsPrefix(run: Observer, negation: bool, k: Stack, ts: List<Token>)
    requires Respects(run) && (negation ==> ts.Cons? && ts.head != Kw(EXISTS))
    ensures run(Want(k), Cons(if negation then Kw(NOT) else Sym('-'), ts))
         == run(Want(Push(if negation then NotI else NegI, k)), ts)
  {
    assert Step(Want(k), Cons(if negation then Kw(NOT) else Sym('-'), ts))
        == Next(Want(Push(if negation then NotI else NegI, k)), ts);
  }

  lemma Parenthesised(run: Observer, e: Expr, k: Stack, inner: List<Token>, ts: List<Token>)
    requires Respects(run) && (inner.Cons? ==> !inner.head.SubQuery?)
    ensures run(Want(k), Cons(Sym('('), inner)) == run(Want(Push(ParenI, k)), inner)
    ensures run(HaveExpr(e, Push(ParenI, k)), Cons(Sym(')'), ts)) == run(HaveOperand(Paren(e), k), ts)
  {
    assert Step(Want(k), Cons(Sym('('), inner)) == Next(Want(Push(ParenI, k)), inner);
    assert Step(HaveExpr(e, Push(ParenI, k)), Cons(Sym(')'), ts)) == Next(HaveOperand(Paren(e), k), ts);
  }

  /** Operands without subexpressions. */
  lemma Atomic(run: Observer, o: Operand, k: Stack, ts: List<Token>)
    requires Respects(run) && LegalOperand(o) && Quiet(ts)
    requires o.Leaf? || o.Dotted? || o.NamedParameter? || o.SubSelect? || (o.Call? && o.args.NoItems?)
    ensures run(Want(k), OperandTokens(o, ts)) == run(HaveOperand(o, k), ts)
  {
    assert Step(Want(k), OperandTokens(o, ts)) == Next(HaveOperand(o, k), ts);
  }

  lemma StartsCall(run: Observer, f: Token, distinct: bool, k: Stack, ts: List<Token>)
    requires Respects(run) && IsName(f) && ts.Cons? && ts.head != Sym(')') && ts.head != Kw(DISTINCT)
    ensures run(Want(k), HeadTokens(CallHead(f, distinct), ts))
              == run(Want(Push(ListI(CallHead(f, distinct), NoItems), k)), ts)
  {
    assert Step(Want(k), HeadTokens(CallHead(f, distinct), ts))
        == Next(Want(Push(ListI(CallHead(f, distinct), NoItems), k)), ts);
  }

  lemma NextItem(run: Observer, e: Expr, alias: Alias, head: ListHead, init: Items, k: Stack, ts: List<Token>)
    requires Respects(run) && LegalAlias(alias)
    ensures run(HaveExpr(e, Push(ListI(head, init), k)), AliasTokens(alias, Cons(Sym(','), ts)))
         == run(Want(Push(ListI(head, Snoc(init, e, alias)), k)), ts)
  {
    var rest := Cons(Sym(','), ts);
    assert TakeAlias(AliasTokens(alias, rest)) == Some((alias, rest));
    assert Step(HaveExpr(e, Push(ListI(head, init), k)), AliasTokens(alias, rest))
        == Next(Want(Push(ListI(head, Snoc(init, e, alias)), k)), ts);
  }

  lemma LastItem(run: Observer, e: Expr, alias: Alias, head: ListHead, init: Items, k: Stack, ts: List<Token>)
    requires Respects(run) && LegalAlias(alias)
    ensures run(HaveExpr(e, Push(ListI(head, init), k)), AliasTokens(alias, Cons(Sym(')'), ts)))
         == run(ListValue(head, Snoc(init, e, alias), k), ts)
  {
    var rest := Cons(Sym(')'), ts);
    assert TakeAlias(AliasTokens(alias, rest)) == Some((alias, rest));
    assert Step(HaveExpr(e, Push(ListI(head, init), k)), AliasTokens(alias, rest))
        == Next(ListValue(head, Snoc(init, e, alias), k), ts);
  }

  lemma StartsIn(run: Observer, o: Operand, negated: bool, k: Stack, ts: List<Token>)
    requires Respects(run) && AtExpr(k)
    requires ts.Cons? && ts.head != Sym(')') && !ts.head.SubQuery?
    ensures run(HaveOperand(o, k), NegatedTokens(negated, Kw(IN), Cons(Sym('('), ts)))
         == run(Want(Push(ListI(InHead(o, negated), NoItems), k)), ts)
  {
    assert Step(HaveOperand(o, k), NegatedTokens(negated, Kw(IN), Cons(Sym('('), ts)))
        == Next(Want(Push(ListI(InHead(o, negated), NoItems), k)), ts);
  }

  lemma EmptyIn(run: Observer, o: Operand, negated: bool, k: Stack, ts: List<Token>)
    requires Respects(run) && AtExpr(k)
    ensures run(HaveOperand(o, k), NegatedTokens(negated, Kw(IN), Cons(Sym('('), Cons(Sym(')'), ts))))
         == run(HaveExpr(InList(o, negated, NoItems), k), ts)
  {
    assert Step(HaveOperand(o, k), NegatedTokens(negated, Kw(IN), Cons(Sym('('), Cons(Sym(')'), ts))))
        == Next(HaveExpr(InList(o, negated, NoItems), k), ts);
  }

  lemma SelectIn(run: Observer, o: Operand, negated: bool, id: nat, k: Stack, ts: List<Token>)
    requires Respects(run) && AtExpr(k)
    ensures run(HaveOperand(o, k), NegatedTokens(negated, Kw(IN), SelectTokens(id, ts)))
         == run(HaveExpr(InSelect(o, negated, id), k), ts)
  {
    assert TakeSelect(SelectTokens(id, ts)) == Some((id, ts));
    assert Step(HaveOperand(o, k), NegatedTokens(negated, Kw(IN), SelectTokens(id, ts)))
        == Next(HaveExpr(InSelect(o, negated, id), k), ts);
  }

  lemma ExistsStep(run: Observer, negated: bool, id: nat, k: Stack, ts: List<Token>)
    requires Respects(run) && AtExpr(k)
    ensures run(Want(k), NegatedTokens(negated, Kw(EXISTS), SelectTokens(id, ts)))
              == run(HaveExpr(Exists(negated, id), k), ts)
  {
    assert Step(Want(k), NegatedTokens(negated, Kw(EXISTS), SelectTokens(id,
        ts))) == Next(HaveExpr(Exists(negated, id), k), ts);
  }

  lemma BetweenSteps(run: Observer, o: Operand, lo: Operand, hi: Operand, k: Stack, ts: List<Token>)
    requires Respects(run) && AtExpr(k)
    ensures run(HaveOperand(o, k), Cons(Kw(BETWEEN), ts)) == run(Want(Push(LowI(o), k)), ts)
    ensures run(HaveOperand(lo, Push(LowI(o), k)), Cons(Kw(AND), ts)) == run(Want(Push(HighI(o, lo), k)), ts)
    ensures (ts.Cons? ==> !ContinuesOperand(ts.head)) ==>
              run(HaveOperand(hi, Push(HighI(o, lo), k)), ts) == run(HaveExpr(Between(o, lo, hi), k), ts)
  {
    assert Step(HaveOperand(o, k), Cons(Kw(BETWEEN), ts)) == Next(Want(Push(LowI(o), k)), ts);
    assert Step(HaveOperand(lo, Push(LowI(o), k)), Cons(Kw(AND), ts)) == Next(Want(Push(HighI(o, lo), k)), ts);
    if ts.Cons? ==> !ContinuesOperand(ts.head) {
      assert Step(HaveOperand(hi, Push(HighI(o, lo), k)), ts) == Next(HaveExpr(Between(o, lo, hi), k), ts);
    }
  }

  lemma BecomesExpr(run: Observer, o: Operand, k: Stack, ts: List<Token>)
    requires Respects(run) && AtExpr(k) && Ends(ts)
    ensures run(HaveOperand(o, k), ts) == run(HaveExpr(Plain(o), k), ts)
  {
    assert Step(HaveOperand(o, k), ts) == Next(HaveExpr(Plain(o), k), ts);
  }

  lemma ShiftsLogic(run: Observer, l: Expr, conj: bool, k: Stack, ts: List<Token>)
    requires Respects(run) && Resolve(ExprRule(k), if conj then Kw(AND) else Kw(OR)) == Shift
    ensures run(HaveExpr(l, k), Cons(if conj then Kw(AND) else Kw(OR), ts))
         == run(Want(Push(if conj then AndI(l) else OrI(l), k)), ts)
  {
    assert Step(HaveExpr(l, k), Cons(if conj then Kw(AND) else Kw(OR), ts))
        == Next(Want(Push(if conj then AndI(l) else OrI(l), k)), ts);
  }

  lemma ReducesLogic(run: Observer, l: Expr, r: Expr, conj: bool, k: Stack, ts: List<Token>)
    requires Respects(run)
    requires ts.Cons? && (ts.head == Kw(AND) || ts.head == Kw(OR)) ==>
               Resolve(if conj then AND_RULE else OR_RULE, ts.head) == Reduce
    ensures run(HaveExpr(r, Push(if conj then AndI(l) else OrI(l), k)), ts)
         == run(HaveExpr(if conj then And(l, r) else Or(l, r), k), ts)
  {
    assert Step(HaveExpr(r, Push(if conj then AndI(l) else OrI(l), k)), ts)
        == Next(HaveExpr(if conj then And(l, r) else Or(l, r), k), ts);
  }

  lemma CaseSteps(run: Observer, base: OptExpr, k: Stack, ts: List<Token>)
    requires Respects(run)
    ensures base.NoExpr? ==>
              run(Want(k), Cons(Kw(CASE), Cons(Kw(WHEN), ts))) == run(Want(Push(WhenI(NoExpr, NoArms), k)), ts)
    ensures base.SomeExpr? && ts.Cons? && ts.head != Kw(WHEN) ==>
              run(Want(k), Cons(Kw(CASE), ts)) == run(Want(Push(BaseI, k)), ts)
    ensures base.SomeExpr? ==>
              run(HaveExpr(base.expr, Push(BaseI, k)), Cons(Kw(WHEN), ts))
                == run(Want(Push(WhenI(base, NoArms), k)), ts)
  {
    if base.NoExpr? {
      assert Step(Want(k), Cons(Kw(CASE), Cons(Kw(WHEN), ts))) == Next(Want(Push(WhenI(NoExpr, NoArms), k)), ts);
    } else {
      if ts.Cons? && ts.head != Kw(WHEN) {
        assert Step(Want(k), Cons(Kw(CASE), ts)) == Next(Want(Push(BaseI, k)), ts);
      }
      assert Step(HaveExpr(base.expr, Push(BaseI, k)), Cons(Kw(WHEN), ts))
          == Next(Want(Push(WhenI(base, NoArms), k)), ts);
    }
  }

  lemma ArmSteps(run: Observer, base: OptExpr, arms: Arms, w: Expr, t: Expr, k: Stack, ts: List<Token>)
    requires Respects(run)
    ensures run(HaveExpr(w, Push(WhenI(base, arms), k)), Cons(Kw(THEN), ts))
              == run(Want(Push(ThenI(base, arms, w), k)), ts)
    ensures run(HaveExpr(t, Push(ThenI(base, arms, w), k)), Cons(Kw(WHEN), ts))
         == run(Want(Push(WhenI(base, Arm(arms, w, t)), k)), ts)
  {
    assert Step(HaveExpr(w, Push(WhenI(base, arms), k)), Cons(Kw(THEN), ts))
        == Next(Want(Push(ThenI(base, arms, w), k)), ts);
    assert Step(HaveExpr(t, Push(ThenI(base, arms, w), k)), Cons(Kw(WHEN), ts))
        == Next(Want(Push(WhenI(base, Arm(arms, w, t)), k)), ts);
  }

  lemma EndSteps(run: Observer, base: OptExpr, arms: Arms, x: Expr, k: Stack, ts: List<Token>)
    requires Respects(run) && arms.Arm?
    ensures run(HaveExpr(arms.then_, Push(ThenI(base, arms.init, arms.when), k)), Cons(Kw(ELSE), ts))
         == run(Want(Push(ElseI(base, arms), k)), ts)
    ensures run(HaveExpr(arms.then_, Push(ThenI(base, arms.init, arms.when), k)), Cons(Kw(END), ts))
         == run(HaveOperand(Case(base, arms, NoExpr), k), ts)
    ensures run(HaveExpr(x, Push(ElseI(base, arms), k)), Cons(Kw(END), ts))
         == run(HaveOperand(Case(base, arms, SomeExpr(x)), k), ts)
  {
    var kt := Push(ThenI(base, arms.init, arms.when), k);
    assert Step(HaveExpr(arms.then_, kt), Cons(Kw(ELSE), ts)) == Next(Want(Push(ElseI(base, arms), k)), ts);
    assert Step(HaveExpr(arms.then_, kt), Cons(Kw(END), ts)) == Next(HaveOperand(Case(base, arms, NoExpr), k), ts);
    assert Step(HaveExpr(x, Push(ElseI(base, arms), k)), Cons(Kw(END), ts))
        == Next(HaveOperand(Case(base, arms, SomeExpr(x)), k), ts);
  }

  // ----- whole trees -----

  /** From the start of a legal operand the machine reaches its end with the operand on the stack,
      whatever stands below, provided the rule below lets the operand grow and the lookahead
      closes it. */
  lemma {:induction false} RunsOperand(run: Observer, o: Operand, k: Stack, ts: List<Token>)
    requires Respects(run)
    requires LegalOperand(o) && Opens(OperandRule(k), o) && ClosesBefore(o, ts) && Quiet(ts)
    ensures run(Want(k), OperandTokens(o, ts)) == run(HaveOperand(o, k), ts)
    decreases o, 2
  {
    match o
    case Infix(l, op, r) => RunsInfix(run, l, op, r, k, ts);
    case Postfix(a, test) =>
      RunsOperand(run, a, k, TestTokens(test, ts));
      ShiftsTest(run, a, test, k, ts);
    case Neg(a) => RunsPrefix(run, false, a, k, ts);
    case Not(a) => RunsPrefix(run, true, a, k, ts);
    case Case(base, arms, otherwise) => RunsCase(run, base, arms, otherwise, k, ts);
    case Call(f, distinct, args) =>
      if args.NoItems? {
        Atomic(run, o, k, ts);
      } else {
        RunsCall(run, f, distinct, args, k, ts);
      }
    case Paren(e) => RunsParen(run, e, k, ts);
    case _ =>
      Atomic(run, o, k, ts);
  }

  lemma {:induction false} RunsInfix(run: Observer, l: Operand, op: InfixOp, r: Operand, k: Stack, ts: List<Token>)
    requires Respects(run)
    requires LegalOperand(Infix(l, op, r)) && Opens(OperandRule(k), Infix(l, op, r))
              && ClosesBefore(Infix(l, op, r), ts) && Quiet(ts)
    ensures run(Want(k), OperandTokens(Infix(l, op, r), ts)) == run(HaveOperand(Infix(l, op, r), k), ts)
    decreases Infix(l, op, r), 0
  {
    var rest := OperandTokens(r, ts);
    InfixOfFirstToken(op);
    RunsOperand(run, l, k, OpTokens(op, rest));
    ShiftsInfix(run, l, op, k, rest);
    RunsOperand(run, r, Push(InfixI(l, op), k), ts);
    Reduces(run, r, InfixI(l, op), k, ts);
  }

  lemma {:induction false} RunsPrefix(run: Observer, negation: bool, a: Operand, k: Stack, ts: List<Token>)
    requires Respects(run)
    requires var o := if negation then Not(a) else Neg(a); LegalOperand(o) && ClosesBefore(o, ts)
    requires Quiet(ts)
    ensures var o := if negation then Not(a) else Neg(a);
            run(Want(k), OperandTokens(o, ts)) == run(HaveOperand(o, k), ts)
    decreases if negation then Not(a) else Neg(a), 0
  {
    var item := if negation then NotI else NegI;
    OperandHead(a, ts);
    StartsPrefix(run, negation, k, OperandTokens(a, ts));
    RunsOperand(run, a, Push(item, k), ts);
    Reduces(run, a, item, k, ts);
  }

  lemma {:induction false} RunsParen(run: Observer, e: Expr, k: Stack, ts: List<Token>)
    requires Respects(run) && LegalExpr(e)
    ensures run(Want(k), OperandTokens(Paren(e), ts)) == run(HaveOperand(Paren(e), k), ts)
    decreases e, 4
  {
    var closing := Cons(Sym(')'), ts);
    ExprHead(e, closing);
    Parenthesised(run, e, k, ExprTokens(e, closing), ts);
    RunsNested(run, e, Push(ParenI, k), closing);
  }

  lemma {:induction false} RunsCall(run: Observer, f: Token, distinct: bool, args: Items, k: Stack, ts: List<Token>)
    requires Respects(run) && LegalOperand(Call(f, distinct, args)) && args.Snoc?
    ensures run(Want(k), OperandTokens(Call(f, distinct, args), ts)) == run(HaveOperand(Call(f, distinct, args), k), ts)
    decreases args, 5
  {
    var closing := Cons(Sym(')'), ts);
    ItemsHead(args, closing);
    StartsCall(run, f, distinct, k, ItemsTokens(args, closing));
    RunsItems(run, args, CallHead(f, distinct), k, closing);
    LastItem(run, args.last, args.alias, CallHead(f, distinct), args.init, k, ts);
  }

  /** An expression list, up to the alias of its last element. */
  lemma {:induction false} RunsItems(run: Observer, items: Items, head: ListHead, k: Stack, ts: List<Token>)
    requires Respects(run) && LegalItems(items) && items.Snoc?
    requires ts.Cons? && (ts.head == Sym(',') || ts.head == Sym(')'))
    ensures run(Want(Push(ListI(head, NoItems), k)), ItemsTokens(items, ts))
         == run(HaveExpr(items.last, Push(ListI(head, items.init), k)), AliasTokens(items.alias, ts))
    decreases items, 4
  {
    var init, e := items.init, items.last;
    var tail := AliasTokens(items.alias, ts);
    if init.Snoc? {
      RunsItems(run, init, head, k, Cons(Sym(','), ExprTokens(e, tail)));
      NextItem(run, init.last, init.alias, head, init.init, k, ExprTokens(e, tail));
    }
    RunsNested(run, e, Push(ListI(head, init), k), tail);
  }

  lemma {:induction false} RunsCase(run: Observer, base: OptExpr, arms: Arms, otherwise: OptExpr, k: Stack,
                                    ts: List<Token>)
    requires Respects(run) && LegalOperand(Case(base, arms, otherwise))
    ensures run(Want(k), OperandTokens(Case(base, arms, otherwise), ts))
         == run(HaveOperand(Case(base, arms, otherwise), k), ts)
    decreases Case(base, arms, otherwise), 1
  {
    var closing := ElseTokens(otherwise, Cons(Kw(END), ts));
    ArmsHead(arms, closing);
    RunsBase(run, base, arms, otherwise, k, ArmsTokens(arms, closing).tail);
    RunsArms(run, base, arms, k, closing);
    RunsElse(run, base, arms, otherwise, k, ts);
  }

  lemma {:induction false} RunsBase(run: Observer, base: OptExpr, arms: Arms, otherwise: OptExpr, k: Stack,
                                    body: List<Token>)
    requires Respects(run) && LegalOpt(base)
    ensures run(Want(k), Cons(Kw(CASE), OptTokens(base, Cons(Kw(WHEN), body))))
              == run(Want(Push(WhenI(base, NoArms), k)), body)
    decreases Case(base, arms, otherwise), 0
  {
    match base
    case NoExpr => CaseSteps(run, base, k, body);
    case SomeExpr(b) =>
      ExprHead(b, Cons(Kw(WHEN), body));
      CaseSteps(run, base, k, ExprTokens(b, Cons(Kw(WHEN), body)));
      RunsNested(run, b, Push(BaseI, k), Cons(Kw(WHEN), body));
      CaseSteps(run, base, k, body);
  }

  lemma {:induction false} RunsElse(run: Observer, base: OptExpr, arms: Arms, otherwise: OptExpr, k: Stack,
                                    ts: List<Token>)
    requires Respects(run) && LegalOpt(otherwise) && arms.Arm?
    ensures run(HaveExpr(arms.then_, Push(ThenI(base, arms.init, arms.when), k)),
              ElseTokens(otherwise, Cons(Kw(END), ts)))
         == run(HaveOperand(Case(base, arms, otherwise), k), ts)
    decreases Case(base, arms, otherwise), 0
  {
    match otherwise
    case NoExpr => EndSteps(run, base, arms, arms.then_, k, ts);
    case SomeExpr(x) =>
      var tail := Cons(Kw(END), ts);
      EndSteps(run, base, arms, x, k, ExprTokens(x, tail));
      RunsNested(run, x, Push(ElseI(base, arms), k), tail);
      EndSteps(run, base, arms, x, k, ts);
  }

  lemma {:induction false} RunsArms(run: Observer, base: OptExpr, arms: Arms, k: Stack, ts: List<Token>)
    requires Respects(run) && LegalArms(arms) && arms.Arm?
    requires ts.Cons? && (ts.head == Kw(WHEN) || ts.head == Kw(ELSE) || ts.head == Kw(END))
    ensures ArmsTokens(arms, ts).Cons?
    ensures run(Want(Push(WhenI(base, NoArms), k)), ArmsTokens(arms, ts).tail)
         == run(HaveExpr(arms.then_, Push(ThenI(base, arms.init, arms.when), k)), ts)
    decreases arms
  {
    var init, w, t := arms.init, arms.when, arms.then_;
    ArmsHead(arms, ts);
    if init.Arm? {
      var afterWhen := ExprTokens(w, Cons(Kw(THEN), ExprTokens(t, ts)));
      RunsArms(run, base, init, k, Cons(Kw(WHEN), afterWhen));
      ArmSteps(run, base, init.init, init.when, init.then_, k, afterWhen);
    }
    RunsArm(run, base, init, w, t, k, ts);
  }

  lemma {:induction false} RunsArm(run: Observer, base: OptExpr, init: Arms, w: Expr, t: Expr, k: Stack,
                                   ts: List<Token>)
    requires Respects(run) && LegalExpr(w) && LegalExpr(t)
    requires ts.Cons? && (ts.head == Kw(WHEN) || ts.head == Kw(ELSE) || ts.head == Kw(END))
    ensures run(Want(Push(WhenI(base, init), k)), ExprTokens(w, Cons(Kw(THEN), ExprTokens(t, ts))))
         == run(HaveExpr(t, Push(ThenI(base, init, w), k)), ts)
    decreases Arm(init, w, t), 0
  {
    hide Step, ArmsTokens, OptTokens;
    var afterThen := ExprTokens(t, ts);
    RunsNested(run, w, Push(WhenI(base, init), k), Cons(Kw(THEN), afterThen));
    ArmSteps(run, base, init, w, t, k, afterThen);
    RunsNested(run, t, Push(ThenI(base, init, w), k), ts);
  }

  /** The same for expressions. */
  lemma {:induction false} RunsExpr(run: Observer, e: Expr, k: Stack, ts: List<Token>)
    requires Respects(run)
    requires LegalExpr(e) && AtExpr(k) && ExprOpens(ExprRule(k), e) && ExprClosesBefore(e, ts) && Ends(ts)
    ensures run(Want(k), ExprTokens(e, ts)) == run(HaveExpr(e, k), ts)
    decreases e, 2
  {
    match e
    case Plain(o) =>
      OpensEverywhere(o, k);
      RunsOperand(run, o, k, ts);
      BecomesExpr(run, o, k, ts);
    case And(l, r) =>
      RunsExpr(run, l, k, Cons(Kw(AND), ExprTokens(r, ts)));
      ShiftsLogic(run, l, true, k, ExprTokens(r, ts));
      RunsExpr(run, r, Push(AndI(l), k), ts);
      ReducesLogic(run, l, r, true, k, ts);
    case Or(l, r) =>
      RunsExpr(run, l, k, Cons(Kw(OR), ExprTokens(r, ts)));
      ShiftsLogic(run, l, false, k, ExprTokens(r, ts));
      RunsExpr(run, r, Push(OrI(l), k), ts);
      ReducesLogic(run, l, r, false, k, ts);
    case Between(o, lo, hi) => RunsBetween(run, o, lo, hi, k, ts);
    case InList(o, negated, items) => RunsInList(run, o, negated, items, k, ts);
    case InSelect(o, negated, id) =>
      OpensEverywhere(o, k);
      RunsOperand(run, o, k, NegatedTokens(negated, Kw(IN), SelectTokens(id, ts)));
      SelectIn(run, o, negated, id, k, ts);
    case Exists(negated, id) =>
      ExistsStep(run, negated, id, k, ts);
  }

  lemma {:induction false} RunsBetween(run: Observer, o: Operand, lo: Operand, hi: Operand, k: Stack, ts: List<Token>)
    requires Respects(run) && LegalExpr(Between(o, lo, hi)) && AtExpr(k) && Ends(ts)
    ensures run(Want(k), ExprTokens(Between(o, lo, hi), ts)) == run(HaveExpr(Between(o, lo, hi), k), ts)
    decreases Between(o, lo, hi), 0
  {
    var afterAnd := OperandTokens(hi, ts);
    var afterBetween := OperandTokens(lo, Cons(Kw(AND), afterAnd));
    OpensEverywhere(o, k);
    RunsOperand(run, o, k, Cons(Kw(BETWEEN), afterBetween));
    BetweenSteps(run, o, lo, hi, k, afterBetween);
    OpensEverywhere(lo, Push(LowI(o), k));
    RunsOperand(run, lo, Push(LowI(o), k), Cons(Kw(AND), afterAnd));
    BetweenSteps(run, o, lo, hi, k, afterAnd);
    RunsOperand(run, hi, Push(HighI(o, lo), k), ts);
    BetweenSteps(run, o, lo, hi, k, ts);
  }

  lemma {:induction false} RunsInList(run: Observer, o: Operand, negated: bool, items: Items, k: Stack, ts: List<Token>)
    requires Respects(run) && LegalExpr(InList(o, negated, items)) && AtExpr(k)
    ensures run(Want(k), ExprTokens(InList(o, negated, items), ts)) == run(HaveExpr(InList(o, negated, items), k), ts)
    decreases InList(o, negated, items), 0
  {
    var closing := Cons(Sym(')'), ts);
    var list := ItemsTokens(items, closing);
    OpensEverywhere(o, k);
    RunsOperand(run, o, k, NegatedTokens(negated, Kw(IN), Cons(Sym('('), list)));
    if items.NoItems? {
      EmptyIn(run, o, negated, k, ts);
    } else {
      ItemsHead(items, closing);
      StartsIn(run, o, negated, k, list);
      RunsItems(run, items, InHead(o, negated), k, closing);
      LastItem(run, items.last, items.alias, InHead(o, negated), items.init, k, ts);
    }
  }

  /** An expression between delimiters: no AND or OR rule is pending below it. */
  lemma {:induction false} RunsNested(run: Observer, e: Expr, k: Stack, ts: List<Token>)
    requires Respects(run) && LegalExpr(e) && AtExpr(k) && ExprRule(k) == None && Ends(ts)
    requires ts.Cons? ==> ts.head != Kw(AND) && ts.head != Kw(OR)
    ensures run(Want(k), ExprTokens(e, ts)) == run(HaveExpr(e, k), ts)
    decreases e, 3
  {
    TopIsOpen(e);
    RunsExpr(run, e, k, ts);
  }

  /** In expression position, and behind BETWEEN, no rule holds back an operand. */
  lemma {:induction false} OpensEverywhere(o: Operand, k: Stack)
    requires AtExpr(k) || k.item.LowI?
    ensures Opens(OperandRule(k), o)
  {
    match o
    case Postfix(a, _) => OpensEverywhere(a, k);
    case Infix(l, _, _) => OpensEverywhere(l, k);
    case _ =>
  }

  lemma {:induction false} TopIsOpen(e: Expr)
    ensures ExprOpens(None, e)
  {
    match e
    case And(l, _) => TopIsOpen(l);
    case Or(l, _) => TopIsOpen(l);
    case _ =>
  }

  lemma ParseIsComplete(e: Expr)
    requires LegalExpr(e)
    ensures Parse(ExprTokens(e, Nil)) == Some(e)
  {
    RunDecides();
    RunsNested(Run, e, Bottom, Nil);
  }

  /** Parsing is a bijection: a token list is accepted with the tree `e` exactly when `e` respects
      the precedence table and spells that list. */
  lemma ParseIffLegal(ts: List<Token>, e: Expr)
    ensures Parse(ts) == Some(e) <==> LegalExpr(e) && ExprTokens(e, Nil) == ts
  {
    if Parse(ts) == Some(e) {
      ParseIsSound(ts, e);
    }
    if LegalExpr(e) && ExprTokens(e, Nil) == ts {
      ParseIsComplete(e);
    }
  }

  /** The precedence table makes the grammar unambiguous. */
  lemma LegalTreesAreUnique(e: Expr, e': Expr)
    requires LegalExpr(e) && LegalExpr(e') && ExprTokens(e, Nil) == ExprTokens(e', Nil)
    ensures e == e'
  {
    ParseIsComplete(e);
    ParseIsComplete(e');
  }
}
