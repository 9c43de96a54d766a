/**
 Every step of the machine keeps one invariant: the stack is built from legal pieces that were
 shifted for a good reason, and stack plus remaining input spell the original input.
 */
module Soundness {
  import opened Tokens
  import opened Precedence
  import opened Syntax
  import opened Machine

  /** The tokens already consumed by the pending rules, followed by `ts`. */
  ghost function StackTokens(k: Stack, ts: List<Token>): List<Token>
    decreases k
  {
    match k
    case Bottom => ts
    case Push(item, b) => StackTokens(b, ItemTokens(item, ts))
  }

  ghost function HeadTokens(h: ListHead, ts: List<Token>): List<Token> {
    match h
    case CallHead(f, distinct) => Cons(f, Cons(Sym('('), if distinct then Cons(Kw(DISTINCT), ts) else ts))
    case InHead(o, negated) => OperandTokens(o, NegatedTokens(negated, Kw(IN), Cons(Sym('('), ts)))
  }

  ghost function ItemTokens(item: Item, ts: List<Token>): List<Token> {
    match item
    case InfixI(l, op) => OperandTokens(l, OpTokens(op, ts))
    case NegI => Cons(Sym('-'), ts)
    case NotI => Cons(Kw(NOT), ts)
    case LowI(o) => OperandTokens(o, Cons(Kw(BETWEEN), ts))
    case HighI(o, lo) => OperandTokens(o, Cons(Kw(BETWEEN), OperandTokens(lo, Cons(Kw(AND), ts))))
    case AndI(l) => ExprTokens(l, Cons(Kw(AND), ts))
    case OrI(l) => ExprTokens(l, Cons(Kw(OR), ts))
    case ParenI => Cons(Sym('('), ts)
    case ListI(h, items) =>
      HeadTokens(h, if items.NoItems? then ts else ItemsTokens(items, Cons(Sym(','), ts)))
    case BaseI => Cons(Kw(CASE), ts)
    case WhenI(base, arms) => Cons(Kw(CASE), OptTokens(base, ArmsTokens(arms, Cons(Kw(WHEN), ts))))
    case ThenI(base, arms, w) =>
      Cons(Kw(CASE), OptTokens(base, ArmsTokens(arms, Cons(Kw(WHEN), ExprTokens(w, Cons(Kw(THEN), ts))))))
    case ElseI(base, arms) => Cons(Kw(CASE), OptTokens(base, ArmsTokens(arms, Cons(Kw(ELSE), ts))))
  }

  /** What the machine has read and what it has still to read, as one token list. */
  ghost function Whole(c: Config, ts: List<Token>): List<Token> {
    match c
    case Want(k) => StackTokens(k, ts)
    case HaveOperand(o, k) => StackTokens(k, OperandTokens(o, ts))
    case HaveExpr(e, k) => StackTokens(k, ExprTokens(e, ts))
  }

  ghost predicate LegalHead(h: ListHead, below: Stack) {
    match h
    case CallHead(f, _) => IsName(f)
    case InHead(o, negated) => AtExpr(below) && LegalOperand(o) && (negated ==> Closes(o, Kw(NOT)))
  }

  /** `item` may stand on `below`: its values are legal, and the operator behind its left operand
      closed everything inside that operand and was shifted over the rule below. */
  ghost predicate LegalItem(item: Item, below: Stack) {
    match item
    case InfixI(l, op) =>
      && LegalOperand(l) && Closes(l, FirstToken(op))
      && Resolve(OperandRule(below), FirstToken(op)) == Shift && Opens(OperandRule(below), l)
    case NegI => true
    case NotI => true
    case LowI(o) => AtExpr(below) && LegalOperand(o)
    case HighI(o, lo) => AtExpr(below) && LegalOperand(o) && LegalOperand(lo)
    case AndI(l) =>
      && AtExpr(below) && LegalExpr(l) && ExprCloses(l, Kw(AND))
      && Resolve(ExprRule(below), Kw(AND)) == Shift && ExprOpens(ExprRule(below), l)
    case OrI(l) =>
      && AtExpr(below) && LegalExpr(l) && ExprCloses(l, Kw(OR))
      && Resolve(ExprRule(below), Kw(OR)) == Shift && ExprOpens(ExprRule(below), l)
    case ParenI => true
    case ListI(h, items) => LegalHead(h, below) && LegalItems(items)
    case BaseI => true
    case WhenI(base, arms) => LegalOpt(base) && LegalArms(arms)
    case ThenI(base, arms, w) => LegalOpt(base) && LegalArms(arms) && LegalExpr(w)
    case ElseI(base, arms) => LegalOpt(base) && LegalArms(arms) && arms.Arm?
  }

  ghost predicate LegalStack(k: Stack) {
    match k
    case Bottom => true
    case Push(item, b) => LegalStack(b) && LegalItem(item, b)
  }

  ghost predicate ClosesBefore(o: Operand, ts: List<Token>) {
    ts.Cons? && ContinuesOperand(ts.head) ==> Closes(o, ts.head)
  }

  ghost predicate ExprClosesBefore(e: Expr, ts: List<Token>) {
    ts.Cons? && (ts.head == Kw(AND) || ts.head == Kw(OR)) ==> ExprCloses(e, ts.head)
  }

  ghost predicate Inv(c: Config, ts: List<Token>) {
    LegalStack(c.stack) &&
    match c
    case Want(k) => true
    case HaveOperand(o, k) => LegalOperand(o) && Opens(OperandRule(k), o) && ClosesBefore(o, ts)
    case HaveExpr(e, k) => AtExpr(k) && LegalExpr(e) && ExprOpens(ExprRule(k), e) && ExprClosesBefore(e, ts)
  }

  ghost predicate Kept(whole: List<Token>, out: Outcome) {
    match out
    case Next(c, rest) => Inv(c, rest) && Whole(c, rest) == whole
    case Accept(e) => LegalExpr(e) && ExprTokens(e, Nil) == whole
    case Reject => true
  }

  lemma InfixOfIsFirstToken(t: Token)
    requires InfixOf(t).Some?
    ensures FirstToken(InfixOf(t).value) == t && InfixOf(t).value != NotLike
  {}

  /** No rule without a precedence, and not the BETWEEN rule, ever yields to a reduction. */
  lemma AlwaysShifts(t: Token)
    requires ContinuesOperand(t)
    ensures Resolve(None, t) == Shift && Resolve(AND_RULE, t) == Shift
  {}

  /** `[NOT] IN` behind the operand `o`. */
  lemma InKeeps(o: Operand, negated: bool, k: Stack, ts: List<Token>)
    requires LegalStack(k) && LegalHead(InHead(o, negated), k)
    ensures Kept(StackTokens(k, OperandTokens(o, NegatedTokens(negated, Kw(IN), ts))), StepIn(o, negated, k, ts))
  {
    if ts.Cons? && ts.head == Sym('(') {
      if ts.tail.Cons? && ts.tail.head == Sym(')') {
        assert ExprTokens(InList(o, negated, NoItems), ts.tail.tail)
            == OperandTokens(o, NegatedTokens(negated, Kw(IN), ts));
      } else if ts.tail.Cons? && ts.tail.head.SubQuery? {
      } else {
        assert ItemTokens(ListI(InHead(o, negated), NoItems), ts.tail)
            == OperandTokens(o, NegatedTokens(negated, Kw(IN), ts));
      }
    }
  }

  lemma TestKeeps(o: Operand, test: NullTest, k: Stack, rest: List<Token>)
    requires LegalStack(k) && LegalOperand(o) && Closes(o, TestToken(test))
    requires Opens(OperandRule(k), o) && Resolve(OperandRule(k), TestToken(test)) == Shift
    ensures Kept(StackTokens(k, OperandTokens(o, TestTokens(test, rest))), Next(HaveOperand(Postfix(o, test), k), rest))
  {
    assert OperandTokens(Postfix(o, test), rest) == OperandTokens(o, TestTokens(test, rest));
  }

  lemma InfixKeeps(o: Operand, op: InfixOp, k: Stack, rest: List<Token>)
    requires LegalStack(k) && LegalOperand(o) && Closes(o, FirstToken(op))
    requires Opens(OperandRule(k), o) && Resolve(OperandRule(k), FirstToken(op)) == Shift
    ensures Kept(StackTokens(k, OperandTokens(o, OpTokens(op, rest))), Next(Want(Push(InfixI(o, op), k)), rest))
  {
    assert ItemTokens(InfixI(o, op), rest) == OperandTokens(o, OpTokens(op, rest));
  }

  lemma ShiftKeeps(o: Operand, k: Stack, ts: List<Token>)
    requires Inv(HaveOperand(o, k), ts) && ts.Cons? && ContinuesOperand(ts.head)
    requires Resolve(OperandRule(k), ts.head) == Shift
    ensures Kept(Whole(HaveOperand(o, k), ts), ShiftOperator(o, k, ts))
  {
    var t, rest := ts.head, ts.tail;
    if InfixOf(t).Some? {
      InfixOfIsFirstToken(t);
      InfixKeeps(o, InfixOf(t).value, k, rest);
    } else if t == Kw(ISNULL) {
      TestKeeps(o, IsNullWord, k, rest);
    } else if t == Kw(IS) {
      if rest.Cons? && rest.head == Kw(NULL) {
        TestKeeps(o, IsNullPair, k, rest.tail);
      } else if rest.Cons? && rest.head == Kw(NOT) && rest.tail.Cons? && rest.tail.head == Kw(NULL) {
        TestKeeps(o, IsNotNull, k, rest.tail.tail);
      }
    } else if rest.Cons? && rest.head == Kw(LIKE) {
      InfixKeeps(o, NotLike, k, rest.tail);
    } else if rest.Cons? && rest.head == Kw(IN) && AtExpr(k) {
      InKeeps(o, true, k, rest.tail);
    }
  }

  lemma ReduceKeeps(o: Operand, k: Stack, ts: List<Token>)
    requires Inv(HaveOperand(o, k), ts)
    requires ts.Cons? && ContinuesOperand(ts.head) ==> Resolve(OperandRule(k), ts.head) == Reduce
    ensures Kept(Whole(HaveOperand(o, k), ts), ReduceOperand(o, k, ts))
  {
    if AtExpr(k) {
      if ts.Cons? && ContinuesOperand(ts.head) {
        AlwaysShifts(ts.head);
      } else if ts.Cons? && ts.head == Kw(BETWEEN) {
        assert ItemTokens(LowI(o), ts.tail) == OperandTokens(o, ts);
      } else if ts.Cons? && ts.head == Kw(IN) {
        InKeeps(o, false, k, ts.tail);
      } else {
        assert ExprTokens(Plain(o), ts) == OperandTokens(o, ts);
      }
    } else {
      ReducePendingKeeps(o, k.item, k.below, ts);
    }
  }

  /** The yields of the operands and expressions that a pending item can become. */
  lemma PendingYields(o: Operand, item: Item, ts: List<Token>)
    ensures item.InfixI? ==> OperandTokens(Infix(item.left, item.op, o), ts) == ItemTokens(item, OperandTokens(o, ts))
    ensures item.NegI? ==> OperandTokens(Neg(o), ts) == ItemTokens(item, OperandTokens(o, ts))
    ensures item.NotI? ==> OperandTokens(Not(o), ts) == ItemTokens(item, OperandTokens(o, ts))
    ensures item.HighI? ==> ExprTokens(Between(item.subject, item.low, o), ts) == ItemTokens(item, OperandTokens(o, ts))
    ensures item.LowI? && ts.Cons? && ts.head == Kw(AND) ==>
              ItemTokens(HighI(item.subject, o), ts.tail) == ItemTokens(item, OperandTokens(o, ts))
  {}

  lemma ReducePendingKeeps(o: Operand, item: Item, below: Stack, ts: List<Token>)
    requires Inv(HaveOperand(o, Push(item, below)), ts) && !AtExpr(Push(item, below))
    requires ts.Cons? && ContinuesOperand(ts.head) ==> Resolve(OperandRule(Push(item, below)), ts.head) == Reduce
    ensures Kept(StackTokens(below, ItemTokens(item, OperandTokens(o, ts))), ReduceOperand(o, Push(item, below), ts))
  {
    hide OperandTokens, ExprTokens, ItemsTokens, ArmsTokens, OptTokens, ElseTokens, ItemTokens, HeadTokens;
    PendingYields(o, item, ts);
    if item.HighI? {
      BetweenTakesAll(o);
    }
  }

  lemma NameKeeps(t: Token, k: Stack, rest: List<Token>)
    requires LegalStack(k) && IsName(t)
    ensures Kept(Whole(Want(k), Cons(t, rest)), StepName(t, k, rest))
  {
    if rest.Cons? && rest.head == Sym('(') {
      var args := rest.tail;
      if args.Cons? && args.head == Sym(')') {
        assert OperandTokens(Call(t, false, NoItems), args.tail) == Cons(t, rest);
      } else if args.Cons? && args.head == Kw(DISTINCT) {
        assert ItemTokens(ListI(CallHead(t, true), NoItems), args.tail) == Cons(t, rest);
      } else {
        assert ItemTokens(ListI(CallHead(t, false), NoItems), args) == Cons(t, rest);
      }
    } else if t.Ident? && rest.Cons? && rest.head == Sym('.') {
    }
  }

  lemma BracketYields(ts: List<Token>)
    requires ts.Cons?
    ensures ts.head == Sym('(') ==> ItemTokens(ParenI, ts.tail) == ts
    ensures ts.head == Kw(CASE) ==> ItemTokens(BaseI, ts.tail) == ts
    ensures ts.head == Kw(CASE) && ts.tail.Cons? && ts.tail.head == Kw(WHEN) ==>
              ItemTokens(WhenI(NoExpr, NoArms), ts.tail.tail) == ts
    ensures forall id, rest :: ts == SelectTokens(id, rest) ==> OperandTokens(SubSelect(id), rest) == ts
  {}

  lemma BracketKeeps(k: Stack, ts: List<Token>)
    requires LegalStack(k) && ts.Cons? && (ts.head == Sym('(') || ts.head == Kw(CASE))
    ensures Kept(Whole(Want(k), ts), StepWant(k, ts))
  {
    hide OperandTokens, ExprTokens, ItemsTokens, ArmsTokens, OptTokens, ElseTokens, ItemTokens, HeadTokens;
    BracketYields(ts);
  }

  lemma WantKeeps(k: Stack, ts: List<Token>)
    requires LegalStack(k)
    ensures Kept(Whole(Want(k), ts), StepWant(k, ts))
  {
    if ts.Cons? {
      var t, rest := ts.head, ts.tail;
      if t == Sym('-') {
        assert ItemTokens(NegI, rest) == ts;
      } else if t == Kw(NOT) {
        if AtExpr(k) && rest.Cons? && rest.head == Kw(EXISTS) {
        } else {
          assert ItemTokens(NotI, rest) == ts;
        }
      } else if t == Kw(EXISTS) {
      } else if t == Sym('(') || t == Kw(CASE) {
        BracketKeeps(k, ts);
      } else if t == Sym(':') {
        if rest.Cons? && rest.head.Ident? {
          assert OperandTokens(NamedParameter(rest.head.name), rest.tail) == ts;
        }
      } else if IsName(t) {
        NameKeeps(t, k, rest);
      } else if IsLeaf(t) {
        assert OperandTokens(Leaf(t), rest) == ts;
      }
    }
  }

  lemma ItemKeeps(e: Expr, head: ListHead, items: Items, below: Stack, ts: List<Token>)
    requires Inv(HaveExpr(e, Push(ListI(head, items), below)), ts)
    ensures Kept(StackTokens(below, ItemTokens(ListI(head, items), ExprTokens(e, ts))),
              StepItem(e, head, items, below, ts))
  {
    match TakeAlias(ts)
    case None =>
    case Some((alias, rest)) =>
      var items' := Snoc(items, e, alias);
      assert LegalItems(items');
      if rest.Cons? && rest.head == Sym(',') {
        assert ItemTokens(ListI(head, items'), rest.tail) == ItemTokens(ListI(head, items), ExprTokens(e, ts));
      } else if rest.Cons? && rest.head == Sym(')') {
        match head
        case CallHead(f, distinct) =>
          assert OperandTokens(Call(f, distinct, items'), rest.tail)
              == HeadTokens(head, ItemsTokens(items', rest));
        case InHead(o, negated) =>
          assert ExprTokens(InList(o, negated, items'), rest.tail)
              == HeadTokens(head, ItemsTokens(items', rest));
      }
  }

  /** The yields of what an item and the expression behind it can become. */
  lemma ClosedYields(e: Expr, item: Item, ts: List<Token>)
    ensures item.AndI? ==> ExprTokens(And(item.leftExpr, e), ts) == ItemTokens(item, ExprTokens(e, ts))
    ensures item.OrI? ==> ExprTokens(Or(item.leftExpr, e), ts) == ItemTokens(item, ExprTokens(e, ts))
    ensures item.ParenI? && ts.Cons? && ts.head == Sym(')') ==>
              OperandTokens(Paren(e), ts.tail) == ItemTokens(item, ExprTokens(e, ts))
    ensures item.BaseI? && ts.Cons? && ts.head == Kw(WHEN) ==>
              ItemTokens(WhenI(SomeExpr(e), NoArms), ts.tail) == ItemTokens(item, ExprTokens(e, ts))
    ensures item.WhenI? && ts.Cons? && ts.head == Kw(THEN) ==>
              ItemTokens(ThenI(item.base, item.arms, e), ts.tail) == ItemTokens(item, ExprTokens(e, ts))
    ensures item.ElseI? && ts.Cons? && ts.head == Kw(END) ==>
              OperandTokens(Case(item.base, item.arms, SomeExpr(e)), ts.tail) == ItemTokens(item, ExprTokens(e, ts))
  {}

  lemma CloseKeeps(e: Expr, k: Stack, ts: List<Token>)
    requires Inv(HaveExpr(e, k), ts)
    requires ts.Cons? && (ts.head == Kw(AND) || ts.head == Kw(OR)) ==> Resolve(ExprRule(k), ts.head) != Shift
    ensures Kept(Whole(HaveExpr(e, k), ts), CloseExpr(e, k, ts))
  {
    hide OperandTokens, ExprTokens, ItemsTokens, ArmsTokens, OptTokens, ElseTokens, ItemTokens, HeadTokens;
    if k.Push? {
      ClosedYields(e, k.item, ts);
      assert LegalOpt(SomeExpr(e));
      match k.item
      case ListI(head, items) => ItemKeeps(e, head, items, k.below, ts);
      case ThenI(base, arms, when) => ArmKeeps(base, arms, when, e, k.below, ts);
      case _ =>
    }
  }

  lemma ArmYields(base: OptExpr, arms: Arms, when: Expr, e: Expr, ts: List<Token>)
    ensures var read := ItemTokens(ThenI(base, arms, when), ExprTokens(e, ts));
            var arms' := Arm(arms, when, e);
            ts.Cons? ==>
              && (ts.head == Kw(WHEN) ==> ItemTokens(WhenI(base, arms'), ts.tail) == read)
              && (ts.head == Kw(ELSE) ==> ItemTokens(ElseI(base, arms'), ts.tail) == read)
              && (ts.head == Kw(END) ==> OperandTokens(Case(base, arms', NoExpr), ts.tail) == read)
  {
    assert ItemTokens(ThenI(base, arms, when), ExprTokens(e, ts))
        == Cons(Kw(CASE), OptTokens(base, ArmsTokens(Arm(arms, when, e), ts)));
  }

  lemma ArmKeeps(base: OptExpr, arms: Arms, when: Expr, e: Expr, below: Stack, ts: List<Token>)
    requires Inv(HaveExpr(e, Push(ThenI(base, arms, when), below)), ts)
    ensures Kept(StackTokens(below, ItemTokens(ThenI(base, arms, when), ExprTokens(e, ts))),
                 CloseExpr(e, Push(ThenI(base, arms, when), below), ts))
  {
    hide OperandTokens, ExprTokens, ItemsTokens, ArmsTokens, OptTokens, ElseTokens, ItemTokens, HeadTokens;
    ArmYields(base, arms, when, e, ts);
    var arms' := Arm(arms, when, e);
    assert LegalArms(arms') && LegalOpt(NoExpr);
  }

  lemma StepKeeps(c: Config, ts: List<Token>)
    requires Inv(c, ts)
    ensures Kept(Whole(c, ts), Step(c, ts))
  {
    match c
    case Want(k) => WantKeeps(k, ts);
    case HaveOperand(o, k) =>
      if ts.Cons? && ContinuesOperand(ts.head) {
        match Resolve(OperandRule(k), ts.head)
        case Shift => ShiftKeeps(o, k, ts);
        case Reduce => ReduceKeeps(o, k, ts);
        case Error =>
      } else {
        ReduceKeeps(o, k, ts);
      }
    case HaveExpr(e, k) =>
      if !(ts.Cons? && (ts.head == Kw(AND) || ts.head == Kw(OR)) && Resolve(ExprRule(k), ts.head) == Shift) {
        CloseKeeps(e, k, ts);
      }
  }

  /** The invariant over a whole run: what is accepted is legal and spells the input. */
  lemma {:induction false} RunIsSound(c: Config, ts: List<Token>, e: Expr)
    requires Inv(c, ts) && Run(c, ts) == Some(e)
    ensures LegalExpr(e) && ExprTokens(e, Nil) == Whole(c, ts)
    decreases ts.Size(), c.Height()
  {
    StepKeeps(c, ts);
    match Step(c, ts)
    case Next(c', rest) => RunIsSound(c', rest, e);
    case Accept(_) =>
  }

  lemma ParseIsSound(ts: List<Token>, e: Expr)
    requires Parse(ts) == Some(e)
    ensures LegalExpr(e) && ExprTokens(e, Nil) == ts
  {
    RunIsSound(Want(Bottom), ts, e);
  }
}
