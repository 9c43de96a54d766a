/**
 How the precedence table reads some token lists that look ambiguous, with the exact condition for
 each reading.
 */
module Readings {
  import opened Tokens
  import opened Precedence
  import opened Syntax
  import opened Machine
  import opened Soundness
  import opened Completeness

  // ----- prefix minus -----

  /** The prefix minus rule has the precedence of binary minus (the declared UMINUS is not used), so
      these operators are stronger. */
  predicate StrongerThanMinus(op: InfixOp) {
    op == Asterisk || op == Slash || op == Percentage || op == Caret || op == Concatenate
  }

  lemma MinusLevels(op: InfixOp)
    ensures StrongerThanMinus(op) <==> Resolve(NEG_RULE, FirstToken(op)) == Shift
    ensures !StrongerThanMinus(op) <==> Resolve(NEG_RULE, FirstToken(op)) == Reduce
  {}

  /** `- a op b` negates `a op b` if `op` is one of the stronger operators, and otherwise only `a`. */
  lemma MinusReading(a: Operand, op: InfixOp, b: Operand)
    requires LegalOperand(Infix(a, op, b)) && Opens(NEG_RULE, a)
    ensures OperandTokens(Neg(Infix(a, op, b)), Nil) == OperandTokens(Infix(Neg(a), op, b), Nil)
    ensures Parse(OperandTokens(Neg(Infix(a, op, b)), Nil))
         == Some(Plain(if StrongerThanMinus(op) then Neg(Infix(a, op, b)) else Infix(Neg(a), op, b)))
  {
    MinusLevels(op);
    var e := if StrongerThanMinus(op) then Neg(Infix(a, op, b)) else Infix(Neg(a), op, b);
    assert LegalOperand(Neg(a));
    assert LegalOperand(e);
    assert LegalExpr(Plain(e)) && ExprTokens(Plain(e), Nil) == OperandTokens(e, Nil);
    ParseIsComplete(Plain(e));
  }

  // ----- NOT IN -----

  /** A prefix NOT whose operand is still open at the end of `o`. */
  predicate EndsInNot(o: Operand) {
    match o
    case Not(_) => true
    case Neg(a) => EndsInNot(a)
    case Infix(_, _, r) => EndsInNot(r)
    case _ => false
  }

  lemma {:induction false} ClosesIffNoNot(o: Operand)
    ensures Closes(o, Kw(NOT)) <==> !EndsInNot(o)
  {
    match o
    case Neg(a) => ClosesIffNoNot(a);
    case Infix(_, op, r) => ClosesIffNoNot(r);
    case _ =>
  }

  /** Behind an open prefix NOT the machine shifts the second NOT and then finds IN. */
  lemma {:induction false} OpenNotRejects(run: Observer, o: Operand, k: Stack, rest: List<Token>)
    requires Decides(run)
    requires LegalOperand(o) && Opens(OperandRule(k), o) && EndsInNot(o)
    ensures run(Want(k), OperandTokens(o, Cons(Kw(NOT), Cons(Kw(IN), rest)))) == None
  {
    hide Step, Respects;
    var ts := Cons(Kw(NOT), Cons(Kw(IN), rest));
    match o
    case Infix(l, op, r) =>
      InfixOfFirstToken(op);
      RunsOperand(run, l, k, OpTokens(op, OperandTokens(r, ts)));
      ShiftsInfix(run, l, op, k, OperandTokens(r, ts));
      OpenNotRejects(run, r, Push(InfixI(l, op), k), rest);
    case Neg(a) =>
      StartsPrefix(run, false, k, OperandTokens(a, ts));
      OpenNotRejects(run, a, Push(NegI, k), rest);
    case Not(a) =>
      OperandHead(a, ts);
      StartsPrefix(run, true, k, OperandTokens(a, ts));
      if EndsInNot(a) {
        OpenNotRejects(run, a, Push(NotI, k), rest);
      } else {
        ClosesIffNoNot(a);
        RunsOperand(run, a, Push(NotI, k), ts);
        StuckOnIn(run, a, k, rest);
      }
  }

  lemma StuckOnIn(run: Observer, a: Operand, k: Stack, rest: List<Token>)
    requires Decides(run)
    ensures run(HaveOperand(a, Push(NotI, k)), Cons(Kw(NOT), Cons(Kw(IN), rest))) == None
  {
    assert Step(HaveOperand(a, Push(NotI, k)), Cons(Kw(NOT), Cons(Kw(IN), rest))) == Reject;
  }

  /** `o IN (...)` is always accepted, and takes the whole operand, NOT included. `o NOT IN (...)`
      is accepted exactly when no prefix NOT is open at the end of `o`. */
  lemma NotInReading(o: Operand, negated: bool, items: Items)
    requires LegalOperand(o) && LegalItems(items)
    ensures Parse(ExprTokens(InList(o, negated, items), Nil))
         == if negated && EndsInNot(o) then None else Some(InList(o, negated, items))
  {
    hide Parse, EndsInNot;
    if negated && EndsInNot(o) {
      NotInRejects(o, Cons(Sym('('), ItemsTokens(items, Cons(Sym(')'), Nil))));
    } else {
      ClosesIffNoNot(o);
      ParseIsComplete(InList(o, negated, items));
    }
  }

  /** The same for a nested select. */
  lemma NotInSelectReading(o: Operand, negated: bool, id: nat)
    requires LegalOperand(o)
    ensures Parse(ExprTokens(InSelect(o, negated, id), Nil))
         == if negated && EndsInNot(o) then None else Some(InSelect(o, negated, id))
  {
    hide Parse, EndsInNot;
    if negated && EndsInNot(o) {
      NotInRejects(o, SelectTokens(id, Nil));
    } else {
      ClosesIffNoNot(o);
      ParseIsComplete(InSelect(o, negated, id));
    }
  }

  lemma NotInRejects(o: Operand, rest: List<Token>)
    requires LegalOperand(o) && EndsInNot(o)
    ensures Parse(OperandTokens(o, Cons(Kw(NOT), Cons(Kw(IN), rest)))) == None
  {
    RunDecides();
    OpensEverywhere(o, Bottom);
    OpenNotRejects(Run, o, Bottom, rest);
  }
}
