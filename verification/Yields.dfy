/**
 Yields and concatenation: the continuation of a yield is appended to it.
 */
module Yields {
  import opened Tokens
  import opened Syntax

  lemma {:induction false} AppendAssoc<T>(a: List<T>, b: List<T>, c: List<T>)
    ensures Append(Append(a, b), c) == Append(a, Append(b, c))
  {
    if a.Cons? {
      AppendAssoc(a.tail, b, c);
    }
  }

  /** A common front cancels. */
  lemma {:induction false} AppendCancels<T>(a: List<T>, b: List<T>, c: List<T>)
    requires Append(a, b) == Append(a, c)
    ensures b == c
  {
    if a.Cons? {
      AppendCancels(a.tail, b, c);
    }
  }

  lemma TwoAppend<T>(x: T, y: T, a: List<T>, b: List<T>)
    ensures Append(Cons(x, Cons(y, a)), b) == Cons(x, Cons(y, Append(a, b)))
  {
    assert Append(Cons(y, a), b) == Cons(y, Append(a, b));
  }

  lemma WordsAppend(op: InfixOp, a: List<Token>, b: List<Token>)
    ensures OpTokens(op, Append(a, b)) == Append(OpTokens(op, a), b)
  {
    TwoAppend(Kw(NOT), Kw(LIKE), a, b);
  }

  lemma TestAppends(test: NullTest, a: List<Token>, b: List<Token>)
    ensures TestTokens(test, Append(a, b)) == Append(TestTokens(test, a), b)
  {
    TwoAppend(Kw(NOT), Kw(NULL), a, b);
    TwoAppend(Kw(IS), Kw(NULL), a, b);
  }

  lemma NegatedAppends(negated: bool, a: List<Token>, b: List<Token>)
    ensures NegatedTokens(negated, Kw(IN), Append(a, b)) == Append(NegatedTokens(negated, Kw(IN), a), b)
    ensures NegatedTokens(negated, Kw(EXISTS), Append(a, b)) == Append(NegatedTokens(negated, Kw(EXISTS), a), b)
  {
    TwoAppend(Kw(NOT), Kw(IN), a, b);
    TwoAppend(Kw(NOT), Kw(EXISTS), a, b);
  }

  lemma AliasAppends(alias: Alias, a: List<Token>, b: List<Token>)
    ensures AliasTokens(alias, Append(a, b)) == Append(AliasTokens(alias, a), b)
  {
    if alias.As? {
      TwoAppend(Kw(AS), alias.name, a, b);
    }
  }

  lemma SelectAppends(id: nat, a: List<Token>, b: List<Token>)
    ensures SelectTokens(id, Append(a, b)) == Append(SelectTokens(id, a), b)
  {
    TwoAppend(SubQuery(id), Sym(')'), a, b);
  }

  lemma {:induction false} OperandAppends(o: Operand, a: List<Token>, b: List<Token>)
    ensures OperandTokens(o, Append(a, b)) == Append(OperandTokens(o, a), b)
    decreases o
  {
    match o
    case Dotted(table, column) => TwoAppend(Sym('.'), column, a, b);
    case NamedParameter(x) => TwoAppend(Sym(':'), Ident(x), a, b);
    case SubSelect(id) => SelectAppends(id, a, b);
    case Paren(e) => ExprAppends(e, Cons(Sym(')'), a), b);
    case Call(f, distinct, args) =>
      var list := ItemsTokens(args, Cons(Sym(')'), a));
      ItemsAppend(args, Cons(Sym(')'), a), b);
      TwoAppend(f, Sym('('), if distinct then Cons(Kw(DISTINCT), list) else list, b);
    case Case(base, arms, otherwise) =>
      var ending := Cons(Kw(END), a);
      OptAppends(otherwise, ending, b);
      assert ElseTokens(otherwise, Append(ending, b)) == Append(ElseTokens(otherwise, ending), b);
      ArmsAppend(arms, ElseTokens(otherwise, ending), b);
      OptAppends(base, ArmsTokens(arms, ElseTokens(otherwise, ending)), b);
    case Neg(x) => OperandAppends(x, a, b);
    case Not(x) => OperandAppends(x, a, b);
    case Postfix(x, test) =>
      TestAppends(test, a, b);
      OperandAppends(x, TestTokens(test, a), b);
    case Infix(l, op, r) =>
      OperandAppends(r, a, b);
      WordsAppend(op, OperandTokens(r, a), b);
      OperandAppends(l, OpTokens(op, OperandTokens(r, a)), b);
    case _ =>
  }

  lemma {:induction false} ExprAppends(e: Expr, a: List<Token>, b: List<Token>)
    ensures ExprTokens(e, Append(a, b)) == Append(ExprTokens(e, a), b)
    decreases e
  {
    match e
    case Plain(o) => OperandAppends(o, a, b);
    case And(l, r) =>
      ExprAppends(r, a, b);
      ExprAppends(l, Cons(Kw(AND), ExprTokens(r, a)), b);
    case Or(l, r) =>
      ExprAppends(r, a, b);
      ExprAppends(l, Cons(Kw(OR), ExprTokens(r, a)), b);
    case Between(o, lo, hi) =>
      OperandAppends(hi, a, b);
      OperandAppends(lo, Cons(Kw(AND), OperandTokens(hi, a)), b);
      OperandAppends(o, Cons(Kw(BETWEEN), OperandTokens(lo, Cons(Kw(AND), OperandTokens(hi, a)))), b);
    case InList(o, negated, items) =>
      var list := ItemsTokens(items, Cons(Sym(')'), a));
      ItemsAppend(items, Cons(Sym(')'), a), b);
      NegatedAppends(negated, Cons(Sym('('), list), b);
      OperandAppends(o, NegatedTokens(negated, Kw(IN), Cons(Sym('('), list)), b);
    case InSelect(o, negated, id) =>
      SelectAppends(id, a, b);
      NegatedAppends(negated, SelectTokens(id, a), b);
      OperandAppends(o, NegatedTokens(negated, Kw(IN), SelectTokens(id, a)), b);
    case Exists(negated, id) =>
      SelectAppends(id, a, b);
      NegatedAppends(negated, SelectTokens(id, a), b);
  }

  lemma {:induction false} OptAppends(e: OptExpr, a: List<Token>, b: List<Token>)
    ensures OptTokens(e, Append(a, b)) == Append(OptTokens(e, a), b)
    decreases e
  {
    match e
    case NoExpr =>
    case SomeExpr(x) => ExprAppends(x, a, b);
  }

  lemma {:induction false} ItemsAppend(items: Items, a: List<Token>, b: List<Token>)
    ensures ItemsTokens(items, Append(a, b)) == Append(ItemsTokens(items, a), b)
    decreases items
  {
    match items
    case NoItems =>
    case Snoc(init, e, alias) =>
      AliasAppends(alias, a, b);
      ExprAppends(e, AliasTokens(alias, a), b);
      ItemsAppend(init, Cons(Sym(','), ExprTokens(e, AliasTokens(alias, a))), b);
  }

  lemma {:induction false} ArmsAppend(arms: Arms, a: List<Token>, b: List<Token>)
    ensures ArmsTokens(arms, Append(a, b)) == Append(ArmsTokens(arms, a), b)
    decreases arms
  {
    match arms
    case NoArms =>
    case Arm(init, w, t) =>
      ExprAppends(t, a, b);
      ExprAppends(w, Cons(Kw(THEN), ExprTokens(t, a)), b);
      ArmsAppend(init, Cons(Kw(WHEN), ExprTokens(w, Cons(Kw(THEN), ExprTokens(t, a)))), b);
  }

  /** The yield in front of `ts`. */
  lemma OperandInFront(o: Operand, ts: List<Token>)
    ensures OperandTokens(o, ts) == Append(OperandTokens(o, Nil), ts)
  {
    OperandAppends(o, Nil, ts);
  }

  lemma ExprInFront(e: Expr, ts: List<Token>)
    ensures ExprTokens(e, ts) == Append(ExprTokens(e, Nil), ts)
  {
    ExprAppends(e, Nil, ts);
  }
}
