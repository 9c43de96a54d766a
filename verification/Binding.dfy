/**
 The order of the `?` markers: writing a number for every `?` of a token list, the k-th number for the
 k-th marker, and parsing is the same as parsing and writing the numbers into the tree from left to
 right.
 */
module Binding {
  import opened Tokens
  import opened Precedence
  import opened Syntax
  import opened Machine
  import opened Soundness
  import opened Completeness
  import opened Ast
  import opened Rendering
  import opened Schedule

  /** The number for each marker. Markers beyond the last number stay. */
  type Texts = seq<string>

  function BindToken(t: Token, v: Texts, k: nat): Token {
    if t == Sym('?') && k < |v| then Int(v[k]) else t
  }

  function BindTokens(ts: List<Token>, v: Texts, k: nat): List<Token> {
    match ts
    case Nil => Nil
    case Cons(t, rest) =>
      Cons(BindToken(t, v, k), BindTokens(rest, v, k + if t == Sym('?') then 1 else 0))
  }

  // ----- on trees of the grammar -----

  /** The markers of a tree. */
  function Holes(o: Operand): nat {
    match o
    case Leaf(t) => if t == Sym('?') then 1 else 0
    case Paren(e) => HolesExpr(e)
    case Call(_, _, args) => HolesItems(args)
    case Case(base, arms, otherwise) => HolesOpt(base) + HolesArms(arms) + HolesOpt(otherwise)
    case Neg(a) => Holes(a)
    case Not(a) => Holes(a)
    case Postfix(a, _) => Holes(a)
    case Infix(l, _, r) => Holes(l) + Holes(r)
    case _ => 0
  }

  function HolesExpr(e: Expr): nat {
    match e
    case Plain(o) => Holes(o)
    case And(l, r) => HolesExpr(l) + HolesExpr(r)
    case Or(l, r) => HolesExpr(l) + HolesExpr(r)
    case Between(o, lo, hi) => Holes(o) + Holes(lo) + Holes(hi)
    case InList(o, _, items) => Holes(o) + HolesItems(items)
    case InSelect(o, _, _) => Holes(o)
    case Exists(_, _) => 0
  }

  function HolesOpt(e: OptExpr): nat {
    if e.NoExpr? then 0 else HolesExpr(e.expr)
  }

  function HolesItems(items: Items): nat {
    if items.NoItems? then 0 else HolesItems(items.init) + HolesExpr(items.last)
  }

  function HolesArms(arms: Arms): nat {
    if arms.NoArms? then 0 else HolesArms(arms.init) + HolesExpr(arms.when) + HolesExpr(arms.then_)
  }

  function BindOperand(o: Operand, v: Texts, k: nat): Operand {
    match o
    case Leaf(t) => Leaf(BindToken(t, v, k))
    case Paren(e) => Paren(BindExpr(e, v, k))
    case Call(f, distinct, args) => Call(f, distinct, BindItems(args, v, k))
    case Case(base, arms, otherwise) =>
      Case(BindOpt(base, v, k), BindArms(arms, v, k + HolesOpt(base)),
           BindOpt(otherwise, v, k + HolesOpt(base) + HolesArms(arms)))
    case Neg(a) => Neg(BindOperand(a, v, k))
    case Not(a) => Not(BindOperand(a, v, k))
    case Postfix(a, test) => Postfix(BindOperand(a, v, k), test)
    case Infix(l, op, r) => Infix(BindOperand(l, v, k), op, BindOperand(r, v, k + Holes(l)))
    case _ => o
  }

  function BindExpr(e: Expr, v: Texts, k: nat): Expr {
    match e
    case Plain(o) => Plain(BindOperand(o, v, k))
    case And(l, r) => And(BindExpr(l, v, k), BindExpr(r, v, k + HolesExpr(l)))
    case Or(l, r) => Or(BindExpr(l, v, k), BindExpr(r, v, k + HolesExpr(l)))
    case Between(o, lo, hi) =>
      Between(BindOperand(o, v, k), BindOperand(lo, v, k + Holes(o)), BindOperand(hi, v, k + Holes(o) + Holes(lo)))
    case InList(o, negated, items) => InList(BindOperand(o, v, k), negated, BindItems(items, v, k + Holes(o)))
    case InSelect(o, negated, id) => InSelect(BindOperand(o, v, k), negated, id)
    case Exists(_, _) => e
  }

  function BindOpt(e: OptExpr, v: Texts, k: nat): OptExpr {
    if e.NoExpr? then e else SomeExpr(BindExpr(e.expr, v, k))
  }

  function BindItems(items: Items, v: Texts, k: nat): Items {
    if items.NoItems? then items
    else Snoc(BindItems(items.init, v, k), BindExpr(items.last, v, k + HolesItems(items.init)), items.alias)
  }

  function BindArms(arms: Arms, v: Texts, k: nat): Arms {
    if arms.NoArms? then arms
    else
      var i := k + HolesArms(arms.init);
      Arm(BindArms(arms.init, v, k), BindExpr(arms.when, v, i), BindExpr(arms.then_, v, i + HolesExpr(arms.when)))
  }

  // ----- on the nodes that the actions build -----

  function Slots(n: Node): nat {
    match n
    case Parameter => 1
    case FunctionRef(_, _, args) => SlotsList(args)
    case OpUnary(_, a) => Slots(a)
    case OpBinary(l, _, r) => Slots(l) + Slots(r)
    case OpAnd(l, r) => Slots(l) + Slots(r)
    case OpOr(l, r) => Slots(l) + Slots(r)
    case OpBetween(a, lo, hi) => Slots(a) + Slots(lo) + Slots(hi)
    case OpCase(base, arms, otherwise) => SlotsOpt(base) + SlotsArms(arms) + SlotsOpt(otherwise)
    case OpIn(a, items) => Slots(a) + SlotsList(items)
    case OpInSelect(a, _) => Slots(a)
    case _ => 0
  }

  function SlotsOpt(n: OptNode): nat {
    if n.NoNode? then 0 else Slots(n.node)
  }

  function SlotsList(ns: NodeList): nat {
    if ns.NoNodes? then 0 else SlotsList(ns.init) + Slots(ns.last)
  }

  function SlotsArms(ns: NodeArms): nat {
    if ns.NoNodeArms? then 0 else SlotsArms(ns.init) + Slots(ns.when) + Slots(ns.then_)
  }

  function BindNode(n: Node, v: Texts, k: nat): Node {
    match n
    case Parameter => if k < |v| then IntLiteral(v[k]) else n
    case FunctionRef(f, distinct, args) => FunctionRef(f, distinct, BindList(args, v, k))
    case OpUnary(op, a) => OpUnary(op, BindNode(a, v, k))
    case OpBinary(l, op, r) => OpBinary(BindNode(l, v, k), op, BindNode(r, v, k + Slots(l)))
    case OpAnd(l, r) => OpAnd(BindNode(l, v, k), BindNode(r, v, k + Slots(l)))
    case OpOr(l, r) => OpOr(BindNode(l, v, k), BindNode(r, v, k + Slots(l)))
    case OpBetween(a, lo, hi) =>
      OpBetween(BindNode(a, v, k), BindNode(lo, v, k + Slots(a)), BindNode(hi, v, k + Slots(a) + Slots(lo)))
    case OpCase(base, arms, otherwise) =>
      OpCase(BindOptNode(base, v, k), BindNodeArms(arms, v, k + SlotsOpt(base)),
             BindOptNode(otherwise, v, k + SlotsOpt(base) + SlotsArms(arms)))
    case OpIn(a, items) => OpIn(BindNode(a, v, k), BindList(items, v, k + Slots(a)))
    case OpInSelect(a, id) => OpInSelect(BindNode(a, v, k), id)
    case _ => n
  }

  function BindOptNode(n: OptNode, v: Texts, k: nat): OptNode {
    if n.NoNode? then n else SomeNode(BindNode(n.node, v, k))
  }

  function BindList(ns: NodeList, v: Texts, k: nat): NodeList {
    if ns.NoNodes? then ns
    else Nodes(BindList(ns.init, v, k), BindNode(ns.last, v, k + SlotsList(ns.init)), ns.alias)
  }

  function BindNodeArms(ns: NodeArms, v: Texts, k: nat): NodeArms {
    if ns.NoNodeArms? then ns
    else
      var i := k + SlotsArms(ns.init);
      NodeArm(BindNodeArms(ns.init, v, k), BindNode(ns.when, v, i), BindNode(ns.then_, v, i + Slots(ns.when)))
  }

  // ----- binding and the yield -----

  lemma BindOpTokens(op: InfixOp, ts: List<Token>, v: Texts, k: nat)
    ensures Questions(OpTokens(op, ts)) == Questions(ts)
    ensures BindTokens(OpTokens(op, ts), v, k) == OpTokens(op, BindTokens(ts, v, k))
  {}

  lemma BindTestTokens(test: NullTest, ts: List<Token>, v: Texts, k: nat)
    ensures Questions(TestTokens(test, ts)) == Questions(ts)
    ensures BindTokens(TestTokens(test, ts), v, k) == TestTokens(test, BindTokens(ts, v, k))
  {
    var ts1 := Cons(Kw(NULL), ts);
    assert Questions(ts1) == Questions(ts) && BindTokens(ts1, v, k) == Cons(Kw(NULL), BindTokens(ts, v, k));
  }

  lemma BindSelectTokens(id: nat, ts: List<Token>, v: Texts, k: nat)
    ensures Questions(SelectTokens(id, ts)) == Questions(ts)
    ensures BindTokens(SelectTokens(id, ts), v, k) == SelectTokens(id, BindTokens(ts, v, k))
  {
    var ts1 := Cons(Sym(')'), ts);
    assert Questions(ts1) == Questions(ts) && BindTokens(ts1, v, k) == Cons(Sym(')'), BindTokens(ts, v, k));
  }

  lemma BindNegatedTokens(negated: bool, w: Keyword, ts: List<Token>, v: Texts, k: nat)
    ensures Questions(NegatedTokens(negated, Kw(w), ts)) == Questions(ts)
    ensures BindTokens(NegatedTokens(negated, Kw(w), ts), v, k) == NegatedTokens(negated, Kw(w), BindTokens(ts, v, k))
  {}

  lemma BindAliasTokens(a: Alias, ts: List<Token>, v: Texts, k: nat)
    requires LegalAlias(a)
    ensures Questions(AliasTokens(a, ts)) == Questions(ts)
    ensures BindTokens(AliasTokens(a, ts), v, k) == AliasTokens(a, BindTokens(ts, v, k))
  {}

  /** Binding the yield of a tree is the yield of the bound tree. */
  ghost predicate OperandBound(o: Operand, ts: List<Token>, v: Texts, k: nat) {
    && Questions(OperandTokens(o, ts)) == Holes(o) + Questions(ts)
    && BindTokens(OperandTokens(o, ts), v, k) == OperandTokens(BindOperand(o, v, k), BindTokens(ts, v, k + Holes(o)))
  }

  ghost predicate ExprBound(e: Expr, ts: List<Token>, v: Texts, k: nat) {
    && Questions(ExprTokens(e, ts)) == HolesExpr(e) + Questions(ts)
    && BindTokens(ExprTokens(e, ts), v, k) == ExprTokens(BindExpr(e, v, k), BindTokens(ts, v, k + HolesExpr(e)))
  }

  lemma {:induction false} OperandBinds(o: Operand, ts: List<Token>, v: Texts, k: nat)
    requires LegalOperand(o)
    ensures OperandBound(o, ts, v, k)
    decreases o, 1
  {
    hide OperandBound, Closes, Opens;
    match o
    case Paren(e) => ParenBinds(e, ts, v, k);
    case Call(f, distinct, args) => CallBinds(f, distinct, args, ts, v, k);
    case Case(base, arms, otherwise) => CaseBinds(base, arms, otherwise, ts, v, k);
    case Neg(a) => PrefixBinds(o, a, ts, v, k);
    case Not(a) => PrefixBinds(o, a, ts, v, k);
    case Postfix(a, test) => PostfixBinds(a, test, ts, v, k);
    case Infix(l, op, r) => InfixBinds(l, op, r, ts, v, k);
    case SubSelect(id) => SubSelectBinds(id, ts, v, k);
    case _ => LeafBinds(o, ts, v, k);
  }

  lemma {:induction false} PrefixBinds(o: Operand, a: Operand, ts: List<Token>, v: Texts, k: nat)
    requires LegalOperand(o) && (o == Neg(a) || o == Not(a))
    ensures OperandBound(o, ts, v, k)
    decreases o, 0
  {
    hide Closes, Opens;
    OperandBinds(a, ts, v, k);
  }

  lemma SubSelectBinds(id: nat, ts: List<Token>, v: Texts, k: nat)
    ensures OperandBound(SubSelect(id), ts, v, k)
  {
    hide SelectTokens;
    BindSelectTokens(id, ts, v, k);
  }

  lemma LeafBinds(o: Operand, ts: List<Token>, v: Texts, k: nat)
    requires LegalOperand(o) && (o.Leaf? || o.Dotted? || o.NamedParameter?)
    ensures OperandBound(o, ts, v, k)
  {
    if o.Dotted? {
      var ts1 := Cons(o.column, ts);
      assert Questions(ts1) == Questions(ts) && BindTokens(ts1, v, k) == Cons(o.column, BindTokens(ts, v, k));
    } else if o.NamedParameter? {
      var ts1 := Cons(Ident(o.name), ts);
      assert Questions(ts1) == Questions(ts) && BindTokens(ts1, v, k) == Cons(Ident(o.name), BindTokens(ts, v, k));
    }
  }

  lemma {:induction false} ParenBinds(e: Expr, ts: List<Token>, v: Texts, k: nat)
    requires LegalExpr(e)
    ensures OperandBound(Paren(e), ts, v, k)
    decreases Paren(e), 0
  {
    hide ExprTokens, HolesExpr, BindExpr;
    ExprBinds(e, Cons(Sym(')'), ts), v, k);
  }

  lemma {:induction false} CallBinds(f: Token, distinct: bool, args: Items, ts: List<Token>, v: Texts, k: nat)
    requires LegalOperand(Call(f, distinct, args))
    ensures OperandBound(Call(f, distinct, args), ts, v, k)
    decreases Call(f, distinct, args), 0
  {
    hide ItemsTokens, HolesItems, BindItems;
    ItemsBind(args, Cons(Sym(')'), ts), v, k);
    var list := ItemsTokens(args, Cons(Sym(')'), ts));
    var marked := if distinct then Cons(Kw(DISTINCT), list) else list;
    var bound := BindTokens(list, v, k);
    assert Questions(marked) == Questions(list)
        && BindTokens(marked, v, k) == if distinct then Cons(Kw(DISTINCT), bound) else bound;
    assert Questions(Cons(Sym('('), marked)) == Questions(list)
        && BindTokens(Cons(Sym('('), marked), v, k) == Cons(Sym('('), BindTokens(marked, v, k));
  }

  lemma {:induction false} CaseBinds(base: OptExpr, arms: Arms, otherwise: OptExpr, ts: List<Token>, v: Texts, k: nat)
    requires LegalOperand(Case(base, arms, otherwise))
    ensures OperandBound(Case(base, arms, otherwise), ts, v, k)
    decreases Case(base, arms, otherwise), 0
  {
    hide OptTokens, ArmsTokens, ElseTokens, HolesOpt, HolesArms, BindOpt, BindArms;
    var i := k + HolesOpt(base);
    var closing := ElseTokens(otherwise, Cons(Kw(END), ts));
    OptBinds(otherwise, Cons(Kw(END), ts), v, i + HolesArms(arms));
    ArmsBind(arms, closing, v, i);
    OptBinds(base, ArmsTokens(arms, closing), v, k);
  }

  lemma {:induction false} PostfixBinds(a: Operand, test: NullTest, ts: List<Token>, v: Texts, k: nat)
    requires LegalOperand(Postfix(a, test))
    ensures OperandBound(Postfix(a, test), ts, v, k)
    decreases Postfix(a, test), 0
  {
    hide TestTokens, Closes, Opens;
    BindTestTokens(test, ts, v, k + Holes(a));
    OperandBinds(a, TestTokens(test, ts), v, k);
  }

  lemma {:induction false} InfixBinds(l: Operand, op: InfixOp, r: Operand, ts: List<Token>, v: Texts, k: nat)
    requires LegalOperand(Infix(l, op, r))
    ensures OperandBound(Infix(l, op, r), ts, v, k)
    decreases Infix(l, op, r), 0
  {
    hide OpTokens, Closes, Opens;
    var right := OperandTokens(r, ts);
    OperandBinds(r, ts, v, k + Holes(l));
    BindOpTokens(op, right, v, k + Holes(l));
    OperandBinds(l, OpTokens(op, right), v, k);
  }

  lemma {:induction false} ExprBinds(e: Expr, ts: List<Token>, v: Texts, k: nat)
    requires LegalExpr(e)
    ensures ExprBound(e, ts, v, k)
    decreases e, 2
  {
    hide OperandTokens, Holes, BindOperand, NegatedTokens, SelectTokens, Closes, Opens, LegalOperand, ExprCloses,
        ExprOpens, BindItems, HolesItems, ItemsTokens;
    match e
    case Plain(o) => OperandBinds(o, ts, v, k);
    case And(l, r) =>
      ExprBinds(r, ts, v, k + HolesExpr(l));
      ExprBinds(l, Cons(Kw(AND), ExprTokens(r, ts)), v, k);
    case Or(l, r) =>
      ExprBinds(r, ts, v, k + HolesExpr(l));
      ExprBinds(l, Cons(Kw(OR), ExprTokens(r, ts)), v, k);
    case Between(o, lo, hi) => BetweenBinds(o, lo, hi, ts, v, k);
    case InList(o, negated, items) => InListBinds(o, negated, items, ts, v, k);
    case InSelect(o, negated, id) => InSelectBinds(o, negated, id, ts, v, k);
    case Exists(negated, id) =>
      BindSelectTokens(id, ts, v, k);
      BindNegatedTokens(negated, EXISTS, SelectTokens(id, ts), v, k);
  }

  lemma {:induction false} BetweenBinds(o: Operand, lo: Operand, hi: Operand, ts: List<Token>, v: Texts, k: nat)
    requires LegalExpr(Between(o, lo, hi))
    ensures ExprBound(Between(o, lo, hi), ts, v, k)
    decreases Between(o, lo, hi), 0
  {
    hide OperandTokens, Holes, BindOperand;
    var i := k + Holes(o);
    OperandBinds(hi, ts, v, i + Holes(lo));
    var upper := Cons(Kw(AND), OperandTokens(hi, ts));
    OperandBinds(lo, upper, v, i);
    OperandBinds(o, Cons(Kw(BETWEEN), OperandTokens(lo, upper)), v, k);
  }

  lemma {:induction false} InListBinds(o: Operand, negated: bool, items: Items, ts: List<Token>, v: Texts, k: nat)
    requires LegalExpr(InList(o, negated, items))
    ensures ExprBound(InList(o, negated, items), ts, v, k)
    decreases InList(o, negated, items), 0
  {
    hide OperandTokens, Holes, BindOperand, ItemsTokens, HolesItems, BindItems, NegatedTokens, LegalOperand,
        LegalItems, Closes;
    var i := k + Holes(o);
    ItemsBind(items, Cons(Sym(')'), ts), v, i);
    var list := Cons(Sym('('), ItemsTokens(items, Cons(Sym(')'), ts)));
    var rest := Cons(Sym(')'), BindTokens(ts, v, i + HolesItems(items)));
    assert Questions(list) == HolesItems(items) + Questions(ts);
    assert BindTokens(list, v, i) == Cons(Sym('('), ItemsTokens(BindItems(items, v, i), rest));
    BindNegatedTokens(negated, IN, list, v, i);
    hide BindTokens, Questions;
    OperandBinds(o, NegatedTokens(negated, Kw(IN), list), v, k);
  }

  lemma {:induction false} InSelectBinds(o: Operand, negated: bool, id: nat, ts: List<Token>, v: Texts, k: nat)
    requires LegalExpr(InSelect(o, negated, id))
    ensures ExprBound(InSelect(o, negated, id), ts, v, k)
    decreases InSelect(o, negated, id), 0
  {
    hide OperandTokens, Holes, BindOperand, NegatedTokens, SelectTokens;
    BindSelectTokens(id, ts, v, k + Holes(o));
    BindNegatedTokens(negated, IN, SelectTokens(id, ts), v, k + Holes(o));
    OperandBinds(o, NegatedTokens(negated, Kw(IN), SelectTokens(id, ts)), v, k);
  }

  lemma {:induction false} OptBinds(e: OptExpr, ts: List<Token>, v: Texts, k: nat)
    requires LegalOpt(e)
    ensures Questions(OptTokens(e, ts)) == HolesOpt(e) + Questions(ts) == Questions(ElseTokens(e, ts))
    ensures BindTokens(OptTokens(e, ts), v, k) == OptTokens(BindOpt(e, v, k), BindTokens(ts, v, k + HolesOpt(e)))
    ensures BindTokens(ElseTokens(e, ts), v, k) == ElseTokens(BindOpt(e, v, k), BindTokens(ts, v, k + HolesOpt(e)))
    decreases e
  {
    if e.SomeExpr? {
      ExprBinds(e.expr, ts, v, k);
    }
  }

  lemma {:induction false} ItemsBind(items: Items, ts: List<Token>, v: Texts, k: nat)
    requires LegalItems(items)
    ensures Questions(ItemsTokens(items, ts)) == HolesItems(items) + Questions(ts)
    ensures BindTokens(ItemsTokens(items, ts), v, k)
         == ItemsTokens(BindItems(items, v, k), BindTokens(ts, v, k + HolesItems(items)))
    decreases items
  {
    hide LegalExpr, HolesExpr, BindExpr, ExprTokens;
    if items.Snoc? {
      hide AliasTokens, LegalAlias;
      var i := k + HolesItems(items.init);
      BindAliasTokens(items.alias, ts, v, i + HolesExpr(items.last));
      ExprBinds(items.last, AliasTokens(items.alias, ts), v, i);
      if items.init.Snoc? {
        ItemsBind(items.init, Cons(Sym(','), ExprTokens(items.last, AliasTokens(items.alias, ts))), v, k);
      }
    }
  }

  lemma {:induction false} ArmsBind(arms: Arms, ts: List<Token>, v: Texts, k: nat)
    requires LegalArms(arms)
    ensures Questions(ArmsTokens(arms, ts)) == HolesArms(arms) + Questions(ts)
    ensures BindTokens(ArmsTokens(arms, ts), v, k)
         == ArmsTokens(BindArms(arms, v, k), BindTokens(ts, v, k + HolesArms(arms)))
    decreases arms
  {
    hide LegalExpr;
    if arms.Arm? {
      hide ExprTokens, BindExpr, HolesExpr;
      var i := k + HolesArms(arms.init);
      ExprBinds(arms.then_, ts, v, i + HolesExpr(arms.when));
      var afterWhen := Cons(Kw(THEN), ExprTokens(arms.then_, ts));
      ExprBinds(arms.when, afterWhen, v, i);
      ArmsBind(arms.init, Cons(Kw(WHEN), ExprTokens(arms.when, afterWhen)), v, k);
    }
  }

  // ----- binding and building -----

  lemma {:induction false} BindKeepsCloses(o: Operand, v: Texts, k: nat, t: Token)
    ensures Closes(BindOperand(o, v, k), t) <==> Closes(o, t)
  {
    hide Resolve, TokenPrec;
    match o
    case Neg(a) => BindKeepsCloses(a, v, k, t);
    case Not(a) => BindKeepsCloses(a, v, k, t);
    case Infix(l, _, r) => BindKeepsCloses(r, v, k + Holes(l), t);
    case _ =>
  }

  lemma {:induction false} BindKeepsOpens(o: Operand, v: Texts, k: nat, rule: Option<Prec>)
    ensures Opens(rule, BindOperand(o, v, k)) <==> Opens(rule, o)
  {
    hide Resolve, TokenPrec;
    match o
    case Postfix(a, _) => BindKeepsOpens(a, v, k, rule);
    case Infix(l, _, _) => BindKeepsOpens(l, v, k, rule);
    case _ =>
  }

  lemma {:induction false} BindKeepsExpr(e: Expr, v: Texts, k: nat, t: Token, rule: Option<Prec>)
    ensures ExprCloses(BindExpr(e, v, k), t) <==> ExprCloses(e, t)
    ensures ExprOpens(rule, BindExpr(e, v, k)) <==> ExprOpens(rule, e)
  {
    hide Resolve, TokenPrec;
    match e
    case And(l, r) =>
      BindKeepsExpr(l, v, k, t, rule);
      BindKeepsExpr(r, v, k + HolesExpr(l), t, rule);
    case Or(l, r) =>
      BindKeepsExpr(l, v, k, t, rule);
      BindKeepsExpr(r, v, k + HolesExpr(l), t, rule);
    case _ =>
  }

  /** A bound tree is legal, and builds the bound node. */
  ghost predicate BuildsBound(o: Operand, v: Texts, k: nat)
    requires LegalOperand(o)
  {
    && Slots(Build(o)) == Holes(o)
    && LegalOperand(BindOperand(o, v, k)) && Build(BindOperand(o, v, k)) == BindNode(Build(o), v, k)
  }

  ghost predicate BuildsBoundExpr(e: Expr, v: Texts, k: nat)
    requires LegalExpr(e)
  {
    && Slots(BuildExpr(e)) == HolesExpr(e)
    && LegalExpr(BindExpr(e, v, k)) && BuildExpr(BindExpr(e, v, k)) == BindNode(BuildExpr(e), v, k)
  }

  lemma {:induction false} OperandBuildsBound(o: Operand, v: Texts, k: nat)
    requires LegalOperand(o)
    ensures BuildsBound(o, v, k)
    decreases o, 1
  {
    hide Resolve, TokenPrec, Closes, Opens, ExprCloses, ExprOpens, BuildExpr, BindExpr, HolesExpr, LegalExpr,
        BuildItems, BindItems, HolesItems, LegalItems, SlotsList, BindList;
    match o
    case Paren(e) => ExprBuildsBound(e, v, k);
    case Call(_, _, args) => ItemsBuildBound(args, v, k);
    case Case(base, arms, otherwise) => CaseBuildsBound(base, arms, otherwise, v, k);
    case Neg(a) => PrefixBuildsBound(o, a, v, k);
    case Not(a) => PrefixBuildsBound(o, a, v, k);
    case Postfix(a, test) => PostfixBuildsBound(a, test, v, k);
    case Infix(l, op, r) => InfixBuildsBound(l, op, r, v, k);
    case _ =>
  }

  lemma {:induction false} PrefixBuildsBound(o: Operand, a: Operand, v: Texts, k: nat)
    requires LegalOperand(o) && (o == Neg(a) || o == Not(a))
    ensures BuildsBound(o, v, k)
    decreases o, 0
  {
    hide Resolve, TokenPrec, Opens;
    OperandBuildsBound(a, v, k);
    BindKeepsOpens(a, v, k, if o.Neg? then NEG_RULE else NOT_RULE);
  }

  lemma {:induction false} PostfixBuildsBound(a: Operand, test: NullTest, v: Texts, k: nat)
    requires LegalOperand(Postfix(a, test))
    ensures BuildsBound(Postfix(a, test), v, k)
    decreases Postfix(a, test), 0
  {
    hide Resolve, TokenPrec, Closes, Negate, TestToken;
    OperandBuildsBound(a, v, k);
    BindKeepsCloses(a, v, k, TestToken(test));
    BindNegated(test == IsNotNull, OpUnary(IsNull, Build(a)), v, k);
  }

  lemma {:induction false} CaseBuildsBound(base: OptExpr, arms: Arms, otherwise: OptExpr, v: Texts, k: nat)
    requires LegalOperand(Case(base, arms, otherwise))
    ensures BuildsBound(Case(base, arms, otherwise), v, k)
    decreases Case(base, arms, otherwise), 0
  {
    hide Resolve, TokenPrec, Closes, Opens, ExprCloses, ExprOpens, BuildOpt, BuildArms, BindOpt, BindArms, HolesOpt,
        HolesArms, LegalOpt, LegalArms, SlotsOpt, SlotsArms, BindOptNode, BindNodeArms;
    var i := k + HolesOpt(base);
    OptBuildsBound(base, v, k);
    ArmsBuildBound(arms, v, i);
    OptBuildsBound(otherwise, v, i + HolesArms(arms));
  }

  lemma {:induction false} InfixBuildsBound(l: Operand, op: InfixOp, r: Operand, v: Texts, k: nat)
    requires LegalOperand(Infix(l, op, r))
    ensures BuildsBound(Infix(l, op, r), v, k)
    decreases Infix(l, op, r), 0
  {
    hide Resolve, TokenPrec, Closes, Opens, LegalOperand, Build, BindExpr, HolesExpr, FirstToken, InfixRule,
        SlotsList;
    var i := k + Holes(l);
    LegalInfix(l, op, r);
    OperandBuildsBound(l, v, k);
    OperandBuildsBound(r, v, i);
    BindKeepsCloses(l, v, k, FirstToken(op));
    BindKeepsOpens(r, v, i, InfixRule(op));
    LegalInfix(BindOperand(l, v, k), op, BindOperand(r, v, i));
  }

  lemma {:induction false} ExprBuildsBound(e: Expr, v: Texts, k: nat)
    requires LegalExpr(e)
    ensures BuildsBoundExpr(e, v, k)
    decreases e, 2
  {
    match e
    case Plain(o) => OperandBuildsBound(o, v, k);
    case And(l, r) => LogicBuildsBound(true, l, r, v, k);
    case Or(l, r) => LogicBuildsBound(false, l, r, v, k);
    case Between(o, lo, hi) => BetweenBuildsBound(o, lo, hi, v, k);
    case InList(o, negated, items) => InListBuildsBound(o, negated, items, v, k);
    case InSelect(o, negated, id) => InSelectBuildsBound(o, negated, id, v, k);
    case Exists(_, _) =>
  }

  lemma BindNegated(negated: bool, n: Node, v: Texts, k: nat)
    ensures BindNode(Negate(negated, n), v, k) == Negate(negated, BindNode(n, v, k))
    ensures Slots(Negate(negated, n)) == Slots(n)
  {}

  lemma {:induction false} InListBuildsBound(o: Operand, negated: bool, items: Items, v: Texts, k: nat)
    requires LegalExpr(InList(o, negated, items))
    ensures BuildsBoundExpr(InList(o, negated, items), v, k)
    decreases InList(o, negated, items), 0
  {
    hide Resolve, TokenPrec, Closes, Opens, ExprOpens, Negate, BindOperand, Holes, LegalOperand, BuildItems,
        SlotsList, BindList;
    OperandBuildsBound(o, v, k);
    ItemsBuildBound(items, v, k + Holes(o));
    BindKeepsCloses(o, v, k, Kw(NOT));
    BindNegated(negated, OpIn(Build(o), BuildItems(items)), v, k);
  }

  lemma {:induction false} InSelectBuildsBound(o: Operand, negated: bool, id: nat, v: Texts, k: nat)
    requires LegalExpr(InSelect(o, negated, id))
    ensures BuildsBoundExpr(InSelect(o, negated, id), v, k)
    decreases InSelect(o, negated, id), 0
  {
    hide Resolve, TokenPrec, Closes, Opens, ExprCloses, ExprOpens, Negate, Build, BindOperand, Holes, LegalOperand;
    OperandBuildsBound(o, v, k);
    BindKeepsCloses(o, v, k, Kw(NOT));
    BindNegated(negated, OpInSelect(Build(o), id), v, k);
  }

  lemma {:induction false} LogicBuildsBound(conj: bool, l: Expr, r: Expr, v: Texts, k: nat)
    requires LegalExpr(if conj then And(l, r) else Or(l, r))
    ensures BuildsBoundExpr(if conj then And(l, r) else Or(l, r), v, k)
    decreases if conj then And(l, r) else Or(l, r), 0
  {
    hide Resolve, TokenPrec, Closes, Opens, ExprCloses, ExprOpens, Build, BindOperand, Holes, LegalOperand,
        LegalItems, BuildItems;
    ExprBuildsBound(l, v, k);
    ExprBuildsBound(r, v, k + HolesExpr(l));
    BindKeepsExpr(l, v, k, if conj then Kw(AND) else Kw(OR), None);
    BindKeepsExpr(r, v, k + HolesExpr(l), Kw(AND), if conj then AND_RULE else OR_RULE);
  }

  lemma {:induction false} BetweenBuildsBound(o: Operand, lo: Operand, hi: Operand, v: Texts, k: nat)
    requires LegalExpr(Between(o, lo, hi))
    ensures BuildsBoundExpr(Between(o, lo, hi), v, k)
    decreases Between(o, lo, hi), 0
  {
    hide Resolve, TokenPrec, Closes, Opens, ExprCloses, ExprOpens, Build, BindOperand, Holes, LegalOperand,
        LegalItems, BuildItems;
    OperandBuildsBound(o, v, k);
    OperandBuildsBound(lo, v, k + Holes(o));
    OperandBuildsBound(hi, v, k + Holes(o) + Holes(lo));
    BindKeepsOpens(hi, v, k + Holes(o) + Holes(lo), AND_RULE);
  }

  lemma {:induction false} OptBuildsBound(e: OptExpr, v: Texts, k: nat)
    requires LegalOpt(e)
    ensures SlotsOpt(BuildOpt(e)) == HolesOpt(e)
    ensures LegalOpt(BindOpt(e, v, k)) && BuildOpt(BindOpt(e, v, k)) == BindOptNode(BuildOpt(e), v, k)
    decreases e
  {
    if e.SomeExpr? {
      ExprBuildsBound(e.expr, v, k);
    }
  }

  lemma {:induction false} ItemsBuildBound(items: Items, v: Texts, k: nat)
    requires LegalItems(items)
    ensures SlotsList(BuildItems(items)) == HolesItems(items)
    ensures LegalItems(BindItems(items, v, k))
    ensures BuildItems(BindItems(items, v, k)) == BindList(BuildItems(items), v, k)
    ensures BindItems(items, v, k).Snoc? == items.Snoc?
    decreases items
  {
    hide Resolve, TokenPrec, Closes, Opens, ExprCloses, ExprOpens, BuildExpr, BindExpr, HolesExpr, LegalExpr, Slots,
        BindNode;
    if items.Snoc? {
      ItemsBuildBound(items.init, v, k);
      ExprBuildsBound(items.last, v, k + HolesItems(items.init));
    }
  }

  lemma {:induction false} ArmsBuildBound(arms: Arms, v: Texts, k: nat)
    requires LegalArms(arms)
    ensures SlotsArms(BuildArms(arms)) == HolesArms(arms)
    ensures LegalArms(BindArms(arms, v, k)) && BuildArms(BindArms(arms, v, k)) == BindNodeArms(BuildArms(arms), v, k)
    ensures BindArms(arms, v, k).Arm? == arms.Arm?
    decreases arms
  {
    hide Resolve, TokenPrec, Closes, Opens, ExprCloses, ExprOpens, BuildExpr, BindExpr, HolesExpr, LegalExpr, Slots,
        BindNode;
    if arms.Arm? {
      var i := k + HolesArms(arms.init);
      ArmsBuildBound(arms.init, v, k);
      ExprBuildsBound(arms.when, v, i);
      ExprBuildsBound(arms.then_, v, i + HolesExpr(arms.when));
    }
  }

  /** Numbers may be written into the tokens or into the tree: the k-th number for the k-th marker. */
  lemma BindingCommutes(ts: List<Token>, v: Texts, k: nat)
    requires ParseNode(ts).Some?
    ensures ParseNode(BindTokens(ts, v, k)) == Some(BindNode(ParseNode(ts).value, v, k))
    ensures Slots(ParseNode(ts).value) == Questions(ts)
  {
    hide Resolve, TokenPrec, Closes, Opens, ExprCloses, ExprOpens, BuildExpr, HolesExpr, LegalExpr, Slots, BindNode,
        Run;
    var e := Parse(ts).value;
    ParseIsSound(ts, e);
    ExprBinds(e, Nil, v, k);
    ExprBuildsBound(e, v, k);
    ParseIsComplete(BindExpr(e, v, k));
  }
}
