/**
 How chains of operators group. The strengths of the operators are listed here by name, and the
 grouping is computed from the tokens, from left to right; `Parse` gives the same tree or the same
 rejection for every chain.
 */
module Grouping {
  import opened Tokens
  import opened Precedence
  import opened Syntax
  import opened Machine
  import opened Soundness
  import opened Completeness
  import opened Yields

  // ----- flat operands -----

  datatype Prefix = MinusSign | NotWord

  /** An operand that no operator forms: a name, a literal, a call, a CASE, something in parentheses. */
  predicate Primary(o: Operand) {
    !(o.Neg? || o.Not? || o.Postfix? || o.Infix?)
  }

  /** What may follow an operand: a null test, or an infix operator with its right side, which is a
      primary behind any number of prefixes. `tree` is what the tokens of the primary stand for. */
  datatype Tail =
    | Test(test: NullTest)
    | Operation(op: InfixOp, prefixes: seq<Prefix>, primary: List<Token>, tree: Operand)

  /** The tokens are those of the primary `o`. */
  predicate Reads(ts: List<Token>, o: Operand) {
    Parse(ts) == Some(Plain(o)) && Primary(o)
  }

  predicate AllRead(tails: seq<Tail>) {
    forall t | t in tails :: t.Operation? ==> Reads(t.primary, t.tree)
  }

  function Words(op: InfixOp, ts: List<Token>): List<Token> {
    match op
    case Minus => Cons(Sym('-'), ts)
    case Plus => Cons(Sym('+'), ts)
    case Slash => Cons(Sym('/'), ts)
    case Asterisk => Cons(Sym('*'), ts)
    case Percentage => Cons(Sym('%'), ts)
    case Caret => Cons(Sym('^'), ts)
    case Like => Cons(Kw(LIKE), ts)
    case NotLike => Cons(Kw(NOT), Cons(Kw(LIKE), ts))
    case Concatenate => Cons(Concat, ts)
    case Equals => Cons(Sym('='), ts)
    case Differs => Cons(NotEquals, ts)
    case Less => Cons(Sym('<'), ts)
    case Greater => Cons(Sym('>'), ts)
    case AtMost => Cons(LessEq, ts)
    case AtLeast => Cons(GreaterEq, ts)
  }

  function TestWords(test: NullTest, ts: List<Token>): List<Token> {
    match test
    case IsNullWord => Cons(Kw(ISNULL), ts)
    case IsNullPair => Cons(Kw(IS), Cons(Kw(NULL), ts))
    case IsNotNull => Cons(Kw(IS), Cons(Kw(NOT), Cons(Kw(NULL), ts)))
  }

  function PrefixWords(ps: seq<Prefix>, ts: List<Token>): List<Token> {
    if ps == [] then ts
    else Cons(if ps[0] == MinusSign then Sym('-') else Kw(NOT), PrefixWords(ps[1..], ts))
  }

  function TailTokens(t: Tail, ts: List<Token>): List<Token> {
    match t
    case Test(test) => TestWords(test, ts)
    case Operation(op, ps, primary, _) => Words(op, PrefixWords(ps, Append(primary, ts)))
  }

  /** A primary behind prefixes, followed by tails. */
  function FlatTokens(ps: seq<Prefix>, primary: List<Token>, tails: seq<Tail>, ts: List<Token>): List<Token>
    decreases |tails|
  {
    if tails == [] then PrefixWords(ps, Append(primary, ts))
    else FlatTokens(ps, primary, tails[..|tails| - 1], TailTokens(tails[|tails| - 1], ts))
  }

  // ----- the ranking -----

  /** How strongly an operator holds on to its right side. */
  function Strength(op: InfixOp): nat {
    match op
    case Concatenate => 8
    case Caret => 7
    case Asterisk => 6
    case Slash => 6
    case Percentage => 6
    case Plus => 5
    case Minus => 5
    case Less => 3
    case Greater => 3
    case AtMost => 3
    case AtLeast => 3
    case Equals => 2
    case Differs => 2
    case Like => 2
    case NotLike => 2
  }

  const PREFIX_MINUS := 5
  const PREFIX_NOT := 1

  /** How strongly a tail pulls at what stands in front of it. `NOT LIKE` pulls as its NOT does. */
  function Pull(t: Tail): nat {
    match t
    case Test(_) => 4
    case Operation(op, _, _, _) => if op == NotLike then PREFIX_NOT else Strength(op)
  }

  datatype Reading = Inside(tree: Operand) | Outside | Rejected

  function Attach(o: Operand, t: Tail): Operand {
    match t
    case Test(test) => Postfix(o, test)
    case Operation(op, ps, _, tree) => Infix(o, op, Prefixed(ps, tree))
  }

  function Prefixed(ps: seq<Prefix>, o: Operand): Operand {
    if ps == [] then o
    else if ps[0] == MinusSign then Neg(Prefixed(ps[1..], o)) else Not(Prefixed(ps[1..], o))
  }

  /** An operator of the strength `n` and the tail `t` compete for the operand `o` between them. The
      stronger one wins; at equal strength comparisons reject, NOT is right associative, and all
      others are left associative. */
  function Settle(n: nat, o: Operand, t: Tail): Reading {
    if n < Pull(t) || (n == Pull(t) && n == PREFIX_NOT) then Inside(Attach(o, t))
    else if n == Pull(t) && (n == 2 || n == 3) then Rejected
    else Outside
  }

  /** Where the tail goes: into `o`, around it, or nowhere. The innermost operator is asked first. */
  function Grow(o: Operand, t: Tail): Reading {
    match o
    case Infix(l, op, r) =>
      (match (match Grow(r, t) case Outside => Settle(Strength(op), r, t) case other => other)
       case Inside(r') => Inside(Infix(l, op, r'))
       case other => other)
    case Neg(a) =>
      (match (match Grow(a, t) case Outside => Settle(PREFIX_MINUS, a, t) case other => other)
       case Inside(a') => Inside(Neg(a'))
       case other => other)
    case Not(a) =>
      (match (match Grow(a, t) case Outside => Settle(PREFIX_NOT, a, t) case other => other)
       case Inside(a') => Inside(Not(a'))
       case other => other)
    case _ => Outside
  }

  function AddTail(o: Option<Operand>, t: Tail): Option<Operand> {
    if o == None then None
    else
      match Grow(o.value, t)
      case Inside(o') => Some(o')
      case Outside => Some(Attach(o.value, t))
      case Rejected => None
  }

  /** The tree of a flat operand, one tail after the other. */
  function Group(ps: seq<Prefix>, tree: Operand, tails: seq<Tail>): Option<Operand>
    decreases |tails|
  {
    if tails == [] then Some(Prefixed(ps, tree))
    else AddTail(Group(ps, tree, tails[..|tails| - 1]), tails[|tails| - 1])
  }

  // ----- the ranking and the precedence table -----

  function AheadToken(t: Tail): Token {
    match t
    case Test(test) => TestToken(test)
    case Operation(op, _, _, _) => FirstToken(op)
  }

  function VerdictOf(r: Reading): Verdict {
    match r
    case Inside(_) => Shift
    case Outside => Reduce
    case Rejected => Error
  }

  /** The level that the table declares for a strength. */
  function Level(n: nat): nat {
    match n
    case 1 => 3
    case 2 => 4
    case 3 => 5
    case _ => n + 4
  }

  lemma RuleLevel(op: InfixOp)
    ensures InfixRule(op) == Some(Prec(Level(Strength(op)), if Strength(op) <= 3 then NonAssoc else LeftAssoc))
    ensures op != NotLike ==> TokenPrec(FirstToken(op)) == InfixRule(op)
  {}

  lemma SettleIsResolve(op: InfixOp, o: Operand, t: Tail)
    ensures Resolve(InfixRule(op), AheadToken(t)) == VerdictOf(Settle(Strength(op), o, t))
    ensures Resolve(NEG_RULE, AheadToken(t)) == VerdictOf(Settle(PREFIX_MINUS, o, t))
    ensures Resolve(NOT_RULE, AheadToken(t)) == VerdictOf(Settle(PREFIX_NOT, o, t))
  {
    hide TokenPrec, Strength;
    RuleLevel(op);
    StrengthIsAtLeastTwo(op);
    PrefixLevels();
    if t.Operation? {
      RuleLevel(t.op);
      StrengthIsAtLeastTwo(t.op);
    }
  }

  lemma StrengthIsAtLeastTwo(op: InfixOp)
    ensures 2 <= Strength(op) && Strength(op) != 4
  {}

  lemma PrefixLevels()
    ensures NEG_RULE == Some(Prec(9, LeftAssoc)) && NOT_RULE == TokenPrec(Kw(NOT)) == Some(Prec(3, RightAssoc))
    ensures TokenPrec(Kw(ISNULL)) == Some(Prec(7, NonAssoc)) && TokenPrec(Kw(IS)) == Some(Prec(8, NonAssoc))
  {}

  // ----- the grouping is legal -----

  /** The right side of a tail is a legal primary. */
  predicate LegalTail(t: Tail) {
    t.Operation? ==> LegalOperand(t.tree) && Primary(t.tree)
  }

  lemma {:induction false} PrefixedIsLegal(ps: seq<Prefix>, o: Operand, rule: Option<Prec>)
    requires LegalOperand(o) && Primary(o)
    ensures LegalOperand(Prefixed(ps, o)) && Opens(rule, Prefixed(ps, o))
    decreases |ps|
  {
    hide Resolve;
    if ps != [] {
      PrefixedIsLegal(ps[1..], o, NEG_RULE);
      PrefixedIsLegal(ps[1..], o, NOT_RULE);
    }
  }

  lemma AttachIsLegal(o: Operand, t: Tail)
    requires LegalOperand(o) && LegalTail(t) && Closes(o, AheadToken(t))
    ensures LegalOperand(Attach(o, t))
    ensures forall rule | Resolve(rule, AheadToken(t)) == Shift && Opens(rule, o) :: Opens(rule, Attach(o, t))
  {
    hide Resolve;
    if t.Operation? {
      PrefixedIsLegal(t.prefixes, t.tree, InfixRule(t.op));
    }
  }

  /** What `Grow` does to a legal operand. */
  ghost predicate GrownWell(o: Operand, t: Tail) {
    match Grow(o, t)
    case Outside => Closes(o, AheadToken(t))
    case Inside(o') => LegalOperand(o') && forall rule | Opens(rule, o) :: Opens(rule, o')
    case Rejected => true
  }

  lemma {:induction false} GrowIsLegal(o: Operand, t: Tail)
    requires LegalOperand(o) && LegalTail(t)
    ensures GrownWell(o, t)
  {
    hide Resolve, Settle, LegalTail;
    match o
    case Infix(l, op, r) =>
      GrowIsLegal(r, t);
      SettlesWell(op, r, t);
    case Neg(a) =>
      GrowIsLegal(a, t);
      SettlesWell(Plus, a, t);
    case Not(a) =>
      GrowIsLegal(a, t);
      SettlesWell(Plus, a, t);
    case _ =>
  }

  lemma SettlesWell(op: InfixOp, o: Operand, t: Tail)
    requires LegalOperand(o) && LegalTail(t)
    ensures SettledWell(Strength(op), InfixRule(op), o, t)
    ensures SettledWell(PREFIX_MINUS, NEG_RULE, o, t) && SettledWell(PREFIX_NOT, NOT_RULE, o, t)
  {
    hide Resolve, LegalTail, LegalOperand, Closes, Opens, Strength;
    SettleIsResolve(op, o, t);
    if Closes(o, AheadToken(t)) {
      AttachIsLegal(o, t);
    }
  }

  ghost predicate SettledWell(n: nat, rule: Option<Prec>, o: Operand, t: Tail) {
    && (Settle(n, o, t).Outside? ==> Resolve(rule, AheadToken(t)) == Reduce)
    && (Settle(n, o, t).Rejected? ==> Resolve(rule, AheadToken(t)) == Error)
    && (Settle(n, o, t).Inside? && Closes(o, AheadToken(t)) && Opens(rule, o) ==>
          LegalOperand(Settle(n, o, t).tree) && Opens(rule, Settle(n, o, t).tree))
  }

  // ----- the grouping has the tokens -----

  lemma WordsAreTokens(op: InfixOp, test: NullTest, ts: List<Token>)
    ensures Words(op, ts) == OpTokens(op, ts) && TestWords(test, ts) == TestTokens(test, ts)
  {}

  lemma {:induction false} PrefixedTokens(ps: seq<Prefix>, o: Operand, ts: List<Token>)
    ensures PrefixWords(ps, OperandTokens(o, ts)) == OperandTokens(Prefixed(ps, o), ts)
    decreases |ps|
  {
    if ps != [] {
      PrefixedTokens(ps[1..], o, ts);
    }
  }

  lemma ReadsPrimary(primary: List<Token>, o: Operand, ts: List<Token>)
    requires Reads(primary, o)
    ensures LegalOperand(o) && Primary(o) && Append(primary, ts) == OperandTokens(o, ts)
  {
    hide Parse;
    ParseIsSound(primary, Plain(o));
    assert LegalExpr(Plain(o)) && ExprTokens(Plain(o), Nil) == OperandTokens(o, Nil);
    OperandInFront(o, ts);
  }

  lemma TailYields(o: Operand, t: Tail, ts: List<Token>)
    requires t.Operation? ==> Reads(t.primary, t.tree)
    ensures LegalTail(t) && OperandTokens(o, TailTokens(t, ts)) == OperandTokens(Attach(o, t), ts)
  {
    hide Parse;
    match t
    case Test(test) => WordsAreTokens(Minus, test, ts);
    case Operation(op, ps, primary, tree) =>
      ReadsPrimary(primary, tree, ts);
      PrefixedTokens(ps, tree, ts);
      WordsAreTokens(op, IsNullWord, OperandTokens(Prefixed(ps, tree), ts));
  }

  lemma {:induction false} GrowYields(o: Operand, t: Tail, ts: List<Token>)
    requires t.Operation? ==> Reads(t.primary, t.tree)
    ensures Grow(o, t).Inside? ==> OperandTokens(Grow(o, t).tree, ts) == OperandTokens(o, TailTokens(t, ts))
  {
    hide Parse, TailTokens, Reads;
    match o
    case Infix(l, op, r) =>
      GrowYields(r, t, ts);
      TailYields(r, t, ts);
    case Neg(a) =>
      GrowYields(a, t, ts);
      TailYields(a, t, ts);
    case Not(a) =>
      GrowYields(a, t, ts);
      TailYields(a, t, ts);
    case _ =>
  }

  // ----- the rejections -----

  lemma TailHead(t: Tail, ts: List<Token>)
    ensures TailTokens(t, ts).Cons? && TailTokens(t, ts).head == AheadToken(t) && ContinuesOperand(AheadToken(t))
  {}

  lemma StuckOnTail(run: Observer, o: Operand, k: Stack, t: Tail, ts: List<Token>)
    requires Decides(run) && Resolve(OperandRule(k), AheadToken(t)) == Error
    ensures run(HaveOperand(o, k), TailTokens(t, ts)) == None
  {
    hide Resolve, TailTokens;
    TailHead(t, ts);
    assert Step(HaveOperand(o, k), TailTokens(t, ts)) == Reject;
  }

  /** The machine stops at the tail, whatever comes behind it. */
  lemma {:induction false} GrowRejects(run: Observer, o: Operand, k: Stack, t: Tail, ts: List<Token>)
    requires Decides(run) && LegalOperand(o) && LegalTail(t) && Opens(OperandRule(k), o)
    requires Grow(o, t).Rejected?
    ensures run(Want(k), OperandTokens(o, TailTokens(t, ts))) == None
    decreases o, 0
  {
    hide Step, Respects, Resolve, TailTokens, Settle, LegalTail;
    var rest := TailTokens(t, ts);
    match o
    case Infix(l, op, r) =>
      InfixOfFirstToken(op);
      RunsOperand(run, l, k, OpTokens(op, OperandTokens(r, rest)));
      ShiftsInfix(run, l, op, k, OperandTokens(r, rest));
      LastRejects(run, r, Push(InfixI(l, op), k), op, Strength(op), t, ts);
    case Neg(a) =>
      StartsPrefix(run, false, k, OperandTokens(a, rest));
      LastRejects(run, a, Push(NegI, k), Plus, PREFIX_MINUS, t, ts);
    case Not(a) =>
      OperandHead(a, rest);
      StartsPrefix(run, true, k, OperandTokens(a, rest));
      LastRejects(run, a, Push(NotI, k), Plus, PREFIX_NOT, t, ts);
    case _ =>
  }

  /** The same for the last operand of a pending rule of the strength `n`. */
  lemma {:induction false} LastRejects(run: Observer, r: Operand, k: Stack, op: InfixOp, n: nat, t: Tail,
                                       ts: List<Token>)
    requires Decides(run) && LegalOperand(r) && LegalTail(t) && Opens(OperandRule(k), r)
    requires k.Push? && (match k.item
                         case InfixI(_, op') => op' == op && n == Strength(op)
                         case NegI => n == PREFIX_MINUS
                         case NotI => n == PREFIX_NOT
                         case _ => false)
    requires Grow(r, t).Rejected? || (Grow(r, t).Outside? && Settle(n, r, t).Rejected?)
    ensures run(Want(k), OperandTokens(r, TailTokens(t, ts))) == None
    decreases r, 1
  {
    hide Step, Respects, Resolve, TailTokens, Settle, LegalTail, LegalOperand, Opens;
    if Grow(r, t).Rejected? {
      GrowRejects(run, r, k, t, ts);
    } else {
      GrowIsLegal(r, t);
      SettlesWell(op, r, t);
      TailHead(t, ts);
      RunsOperand(run, r, k, TailTokens(t, ts));
      StuckOnTail(run, r, k, t, ts);
    }
  }

  // ----- the theorem -----

  /** One more tail. */
  lemma TailGrows(o: Operand, t: Tail, ts: List<Token>)
    requires LegalOperand(o) && (t.Operation? ==> Reads(t.primary, t.tree))
    ensures match Grow(o, t)
            case Inside(o') => LegalOperand(o') && OperandTokens(o', ts) == OperandTokens(o, TailTokens(t, ts))
            case Outside =>
              LegalOperand(Attach(o, t)) && OperandTokens(Attach(o, t), ts) == OperandTokens(o, TailTokens(t, ts))
            case Rejected => Run(Want(Bottom), OperandTokens(o, TailTokens(t, ts))) == None
  {
    hide Step, Reads, TailTokens, Run, Settle, LegalTail;
    TailYields(o, t, ts);
    GrowYields(o, t, ts);
    GrowIsLegal(o, t);
    match Grow(o, t)
    case Inside(_) =>
    case Outside => AttachIsLegal(o, t);
    case Rejected =>
      RunDecides();
      OpensEverywhere(o, Bottom);
      GrowRejects(Run, o, Bottom, t, ts);
  }

  lemma {:induction false} FlatIsRead(ps: seq<Prefix>, primary: List<Token>, tree: Operand, tails: seq<Tail>,
                                      ts: List<Token>)
    requires Reads(primary, tree) && AllRead(tails)
    ensures match Group(ps, tree, tails)
            case Some(o) => LegalOperand(o) && FlatTokens(ps, primary, tails, ts) == OperandTokens(o, ts)
            case None => Run(Want(Bottom), FlatTokens(ps, primary, tails, ts)) == None
    decreases |tails|
  {
    hide Reads, LegalOperand, TailTokens, Run, Grow;
    if tails == [] {
      ReadsPrimary(primary, tree, ts);
      PrefixedIsLegal(ps, tree, None);
      PrefixedTokens(ps, tree, ts);
    } else {
      var n := |tails| - 1;
      var t := tails[n];
      assert AllRead(tails[..n]);
      FlatIsRead(ps, primary, tree, tails[..n], TailTokens(t, ts));
      var g := Group(ps, tree, tails[..n]);
      if g.Some? {
        TailGrows(g.value, t, ts);
      }
    }
  }

  /** A chain of any operators over any primaries parses to the grouping by the ranking, and is
      rejected exactly when the ranking rejects it. */
  lemma ChainReading(ps: seq<Prefix>, primary: List<Token>, tree: Operand, tails: seq<Tail>)
    requires Reads(primary, tree) && AllRead(tails)
    ensures Parse(FlatTokens(ps, primary, tails, Nil))
         == match Group(ps, tree, tails) case Some(o) => Some(Plain(o)) case None => None
  {
    hide Run, Reads, LegalOperand;
    FlatIsRead(ps, primary, tree, tails, Nil);
    var g := Group(ps, tree, tails);
    if g.Some? {
      assert LegalExpr(Plain(g.value)) && ExprTokens(Plain(g.value), Nil) == OperandTokens(g.value, Nil);
      ParseIsComplete(Plain(g.value));
    }
  }

  /** Nothing is left out: every operand of the grammar is such a chain. */
  lemma {:induction false} OperandIsChain(o: Operand, ts: List<Token>)
    returns (ps: seq<Prefix>, primary: List<Token>, tree: Operand, tails: seq<Tail>)
    requires LegalOperand(o)
    ensures Reads(primary, tree) && AllRead(tails) && FlatTokens(ps, primary, tails, ts) == OperandTokens(o, ts)
    decreases o
  {
    hide Parse, TailTokens;
    match o
    case Neg(a) =>
      ps, primary, tree, tails := OperandIsChain(a, ts);
      PrefixInFront(MinusSign, ps, primary, tails, ts);
      ps := [MinusSign] + ps;
    case Not(a) =>
      ps, primary, tree, tails := OperandIsChain(a, ts);
      PrefixInFront(NotWord, ps, primary, tails, ts);
      ps := [NotWord] + ps;
    case Postfix(a, test) =>
      ps, primary, tree, tails := OperandIsChain(a, TestTokens(test, ts));
      WordsAreTokens(Minus, test, ts);
      assert TailTokens(Test(test), ts) == TestWords(test, ts) by { TestTail(test, ts); }
      assert (tails + [Test(test)])[..|tails|] == tails;
      tails := tails + [Test(test)];
    case Infix(l, op, r) =>
      var ps', primary', tree', tails' := OperandIsChain(r, ts);
      ps, primary, tree, tails := OperandIsChain(l, OpTokens(op, OperandTokens(r, ts)));
      ChainBehind(ps, primary, tails, Operation(op, ps', primary', tree'), tails', ts);
      tails := tails + [Operation(op, ps', primary', tree')] + tails';
    case _ =>
      ps, primary, tree, tails := [], OperandTokens(o, Nil), o, [];
      assert LegalExpr(Plain(o)) && ExprTokens(Plain(o), Nil) == OperandTokens(o, Nil);
      ParseIsComplete(Plain(o));
      OperandInFront(o, ts);
  }

  lemma TestTail(test: NullTest, ts: List<Token>)
    ensures TailTokens(Test(test), ts) == TestWords(test, ts)
  {}

  lemma {:induction false} PrefixInFront(p: Prefix, ps: seq<Prefix>, primary: List<Token>, tails: seq<Tail>,
                                         ts: List<Token>)
    ensures FlatTokens([p] + ps, primary, tails, ts)
         == Cons(if p == MinusSign then Sym('-') else Kw(NOT), FlatTokens(ps, primary, tails, ts))
    decreases |tails|
  {
    hide TailTokens;
    if tails == [] {
      assert ([p] + ps)[1..] == ps;
    } else {
      PrefixInFront(p, ps, primary, tails[..|tails| - 1], TailTokens(tails[|tails| - 1], ts));
    }
  }

  lemma {:induction false} ChainBehind(ps: seq<Prefix>, primary: List<Token>, tails: seq<Tail>, t: Tail,
                                       tails': seq<Tail>, ts: List<Token>)
    requires t.Operation?
    ensures FlatTokens(ps, primary, tails + [t] + tails', ts)
         == FlatTokens(ps, primary, tails, Words(t.op, FlatTokens(t.prefixes, t.primary, tails', ts)))
    decreases |tails'|
  {
    var whole := tails + [t] + tails';
    if tails' == [] {
      assert whole[..|whole| - 1] == tails && whole[|whole| - 1] == t;
    } else {
      var n := |tails'| - 1;
      assert whole[..|whole| - 1] == tails + [t] + tails'[..n] && whole[|whole| - 1] == tails'[n];
      ChainBehind(ps, primary, tails, t, tails'[..n], TailTokens(tails'[n], ts));
    }
  }

  // ----- two operators in a row -----

  /** `x op1 y op2 z`: the stronger operator takes `y`, comparisons of equal strength reject, and
      everything else groups to the left. Behind an operator, NOT LIKE never takes `y`. */
  lemma PairReading(xs: List<Token>, op1: InfixOp, ys: List<Token>, op2: InfixOp, zs: List<Token>,
                    x: Operand, y: Operand, z: Operand)
    requires Reads(xs, x) && Reads(ys, y) && Reads(zs, z)
    ensures Parse(Append(xs, Words(op1, Append(ys, Words(op2, zs)))))
         == if op2 == NotLike || Strength(op1) > Strength(op2) then Some(Plain(Infix(Infix(x, op1, y), op2, z)))
            else if Strength(op1) < Strength(op2) then Some(Plain(Infix(x, op1, Infix(y, op2, z))))
            else if Strength(op1) <= 3 then None
            else Some(Plain(Infix(Infix(x, op1, y), op2, z)))
  {
    hide Parse, Reads, Words, Strength;
    var t1, t2 := Operation(op1, [], ys, y), Operation(op2, [], zs, z);
    AppendNil(zs);
    TwoTails([], xs, t1, t2);
    ChainReading([], xs, x, [t1, t2]);
    PrimaryGroups(xs, x, t1);
    PrimaryGroups(ys, y, t2);
    StrengthIsAtLeastTwo(op1);
    StrengthIsAtLeastTwo(op2);
    GroupTwo([], x, t1, t2);
  }

  lemma TwoTails(ps: seq<Prefix>, primary: List<Token>, t1: Tail, t2: Tail)
    ensures FlatTokens(ps, primary, [t1, t2], Nil)
         == PrefixWords(ps, Append(primary, TailTokens(t1, TailTokens(t2, Nil))))
  {
    hide TailTokens, PrefixWords;
    assert [t1, t2][..1] == [t1] && [t1][..0] == [];
    assert FlatTokens(ps, primary, [t1], TailTokens(t2, Nil))
        == FlatTokens(ps, primary, [], TailTokens(t1, TailTokens(t2, Nil)));
  }

  lemma GroupTwo(ps: seq<Prefix>, tree: Operand, t1: Tail, t2: Tail)
    ensures Group(ps, tree, [t1, t2]) == AddTail(AddTail(Some(Prefixed(ps, tree)), t1), t2)
  {
    hide Grow;
    assert [t1, t2][..1] == [t1] && [t1][..0] == [];
    assert Group(ps, tree, [t1]) == AddTail(Some(Prefixed(ps, tree)), t1);
  }

  /** A primary takes no tail in. */
  lemma PrimaryGroups(primary: List<Token>, o: Operand, t: Tail)
    requires Reads(primary, o)
    ensures Grow(o, t).Outside?
  {
    hide Parse;
  }

  lemma OneNot(o: Operand, ts: List<Token>)
    ensures Prefixed([NotWord], o) == Not(o) && PrefixWords([NotWord], ts) == Cons(Kw(NOT), ts)
  {
    assert [NotWord][1..] == [];
  }

  /** NOT in front of `x op y` takes all of it, whichever operator it is. */
  lemma NotReading(xs: List<Token>, op: InfixOp, ys: List<Token>, x: Operand, y: Operand)
    requires Reads(xs, x) && Reads(ys, y)
    ensures Parse(Cons(Kw(NOT), Append(xs, Words(op, ys)))) == Some(Plain(Not(Infix(x, op, y))))
  {
    hide Parse, Reads, Words, Strength;
    var t := Operation(op, [], ys, y);
    AppendNil(ys);
    assert [t][..0] == [];
    assert FlatTokens([NotWord], xs, [t], Nil) == FlatTokens([NotWord], xs, [], TailTokens(t, Nil));
    ChainReading([NotWord], xs, x, [t]);
    PrimaryGroups(xs, x, t);
    StrengthIsAtLeastTwo(op);
    OneNot(x, Append(xs, TailTokens(t, Nil)));
    assert Group([NotWord], x, []) == Some(Not(x));
  }

  /** Behind an operator too: `x op1 NOT y op2 z` negates `y op2 z`. */
  lemma InnerNotReading(xs: List<Token>, op1: InfixOp, ys: List<Token>, op2: InfixOp, zs: List<Token>,
                        x: Operand, y: Operand, z: Operand)
    requires Reads(xs, x) && Reads(ys, y) && Reads(zs, z)
    ensures Parse(Append(xs, Words(op1, Cons(Kw(NOT), Append(ys, Words(op2, zs))))))
         == Some(Plain(Infix(x, op1, Not(Infix(y, op2, z)))))
  {
    hide Parse, Reads, Words, Strength;
    var t1, t2 := Operation(op1, [NotWord], ys, y), Operation(op2, [], zs, z);
    AppendNil(zs);
    OneNot(y, Append(ys, TailTokens(t2, Nil)));
    OneNot(y, Append(ys, Words(op2, zs)));
    TwoTails([], xs, t1, t2);
    ChainReading([], xs, x, [t1, t2]);
    PrimaryGroups(xs, x, t1);
    PrimaryGroups(ys, y, t2);
    StrengthIsAtLeastTwo(op1);
    StrengthIsAtLeastTwo(op2);
    assert Grow(Not(y), t2) == Inside(Not(Infix(y, op2, z)));
    GroupTwo([], x, t1, t2);
  }

  // ----- AND and OR -----

  /** A connective with its right side; `tree` is what the tokens stand for. */
  datatype Link = Link(and: bool, tokens: List<Token>, tree: Expr)

  /** The tokens are those of an expression that is no conjunction or disjunction itself. */
  predicate ReadsTerm(ts: List<Token>, e: Expr) {
    Parse(ts) == Some(e) && !e.And? && !e.Or?
  }

  function LogicTokens(first: List<Token>, links: seq<Link>): List<Token> {
    if links == [] then first
    else
      var link := links[|links| - 1];
      Append(LogicTokens(first, links[..|links| - 1]), Cons(if link.and then Kw(AND) else Kw(OR), link.tokens))
  }

  /** OR takes everything in front of it; AND only the last disjunct. */
  function GroupLogic(first: Expr, links: seq<Link>): Expr {
    if links == [] then first
    else
      var link := links[|links| - 1];
      var e := GroupLogic(first, links[..|links| - 1]);
      if !link.and then Or(e, link.tree)
      else if e.Or? then Or(e.left, And(e.right, link.tree))
      else And(e, link.tree)
  }

  predicate IsConjunction(e: Expr) {
    match e
    case And(l, r) => IsConjunction(l) && !r.And? && !r.Or?
    case Or(_, _) => false
    case _ => true
  }

  lemma ConjunctionIsFree(e: Expr)
    requires IsConjunction(e)
    ensures ExprCloses(e, Kw(AND)) && ExprCloses(e, Kw(OR)) && ExprOpens(OR_RULE, e)
  {
    if e.And? {
      ConjunctionIsFree(e.left);
      AndOrLevels();
    }
  }

  lemma AndOrLevels()
    ensures Resolve(AND_RULE, Kw(AND)) == Reduce && Resolve(AND_RULE, Kw(OR)) == Reduce
    ensures Resolve(OR_RULE, Kw(OR)) == Reduce && Resolve(OR_RULE, Kw(AND)) == Shift
  {}

  lemma OneMoreLink(e: Expr, y: Expr)
    requires LegalExpr(e) && LegalExpr(y) && !y.And? && !y.Or?
    requires if e.Or? then IsConjunction(e.right) else IsConjunction(e)
    ensures LegalExpr(Or(e, y))
    ensures if e.Or? then LegalExpr(Or(e.left, And(e.right, y))) && IsConjunction(And(e.right, y))
            else LegalExpr(And(e, y)) && IsConjunction(And(e, y))
  {
    hide Resolve, LegalOperand;
    AndOrLevels();
    ConjunctionIsFree(if e.Or? then e.right else e);
    assert ExprOpens(AND_RULE, y) && ExprOpens(OR_RULE, y) && IsConjunction(y);
    if e.Or? {
      assert LegalExpr(And(e.right, y)) && ExprOpens(OR_RULE, And(e.right, y));
    }
  }

  lemma {:induction false} LogicIsRead(first: List<Token>, tree: Expr, links: seq<Link>)
    requires ReadsTerm(first, tree) && forall link | link in links :: ReadsTerm(link.tokens, link.tree)
    ensures var e := GroupLogic(tree, links);
            LegalExpr(e) && ExprTokens(e, Nil) == LogicTokens(first, links)
                && if e.Or? then IsConjunction(e.right) else IsConjunction(e)
    decreases |links|
  {
    hide Parse, LegalExpr;
    if links == [] {
      ParseIsSound(first, tree);
    } else {
      var init, link := links[..|links| - 1], links[|links| - 1];
      LogicIsRead(first, tree, init);
      assert ReadsTerm(link.tokens, link.tree);
      ParseIsSound(link.tokens, link.tree);
      OneMoreLink(GroupLogic(tree, init), link.tree);
      ExprInFront(GroupLogic(tree, init), Cons(if link.and then Kw(AND) else Kw(OR), link.tokens));
    }
  }

  /** Any chain of AND and OR. */
  lemma LogicReading(first: List<Token>, tree: Expr, links: seq<Link>)
    requires ReadsTerm(first, tree) && forall link | link in links :: ReadsTerm(link.tokens, link.tree)
    ensures Parse(LogicTokens(first, links)) == Some(GroupLogic(tree, links))
  {
    hide Parse;
    LogicIsRead(first, tree, links);
    ParseIsComplete(GroupLogic(tree, links));
  }

  /** The chains of two connectives. */
  lemma AndIsStrongerThanOr(xs: List<Token>, ys: List<Token>, zs: List<Token>, x: Expr, y: Expr, z: Expr)
    requires ReadsTerm(xs, x) && ReadsTerm(ys, y) && ReadsTerm(zs, z)
    ensures Parse(Append(Append(xs, Cons(Kw(OR), ys)), Cons(Kw(AND), zs))) == Some(Or(x, And(y, z)))
    ensures Parse(Append(Append(xs, Cons(Kw(AND), ys)), Cons(Kw(OR), zs))) == Some(Or(And(x, y), z))
    ensures Parse(Append(Append(xs, Cons(Kw(AND), ys)), Cons(Kw(AND), zs))) == Some(And(And(x, y), z))
    ensures Parse(Append(Append(xs, Cons(Kw(OR), ys)), Cons(Kw(OR), zs))) == Some(Or(Or(x, y), z))
  {
    hide Parse;
    TwoLinks(xs, ys, zs, x, y, z, false, true);
    TwoLinks(xs, ys, zs, x, y, z, true, false);
    TwoLinks(xs, ys, zs, x, y, z, true, true);
    TwoLinks(xs, ys, zs, x, y, z, false, false);
  }

  lemma TwoLinks(xs: List<Token>, ys: List<Token>, zs: List<Token>, x: Expr, y: Expr, z: Expr, and1: bool, and2: bool)
    requires ReadsTerm(xs, x) && ReadsTerm(ys, y) && ReadsTerm(zs, z)
    ensures Parse(Append(Append(xs, Cons(if and1 then Kw(AND) else Kw(OR), ys)),
                         Cons(if and2 then Kw(AND) else Kw(OR), zs)))
         == Some(if and1 then (if and2 then And(And(x, y), z) else Or(And(x, y), z))
                 else if and2 then Or(x, And(y, z)) else Or(Or(x, y), z))
  {
    hide Parse, Append;
    var l1, l2 := Link(and1, ys, y), Link(and2, zs, z);
    assert [l1, l2][..1] == [l1] && [l1][..0] == [];
    LogicReading(xs, x, [l1, l2]);
    assert LogicTokens(xs, [l1]) == Append(LogicTokens(xs, []), Cons(if and1 then Kw(AND) else Kw(OR), ys));
    assert GroupLogic(x, [l1]) == if and1 then And(x, y) else Or(x, y);
  }
}
