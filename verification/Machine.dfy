/**
 The shift-reduce machine of the expression grammar. Its stack holds the kernel items of the
 pending rules, with the values already reduced to the left of the dot; conflicts are settled by
 `Resolve` alone.
 */
module Machine {
  import opened Tokens
  import opened Precedence
  import opened Syntax

  datatype ListHead = CallHead(function_: Token, distinct: bool) | InHead(subject: Operand, negated: bool)

  /** One pending rule, with the dot in front of the operand or expression it waits for. */
  datatype Item =
    | InfixI(left: Operand, op: InfixOp)             // operand op . operand
    | NegI                                           // '-' . operand
    | NotI                                           // NOT . operand
    | LowI(subject: Operand)                         // operand BETWEEN . operand AND operand
    | HighI(subject: Operand, low: Operand)          // operand BETWEEN operand AND . operand
    | AndI(leftExpr: Expr)                           // expr AND . expr
    | OrI(leftExpr: Expr)                            // expr OR . expr
    | ParenI                                         // '(' . expr ')'
    | ListI(listHead: ListHead, items: Items)        // head '(' expr_list ',' . expr_alias
    | BaseI                                          // CASE . expr case_list
    | WhenI(base: OptExpr, arms: Arms)               // case_list WHEN . expr THEN expr
    | ThenI(base: OptExpr, arms: Arms, when: Expr)   // case_list WHEN expr THEN . expr
    | ElseI(base: OptExpr, arms: Arms)               // CASE case_list ELSE . expr END

  datatype Stack = Bottom | Push(item: Item, below: Stack) {
    function Depth(): nat {
      match this
      case Bottom => 0
      case Push(_, b) => 1 + b.Depth()
    }
  }

  datatype Config =
    | Want(stack: Stack)
    | HaveOperand(operand: Operand, stack: Stack)
    | HaveExpr(expr: Expr, stack: Stack)
  {
    function Height(): nat {
      2 * stack.Depth() + if HaveOperand? then 1 else 0
    }
  }

  datatype Outcome =
    | Next(config: Config, rest: List<Token>)
    | Accept(expr: Expr)
    | Reject

  // ----- what the top of the stack says -----

  /** True where the grammar asks for an `expr`, not only for an `operand`. */
  predicate AtExpr(k: Stack) {
    k.Bottom? || !(k.item.InfixI? || k.item.NegI? || k.item.NotI? || k.item.LowI? || k.item.HighI?)
  }

  /** The rule that could reduce once an operand stands on top of `k`. */
  function OperandRule(k: Stack): Option<Prec> {
    if k.Bottom? then None else
    match k.item
    case InfixI(_, op) => InfixRule(op)
    case NegI => NEG_RULE
    case NotI => NOT_RULE
    case HighI(_, _) => AND_RULE
    case _ => None
  }

  /** The rule that could reduce once an expression stands on top of `k`. */
  function ExprRule(k: Stack): Option<Prec> {
    if k.Bottom? then None else
    match k.item
    case AndI(_) => AND_RULE
    case OrI(_) => OR_RULE
    case _ => None
  }

  /** The single tokens that continue an operand as an infix operator. */
  function InfixOf(t: Token): Option<InfixOp> {
    match t
    case Kw(LIKE) => Some(Like)
    case NotEquals => Some(Differs)
    case LessEq => Some(AtMost)
    case GreaterEq => Some(AtLeast)
    case Concat => Some(Concatenate)
    case Sym(c) =>
      if c == '-' then Some(Minus) else if c == '+' then Some(Plus)
      else if c == '/' then Some(Slash) else if c == '*' then Some(Asterisk)
      else if c == '%' then Some(Percentage) else if c == '^' then Some(Caret)
      else if c == '=' then Some(Equals) else if c == '<' then Some(Less)
      else if c == '>' then Some(Greater) else None
    case _ => None
  }

  predicate ContinuesOperand(t: Token) {
    InfixOf(t).Some? || t == Kw(NOT) || t == Kw(ISNULL) || t == Kw(IS)
  }

  // ----- steps -----

  /** Expects `'(' select_no_paren ')'`. */
  function TakeSelect(ts: List<Token>): (r: Option<(nat, List<Token>)>)
    ensures r.Some? ==> ts == SelectTokens(r.value.0, r.value.1) && r.value.1.Size() < ts.Size()
    ensures forall id: nat, rest :: ts == SelectTokens(id, rest) ==> r == Some((id, rest))
  {
    if ts.Cons? && ts.head == Sym('(') && ts.tail.Cons? && ts.tail.head.SubQuery?
       && ts.tail.tail.Cons? && ts.tail.tail.head == Sym(')')
    then
      assert ts.tail.Size() == 2 + ts.tail.tail.tail.Size();
      Some((ts.tail.head.id, ts.tail.tail.tail))
    else None
  }

  /** A name in operand position: a function call, a dotted column or a leaf. */
  function StepName(t: Token, k: Stack, rest: List<Token>): (out: Outcome)
    ensures out.Next? ==> out.rest.Size() <= rest.Size()
  {
    if rest.Cons? && rest.head == Sym('(') then
      var args := rest.tail;
      if args.Cons? && args.head == Sym(')') then Next(HaveOperand(Call(t, false, NoItems), k), args.tail)
      else if args.Cons? && args.head == Kw(DISTINCT) then
        Next(Want(Push(ListI(CallHead(t, true), NoItems), k)), args.tail)
      else Next(Want(Push(ListI(CallHead(t, false), NoItems), k)), args)
    else if t.Ident? && rest.Cons? && rest.head == Sym('.') then
      var column := rest.tail;
      if column.Cons? && (IsName(column.head) || column.head == Sym('*'))
      then Next(HaveOperand(Dotted(t.name, column.head), k), column.tail)
      else Reject
    else Next(HaveOperand(Leaf(t), k), rest)
  }

  function StepExists(negated: bool, k: Stack, ts: List<Token>): (out: Outcome)
    ensures out.Next? ==> out.rest.Size() <= ts.Size()
  {
    match TakeSelect(ts)
    case Some((id, rest)) => Next(HaveExpr(Exists(negated, id), k), rest)
    case None => Reject
  }

  function StepWant(k: Stack, ts: List<Token>): (out: Outcome)
    ensures out.Next? ==> out.rest.Size() < ts.Size()
  {
    if ts.Nil? then Reject else
    var t, rest := ts.head, ts.tail;
    if t == Sym('-') then Next(Want(Push(NegI, k)), rest)
    else if t == Kw(NOT) then
      if AtExpr(k) && rest.Cons? && rest.head == Kw(EXISTS) then StepExists(true, k, rest.tail)
      else Next(Want(Push(NotI, k)), rest)
    else if t == Kw(EXISTS) then
      if AtExpr(k) then StepExists(false, k, rest) else Reject
    else if t == Sym('(') then
      if rest.Cons? && rest.head.SubQuery? then
        match TakeSelect(ts)
        case Some((id, rest')) => Next(HaveOperand(SubSelect(id), k), rest')
        case None => Reject
      else Next(Want(Push(ParenI, k)), rest)
    else if t == Kw(CASE) then
      if rest.Cons? && rest.head == Kw(WHEN) then Next(Want(Push(WhenI(NoExpr, NoArms), k)), rest.tail)
      else Next(Want(Push(BaseI, k)), rest)
    else if t == Sym(':') then
      if rest.Cons? && rest.head.Ident? then Next(HaveOperand(NamedParameter(rest.head.name), k), rest.tail)
      else Reject
    else if IsName(t) then StepName(t, k, rest)
    else if IsLeaf(t) then Next(HaveOperand(Leaf(t), k), rest)
    else Reject
  }

  /** `operand [NOT] IN` has been shifted; the parenthesised right side follows. */
  function StepIn(o: Operand, negated: bool, k: Stack, ts: List<Token>): (out: Outcome)
    ensures out.Next? ==> out.rest.Size() <= ts.Size()
  {
    if ts.Nil? || ts.head != Sym('(') then Reject
    else if ts.tail.Cons? && ts.tail.head == Sym(')') then
      Next(HaveExpr(InList(o, negated, NoItems), k), ts.tail.tail)
    else if ts.tail.Cons? && ts.tail.head.SubQuery? then
      match TakeSelect(ts)
      case Some((id, rest)) => Next(HaveExpr(InSelect(o, negated, id), k), rest)
      case None => Reject
    else Next(Want(Push(ListI(InHead(o, negated), NoItems), k)), ts.tail)
  }

  /** Shifts the lookahead, which continues the operand `o`. */
  function ShiftOperator(o: Operand, k: Stack, ts: List<Token>): (out: Outcome)
    requires ts.Cons? && ContinuesOperand(ts.head)
    ensures out.Next? ==> out.rest.Size() < ts.Size()
  {
    var t, rest := ts.head, ts.tail;
    if InfixOf(t).Some? then Next(Want(Push(InfixI(o, InfixOf(t).value), k)), rest)
    else if t == Kw(ISNULL) then Next(HaveOperand(Postfix(o, IsNullWord), k), rest)
    else if t == Kw(IS) then
      if rest.Cons? && rest.head == Kw(NULL) then Next(HaveOperand(Postfix(o, IsNullPair), k), rest.tail)
      else if rest.Cons? && rest.head == Kw(NOT) && rest.tail.Cons? && rest.tail.head == Kw(NULL) then
        assert rest.Size() == 2 + rest.tail.tail.Size();
        Next(HaveOperand(Postfix(o, IsNotNull), k), rest.tail.tail)
      else Reject
    else if rest.Cons? && rest.head == Kw(LIKE) then Next(Want(Push(InfixI(o, NotLike), k)), rest.tail)
    else if rest.Cons? && rest.head == Kw(IN) && AtExpr(k) then StepIn(o, true, k, rest.tail)
    else Reject
  }

  /** Reduces the rule on top of the stack with `o` as its last operand. */
  function ReduceOperand(o: Operand, k: Stack, ts: List<Token>): (out: Outcome)
    ensures out.Next? ==> out.rest.Size() < ts.Size()
                          || (out.rest == ts && out.config.Height() < HaveOperand(o, k).Height())
  {
    if AtExpr(k) then
      if ts.Cons? && ts.head == Kw(BETWEEN) then Next(Want(Push(LowI(o), k)), ts.tail)
      else if ts.Cons? && ts.head == Kw(IN) then StepIn(o, false, k, ts.tail)
      else Next(HaveExpr(Plain(o), k), ts)
    else
      match k.item
      case InfixI(l, op) => Next(HaveOperand(Infix(l, op, o), k.below), ts)
      case NegI => Next(HaveOperand(Neg(o), k.below), ts)
      case NotI => Next(HaveOperand(Not(o), k.below), ts)
      case HighI(subject, low) => Next(HaveExpr(Between(subject, low, o), k.below), ts)
      case LowI(subject) =>
        if ts.Cons? && ts.head == Kw(AND) then Next(Want(Push(HighI(subject, o), k.below)), ts.tail) else Reject
      case _ => Reject
  }

  function StepOperand(o: Operand, k: Stack, ts: List<Token>): (out: Outcome)
    ensures out.Next? ==> out.rest.Size() < ts.Size()
                          || (out.rest == ts && out.config.Height() < HaveOperand(o, k).Height())
  {
    if ts.Cons? && ContinuesOperand(ts.head) then
      match Resolve(OperandRule(k), ts.head)
      case Shift => ShiftOperator(o, k, ts)
      case Reduce => ReduceOperand(o, k, ts)
      case Error => Reject
    else ReduceOperand(o, k, ts)
  }

  function TakeAlias(ts: List<Token>): (r: Option<(Alias, List<Token>)>)
    ensures r.Some? ==> ts == AliasTokens(r.value.0, r.value.1) && LegalAlias(r.value.0)
    ensures r.Some? ==> r.value.1.Size() <= ts.Size()
  {
    if ts.Cons? && ts.head == Kw(AS) then
      if ts.tail.Cons? && IsAliasName(ts.tail.head) then
        assert ts.Size() == 2 + ts.tail.tail.Size();
        Some((As(ts.tail.head), ts.tail.tail))
      else None
    else if ts.Cons? && IsAliasName(ts.head) then Some((Bare(ts.head), ts.tail))
    else Some((NoAlias, ts))
  }

  /** An element of an expression list is complete up to its alias. */
  function StepItem(e: Expr, head: ListHead, items: Items, below: Stack, ts: List<Token>): (out: Outcome)
    ensures out.Next? ==> out.rest.Size() < ts.Size()
  {
    match TakeAlias(ts)
    case None => Reject
    case Some((alias, rest)) =>
      if rest.Nil? then Reject
      else if rest.head == Sym(',') then Next(Want(Push(ListI(head, Snoc(items, e, alias)), below)), rest.tail)
      else if rest.head == Sym(')') then
        match head
        case CallHead(f, distinct) => Next(HaveOperand(Call(f, distinct, Snoc(items, e, alias)), below), rest.tail)
        case InHead(o, negated) => Next(HaveExpr(InList(o, negated, Snoc(items, e, alias)), below), rest.tail)
      else Reject
  }

  /** An expression is complete and the lookahead is neither AND nor OR. */
  function CloseExpr(e: Expr, k: Stack, ts: List<Token>): (out: Outcome)
    ensures out.Next? ==> out.rest.Size() < ts.Size()
                          || (out.rest == ts && out.config.Height() < HaveExpr(e, k).Height())
  {
    match k
    case Bottom => if ts.Nil? then Accept(e) else Reject
    case Push(item, below) =>
      match item
      case AndI(l) => Next(HaveExpr(And(l, e), below), ts)
      case OrI(l) => Next(HaveExpr(Or(l, e), below), ts)
      case ParenI =>
        if ts.Cons? && ts.head == Sym(')') then Next(HaveOperand(Paren(e), below), ts.tail) else Reject
      case ListI(head, items) => StepItem(e, head, items, below, ts)
      case BaseI =>
        if ts.Cons? && ts.head == Kw(WHEN) then Next(Want(Push(WhenI(SomeExpr(e), NoArms), below)), ts.tail) else Reject
      case WhenI(base, arms) =>
        if ts.Cons? && ts.head == Kw(THEN) then Next(Want(Push(ThenI(base, arms, e), below)), ts.tail) else Reject
      case ThenI(base, arms, when) =>
        var arms' := Arm(arms, when, e);
        if ts.Nil? then Reject
        else if ts.head == Kw(WHEN) then Next(Want(Push(WhenI(base, arms'), below)), ts.tail)
        else if ts.head == Kw(ELSE) then Next(Want(Push(ElseI(base, arms'), below)), ts.tail)
        else if ts.head == Kw(END) then Next(HaveOperand(Case(base, arms', NoExpr), below), ts.tail)
        else Reject
      case ElseI(base, arms) =>
        if ts.Cons? && ts.head == Kw(END) then Next(HaveOperand(Case(base, arms, SomeExpr(e)), below), ts.tail)
        else Reject
      case _ => Reject
  }

  function StepExpr(e: Expr, k: Stack, ts: List<Token>): (out: Outcome)
    ensures out.Next? ==> out.rest.Size() < ts.Size()
                          || (out.rest == ts && out.config.Height() < HaveExpr(e, k).Height())
  {
    if ts.Cons? && (ts.head == Kw(AND) || ts.head == Kw(OR)) && Resolve(ExprRule(k), ts.head) == Shift then
      Next(Want(Push(if ts.head == Kw(AND) then AndI(e) else OrI(e), k)), ts.tail)
    else CloseExpr(e, k, ts)
  }

  function Step(c: Config, ts: List<Token>): (out: Outcome)
    ensures out.Next? ==> out.rest.Size() < ts.Size() || (out.rest == ts && out.config.Height() < c.Height())
  {
    match c
    case Want(k) => StepWant(k, ts)
    case HaveOperand(o, k) => StepOperand(o, k, ts)
    case HaveExpr(e, k) => StepExpr(e, k, ts)
  }

  /** Runs the machine to its end. */
  function Run(c: Config, ts: List<Token>): Option<Expr>
    decreases ts.Size(), c.Height()
  {
    match Step(c, ts)
    case Next(c', rest) => Run(c', rest)
    case Accept(e) => Some(e)
    case Reject => None
  }

  function Parse(ts: List<Token>): Option<Expr> {
    Run(Want(Bottom), ts)
  }

  // ----- observing runs -----

  /** A function of configurations and remaining input. A lemma about every observer that cannot
      tell a configuration from its successor is a lemma about the steps of the machine alone. */
  type Observer = (Config, List<Token>) -> Option<Expr>

  ghost predicate Respects(run: Observer) {
    forall c, ts {:trigger Step(c, ts)} ::
      Step(c, ts).Next? ==> run(c, ts) == run(Step(c, ts).config, Step(c, ts).rest)
  }

  /** An observer that also sees every rejection. */
  ghost predicate Decides(run: Observer) {
    && Respects(run)
    && forall c, ts {:trigger Step(c, ts)} :: Step(c, ts).Reject? ==> run(c, ts) == None
  }

  lemma RunDecides()
    ensures Decides(Run)
  {}

  /** The value that a complete list makes of the rule it belongs to. */
  function ListValue(head: ListHead, items: Items, k: Stack): Config {
    match head
    case CallHead(f, distinct) => HaveOperand(Call(f, distinct, items), k)
    case InHead(o, negated) => HaveExpr(InList(o, negated, items), k)
  }
}
