/**
 A second parser for the same grammar: a recursive reader that climbs the precedence levels, with
 no stack of its own. It agrees with the shift-reduce machine on every token list.
 */
module Reader {
  import opened Tokens
  import opened Precedence
  import opened Syntax
  import opened Machine

  datatype Read<+T> = Got(value: T, rest: List<Token>) | Failed

  /** Reads an operand that stands behind `rule`; `atExpr` says whether IN may follow it. */
  function ReadOperand(atExpr: bool, rule: Option<Prec>, ts: List<Token>): (r: Read<Operand>)
    ensures r.Got? ==> r.rest.Size() < ts.Size()
    decreases ts.Size(), 2
  {
    if ts.Nil? then Failed else
    var t, rest := ts.head, ts.tail;
    var first :=
      if t == Sym('-') then
        match ReadOperand(false, NEG_RULE, rest)
        case Got(a, rest') => Got(Neg(a), rest')
        case Failed => Failed
      else if t == Kw(NOT) then
        match ReadOperand(false, NOT_RULE, rest)
        case Got(a, rest') => Got(Not(a), rest')
        case Failed => Failed
      else ReadAtom(ts);
    match first
    case Got(o, rest') => Climb(atExpr, rule, o, rest')
    case Failed => Failed
  }

  /** Extends the operand `o` for as long as the table prefers a shift over `rule`. */
  function Climb(atExpr: bool, rule: Option<Prec>, o: Operand, ts: List<Token>): (r: Read<Operand>)
    ensures r.Got? ==> r.rest.Size() <= ts.Size()
    decreases ts.Size(), 1
  {
    if ts.Nil? || !ContinuesOperand(ts.head) then Got(o, ts) else
    match Resolve(rule, ts.head)
    case Reduce => Got(o, ts)
    case Error => Failed
    case Shift =>
      var t, rest := ts.head, ts.tail;
      if InfixOf(t).Some? then
        match ReadOperand(false, InfixRule(InfixOf(t).value), rest)
        case Got(r, rest') => Climb(atExpr, rule, Infix(o, InfixOf(t).value, r), rest')
        case Failed => Failed
      else if t == Kw(ISNULL) then Climb(atExpr, rule, Postfix(o, IsNullWord), rest)
      else if t == Kw(IS) then
        if rest.Cons? && rest.head == Kw(NULL) then Climb(atExpr, rule, Postfix(o, IsNullPair), rest.tail)
        else if rest.Cons? && rest.head == Kw(NOT) && rest.tail.Cons? && rest.tail.head == Kw(NULL) then
          assert rest.Size() == 2 + rest.tail.tail.Size();
          Climb(atExpr, rule, Postfix(o, IsNotNull), rest.tail.tail)
        else Failed
      else if rest.Cons? && rest.head == Kw(LIKE) then
        match ReadOperand(false, InfixRule(NotLike), rest.tail)
        case Got(r, rest') => Climb(atExpr, rule, Infix(o, NotLike, r), rest')
        case Failed => Failed
      else if rest.Cons? && rest.head == Kw(IN) && atExpr then Got(o, ts)
      else Failed
  }

  function ReadAtom(ts: List<Token>): (r: Read<Operand>)
    requires ts.Cons?
    ensures r.Got? ==> r.rest.Size() < ts.Size()
    decreases ts.Size(), 1
  {
    var t, rest := ts.head, ts.tail;
    if t == Sym('(') then
      if rest.Cons? && rest.head.SubQuery? then
        match TakeSelect(ts)
        case Some((id, rest')) => Got(SubSelect(id), rest')
        case None => Failed
      else
        match ReadExpr(None, rest)
        case Got(e, rest') =>
          if rest'.Cons? && rest'.head == Sym(')') then Got(Paren(e), rest'.tail) else Failed
        case Failed => Failed
    else if t == Kw(CASE) then ReadCase(rest)
    else if t == Sym(':') then
      if rest.Cons? && rest.head.Ident? then Got(NamedParameter(rest.head.name), rest.tail) else Failed
    else if IsName(t) then ReadName(t, rest)
    else if IsLeaf(t) then Got(Leaf(t), rest)
    else Failed
  }

  function ReadName(t: Token, rest: List<Token>): (r: Read<Operand>)
    ensures r.Got? ==> r.rest.Size() <= rest.Size()
    decreases rest.Size(), 1
  {
    if rest.Cons? && rest.head == Sym('(') then
      var args := rest.tail;
      if args.Cons? && args.head == Sym(')') then Got(Call(t, false, NoItems), args.tail)
      else
        var distinct := args.Cons? && args.head == Kw(DISTINCT);
        match ReadItems(NoItems, if distinct then args.tail else args)
        case Got(items, rest') => Got(Call(t, distinct, items), rest')
        case Failed => Failed
    else if t.Ident? && rest.Cons? && rest.head == Sym('.') then
      var column := rest.tail;
      if column.Cons? && (IsName(column.head) || column.head == Sym('*'))
      then Got(Dotted(t.name, column.head), column.tail)
      else Failed
    else Got(Leaf(t), rest)
  }

  /** Reads list elements up to and including the closing parenthesis. */
  function ReadItems(items: Items, ts: List<Token>): (r: Read<Items>)
    ensures r.Got? ==> r.rest.Size() < ts.Size()
    decreases ts.Size(), 5
  {
    match ReadExpr(None, ts)
    case Failed => Failed
    case Got(e, rest) =>
      match TakeAlias(rest)
      case None => Failed
      case Some((alias, rest')) =>
        if rest'.Nil? then Failed
        else if rest'.head == Sym(',') then ReadItems(Snoc(items, e, alias), rest'.tail)
        else if rest'.head == Sym(')') then Got(Snoc(items, e, alias), rest'.tail)
        else Failed
  }

  /** CASE has been read. */
  function ReadCase(ts: List<Token>): (r: Read<Operand>)
    ensures r.Got? ==> r.rest.Size() < ts.Size()
    decreases ts.Size(), 6
  {
    if ts.Cons? && ts.head == Kw(WHEN) then ReadArms(NoExpr, NoArms, ts.tail)
    else
      match ReadExpr(None, ts)
      case Failed => Failed
      case Got(b, rest) =>
        if rest.Cons? && rest.head == Kw(WHEN) then ReadArms(SomeExpr(b), NoArms, rest.tail) else Failed
  }

  /** A WHEN has been read. */
  function ReadArms(base: OptExpr, arms: Arms, ts: List<Token>): (r: Read<Operand>)
    ensures r.Got? ==> r.rest.Size() < ts.Size()
    decreases ts.Size(), 5
  {
    match ReadExpr(None, ts)
    case Failed => Failed
    case Got(w, rest) =>
      if rest.Nil? || rest.head != Kw(THEN) then Failed else
      match ReadExpr(None, rest.tail)
      case Failed => Failed
      case Got(t, rest') => ReadAfterArm(base, Arm(arms, w, t), rest')
  }

  function ReadAfterArm(base: OptExpr, arms: Arms, ts: List<Token>): (r: Read<Operand>)
    ensures r.Got? ==> r.rest.Size() < ts.Size()
    decreases ts.Size(), 6
  {
    if ts.Nil? then Failed
    else if ts.head == Kw(WHEN) then ReadArms(base, arms, ts.tail)
    else if ts.head == Kw(END) then Got(Case(base, arms, NoExpr), ts.tail)
    else if ts.head == Kw(ELSE) then
      match ReadExpr(None, ts.tail)
      case Got(x, rest) =>
        if rest.Cons? && rest.head == Kw(END) then Got(Case(base, arms, SomeExpr(x)), rest.tail) else Failed
      case Failed => Failed
    else Failed
  }

  /** Reads an expression that stands behind `rule`, the rule of AND, of OR, or none. */
  function ReadExpr(rule: Option<Prec>, ts: List<Token>): (r: Read<Expr>)
    ensures r.Got? ==> r.rest.Size() < ts.Size()
    decreases ts.Size(), 4
  {
    match ReadPrimary(ts)
    case Got(e, rest) => ClimbExpr(rule, e, rest)
    case Failed => Failed
  }

  function ClimbExpr(rule: Option<Prec>, e: Expr, ts: List<Token>): (r: Read<Expr>)
    ensures r.Got? ==> r.rest.Size() <= ts.Size()
    decreases ts.Size(), 1
  {
    if ts.Cons? && (ts.head == Kw(AND) || ts.head == Kw(OR)) && Resolve(rule, ts.head) == Shift then
      match ReadExpr(TokenPrec(ts.head), ts.tail)
      case Got(r, rest) => ClimbExpr(rule, if ts.head == Kw(AND) then And(e, r) else Or(e, r), rest)
      case Failed => Failed
    else Got(e, ts)
  }

  /** An expression without AND and OR on its top level. */
  function ReadPrimary(ts: List<Token>): (r: Read<Expr>)
    ensures r.Got? ==> r.rest.Size() < ts.Size()
    decreases ts.Size(), 3
  {
    if ts.Cons? && ts.head == Kw(EXISTS) then
      match TakeSelect(ts.tail)
      case Some((id, rest)) => Got(Exists(false, id), rest)
      case None => Failed
    else if ts.Cons? && ts.head == Kw(NOT) && ts.tail.Cons? && ts.tail.head == Kw(EXISTS) then
      match TakeSelect(ts.tail.tail)
      case Some((id, rest)) => Got(Exists(true, id), rest)
      case None => Failed
    else
      match ReadOperand(true, None, ts)
      case Failed => Failed
      case Got(o, rest) => ReadTail(o, rest)
  }

  /** What may follow the first operand of an expression. */
  function ReadTail(o: Operand, ts: List<Token>): (r: Read<Expr>)
    ensures r.Got? ==> r.rest.Size() <= ts.Size()
    decreases ts.Size(), 4
  {
    if ts.Cons? && ts.head == Kw(BETWEEN) then ReadBetween(o, ts.tail)
    else if ts.Cons? && ts.head == Kw(IN) then ReadIn(o, false, ts.tail)
    else if ts.Cons? && ts.head == Kw(NOT) && ts.tail.Cons? && ts.tail.head == Kw(IN) then
      assert ts.Size() == 2 + ts.tail.tail.Size();
      ReadIn(o, true, ts.tail.tail)
    else Got(Plain(o), ts)
  }

  function ReadBetween(o: Operand, ts: List<Token>): (r: Read<Expr>)
    ensures r.Got? ==> r.rest.Size() < ts.Size()
    decreases ts.Size(), 3
  {
    match ReadOperand(false, None, ts)
    case Failed => Failed
    case Got(lo, rest) =>
      if rest.Nil? || rest.head != Kw(AND) then Failed else
      match ReadOperand(false, AND_RULE, rest.tail)
      case Got(hi, rest') => Got(Between(o, lo, hi), rest')
      case Failed => Failed
  }

  function ReadIn(o: Operand, negated: bool, ts: List<Token>): (r: Read<Expr>)
    ensures r.Got? ==> r.rest.Size() < ts.Size()
    decreases ts.Size(), 3
  {
    if ts.Nil? || ts.head != Sym('(') then Failed
    else if ts.tail.Cons? && ts.tail.head == Sym(')') then Got(InList(o, negated, NoItems), ts.tail.tail)
    else if ts.tail.Cons? && ts.tail.head.SubQuery? then
      match TakeSelect(ts)
      case Some((id, rest)) => Got(InSelect(o, negated, id), rest)
      case None => Failed
    else
      match ReadItems(NoItems, ts.tail)
      case Got(items, rest) => Got(InList(o, negated, items), rest)
      case Failed => Failed
  }

  function ReadAll(ts: List<Token>): Option<Expr> {
    match ReadExpr(None, ts)
    case Got(e, rest) => if rest.Nil? then Some(e) else None
    case Failed => None
  }

  // ----- agreement with the machine -----

  ghost function SeenOperand(run: Observer, r: Read<Operand>, k: Stack): Option<Expr> {
    if r.Got? then run(HaveOperand(r.value, k), r.rest) else None
  }

  /** The right side of an operator has been read: the operand grows on. */
  ghost function SeenInfix(run: Observer, o: Operand, op: InfixOp, r: Read<Operand>, k: Stack): Option<Expr> {
    if r.Got? then SeenOperand(run, Climb(AtExpr(k), OperandRule(k), Infix(o, op, r.value), r.rest), k) else None
  }

  ghost function SeenItems(run: Observer, head: ListHead, r: Read<Items>, k: Stack): Option<Expr> {
    if r.Got? then run(ListValue(head, r.value, k), r.rest) else None
  }

  ghost function SeenExpr(run: Observer, r: Read<Expr>, k: Stack): Option<Expr> {
    if r.Got? then run(HaveExpr(r.value, k), r.rest) else None
  }

  /** Where a reader of operands stops: the rule reduces, or `NOT IN` follows. */
  ghost predicate Settled(atExpr: bool, rule: Option<Prec>, ts: List<Token>) {
    ts.Cons? && ContinuesOperand(ts.head) ==>
      || Resolve(rule, ts.head) == Reduce
      || (atExpr && ts.head == Kw(NOT) && ts.tail.Cons? && ts.tail.head == Kw(IN))
  }

  lemma {:induction false} ClimbSettles(atExpr: bool, rule: Option<Prec>, o: Operand, ts: List<Token>)
    requires Climb(atExpr, rule, o, ts).Got?
    ensures Settled(atExpr, rule, Climb(atExpr, rule, o, ts).rest)
    decreases ts.Size()
  {
    if ts.Cons? && ContinuesOperand(ts.head) && Resolve(rule, ts.head) == Shift {
      var t, rest := ts.head, ts.tail;
      if InfixOf(t).Some? {
        var r := ReadOperand(false, InfixRule(InfixOf(t).value), rest);
        ClimbSettles(atExpr, rule, Infix(o, InfixOf(t).value, r.value), r.rest);
      } else if t == Kw(ISNULL) {
        ClimbSettles(atExpr, rule, Postfix(o, IsNullWord), rest);
      } else if t == Kw(IS) {
        if rest.head == Kw(NULL) {
          ClimbSettles(atExpr, rule, Postfix(o, IsNullPair), rest.tail);
        } else {
          assert rest.Size() == 2 + rest.tail.tail.Size();
          ClimbSettles(atExpr, rule, Postfix(o, IsNotNull), rest.tail.tail);
        }
      } else if rest.head == Kw(LIKE) {
        var r := ReadOperand(false, InfixRule(NotLike), rest.tail);
        ClimbSettles(atExpr, rule, Infix(o, NotLike, r.value), r.rest);
      }
    }
  }

  lemma ReadSettles(atExpr: bool, rule: Option<Prec>, ts: List<Token>)
    requires ReadOperand(atExpr, rule, ts).Got?
    ensures Settled(atExpr, rule, ReadOperand(atExpr, rule, ts).rest)
  {
    if ts.head == Sym('-') {
      var a := ReadOperand(false, NEG_RULE, ts.tail);
      ClimbSettles(atExpr, rule, Neg(a.value), a.rest);
    } else if ts.head == Kw(NOT) {
      var a := ReadOperand(false, NOT_RULE, ts.tail);
      ClimbSettles(atExpr, rule, Not(a.value), a.rest);
    } else {
      var a := ReadAtom(ts);
      ClimbSettles(atExpr, rule, a.value, a.rest);
    }
  }

  lemma ReducesPending(run: Observer, o: Operand, item: Item, k: Stack, ts: List<Token>)
    requires Decides(run) && (item.InfixI? || item.NegI? || item.NotI?)
    requires Settled(false, OperandRule(Push(item, k)), ts)
    ensures run(HaveOperand(o, Push(item, k)), ts)
         == run(HaveOperand(if item.InfixI? then Infix(item.left, item.op,
             o) else if item.NegI? then Neg(o) else Not(o), k), ts)
  {
    var r := if item.InfixI? then Infix(item.left, item.op, o) else if item.NegI? then Neg(o) else Not(o);
    assert Step(HaveOperand(o, Push(item, k)), ts) == Next(HaveOperand(r, k), ts);
  }

  lemma {:induction false} AgreeOperand(run: Observer, k: Stack, ts: List<Token>)
    requires Decides(run)
    requires !(AtExpr(k) && ts.Cons?
              && (ts.head == Kw(EXISTS) || (ts.head == Kw(NOT) && ts.tail.Cons? && ts.tail.head == Kw(EXISTS))))
    ensures run(Want(k), ts) == SeenOperand(run, ReadOperand(AtExpr(k), OperandRule(k), ts), k)
    decreases ts.Size(), 2
  {
    var atExpr, rule := AtExpr(k), OperandRule(k);
    if ts.Nil? {
      assert Step(Want(k), ts) == Reject;
    } else if ts.head == Sym('-') || ts.head == Kw(NOT) {
      var item := if ts.head == Sym('-') then NegI else NotI;
      var k' := Push(item, k);
      assert Step(Want(k), ts) == Next(Want(k'), ts.tail);
      AgreeOperand(run, k', ts.tail);
      var a := ReadOperand(false, OperandRule(k'), ts.tail);
      if a.Got? {
        ReadSettles(false, OperandRule(k'), ts.tail);
        ReducesPending(run, a.value, item, k, a.rest);
        AgreeClimb(run, if item.NegI? then Neg(a.value) else Not(a.value), k, a.rest);
      }
    } else {
      AgreeAtom(run, k, ts);
      var a := ReadAtom(ts);
      if a.Got? {
        AgreeClimb(run, a.value, k, a.rest);
      }
    }
  }

  lemma {:induction false} AgreeClimb(run: Observer, o: Operand, k: Stack, ts: List<Token>)
    requires Decides(run)
    ensures run(HaveOperand(o, k), ts) == SeenOperand(run, Climb(AtExpr(k), OperandRule(k), o, ts), k)
    decreases ts.Size(), 1
  {
    var rule := OperandRule(k);
    if ts.Cons? && ContinuesOperand(ts.head) {
      match Resolve(rule, ts.head)
      case Reduce =>
      case Error => assert Step(HaveOperand(o, k), ts) == Reject;
      case Shift =>
        var t, rest := ts.head, ts.tail;
        if InfixOf(t).Some? {
          assert Step(HaveOperand(o, k), ts) == Next(Want(Push(InfixI(o, InfixOf(t).value), k)), rest);
          AgreeInfix(run, o, InfixOf(t).value, k, rest);
        } else if t == Kw(NOT) && rest.Cons? && rest.head == Kw(LIKE) {
          assert Step(HaveOperand(o, k), ts) == Next(Want(Push(InfixI(o, NotLike), k)), rest.tail);
          AgreeInfix(run, o, NotLike, k, rest.tail);
        } else {
          AgreeTest(run, o, k, ts);
        }
    }
  }

  /** An infix operator has been shifted. */
  lemma {:induction false} AgreeInfix(run: Observer, o: Operand, op: InfixOp, k: Stack, ts: List<Token>)
    requires Decides(run)
    ensures run(Want(Push(InfixI(o, op), k)), ts)
         == SeenInfix(run, o, op, ReadOperand(false, InfixRule(op), ts), k)
    decreases ts.Size(), 3
  {
    var k' := Push(InfixI(o, op), k);
    AgreeOperand(run, k', ts);
    var r := ReadOperand(false, InfixRule(op), ts);
    if r.Got? {
      ReadSettles(false, InfixRule(op), ts);
      ReducesPending(run, r.value, InfixI(o, op), k, r.rest);
      AgreeClimb(run, Infix(o, op, r.value), k, r.rest);
    }
  }

  lemma {:induction false} AgreeTest(run: Observer, o: Operand, k: Stack, ts: List<Token>)
    requires Decides(run) && ts.Cons? && Resolve(OperandRule(k), ts.head) == Shift
    requires ts.head == Kw(ISNULL) || ts.head == Kw(IS)
             || (ts.head == Kw(NOT) && (ts.tail.Cons? ==> ts.tail.head != Kw(LIKE)))
    ensures run(HaveOperand(o, k), ts) == SeenOperand(run, Climb(AtExpr(k), OperandRule(k), o, ts), k)
    decreases ts.Size(), 0
  {
    var rest := ts.tail;
    if ts.head == Kw(ISNULL) {
      assert Step(HaveOperand(o, k), ts) == Next(HaveOperand(Postfix(o, IsNullWord), k), rest);
      AgreeClimb(run, Postfix(o, IsNullWord), k, rest);
    } else if ts.head == Kw(IS) && rest.Cons? && rest.head == Kw(NULL) {
      assert Step(HaveOperand(o, k), ts) == Next(HaveOperand(Postfix(o, IsNullPair), k), rest.tail);
      AgreeClimb(run, Postfix(o, IsNullPair), k, rest.tail);
    } else if ts.head == Kw(IS) && rest.Cons? && rest.head == Kw(NOT) && rest.tail.Cons? && rest.tail.head == Kw(NULL) {
      assert rest.Size() == 2 + rest.tail.tail.Size();
      assert Step(HaveOperand(o, k), ts) == Next(HaveOperand(Postfix(o, IsNotNull), k), rest.tail.tail);
      AgreeClimb(run, Postfix(o, IsNotNull), k, rest.tail.tail);
    } else if ts.head == Kw(IS) {
      assert Step(HaveOperand(o, k), ts) == Reject;
    } else if rest.Cons? && rest.head == Kw(IN) && AtExpr(k) {
    } else {
      assert Step(HaveOperand(o, k), ts) == Reject;
    }
  }

  lemma {:induction false} AgreeAtom(run: Observer, k: Stack, ts: List<Token>)
    requires Decides(run) && ts.Cons? && ts.head != Sym('-') && ts.head != Kw(NOT)
    requires AtExpr(k) ==> ts.head != Kw(EXISTS)
    ensures run(Want(k), ts) == SeenOperand(run, ReadAtom(ts), k)
    decreases ts.Size(), 1
  {
    var t, rest := ts.head, ts.tail;
    if t == Sym('(') {
      AgreeParen(run, k, ts);
    } else if t == Kw(CASE) {
      AgreeCase(run, k, rest);
    } else if t != Sym(':') && IsName(t) {
      AgreeName(run, t, k, rest);
    } else {
      match ReadAtom(ts)
      case Got(o, rest') => assert Step(Want(k), ts) == Next(HaveOperand(o, k), rest');
      case Failed => assert Step(Want(k), ts) == Reject;
    }
  }

  lemma {:induction false} AgreeParen(run: Observer, k: Stack, ts: List<Token>)
    requires Decides(run) && ts.Cons? && ts.head == Sym('(')
    ensures run(Want(k), ts) == SeenOperand(run, ReadAtom(ts), k)
    decreases ts.Size(), 0
  {
    var rest := ts.tail;
    if rest.Cons? && rest.head.SubQuery? {
      match ReadAtom(ts)
      case Got(o, rest') => assert Step(Want(k), ts) == Next(HaveOperand(o, k), rest');
      case Failed => assert Step(Want(k), ts) == Reject;
    } else {
      var k' := Push(ParenI, k);
      assert Step(Want(k), ts) == Next(Want(k'), rest);
      AgreeExpr(run, k', rest);
      match ReadExpr(None, rest)
      case Got(e, rest') =>
        NestedStops(rest);
        if rest'.Cons? && rest'.head == Sym(')') {
          assert Step(HaveExpr(e, k'), rest') == Next(HaveOperand(Paren(e), k), rest'.tail);
        } else {
          assert Step(HaveExpr(e, k'), rest') == Reject;
        }
      case Failed =>
    }
  }

  lemma {:induction false} AgreeName(run: Observer, t: Token, k: Stack, rest: List<Token>)
    requires Decides(run) && IsName(t)
    ensures run(Want(k), Cons(t, rest)) == SeenOperand(run, ReadName(t, rest), k)
    decreases rest.Size(), 1
  {
    var ts := Cons(t, rest);
    var args := if rest.Cons? then rest.tail else Nil;
    if rest.Cons? && rest.head == Sym('(') && !(args.Cons? && args.head == Sym(')')) {
      var distinct := args.Cons? && args.head == Kw(DISTINCT);
      var args' := if distinct then args.tail else args;
      var head := CallHead(t, distinct);
      assert Step(Want(k), ts) == Next(Want(Push(ListI(head, NoItems), k)), args');
      assert args'.Size() < rest.Size();
      AgreeItems(run, NoItems, head, k, args');
    } else {
      match ReadName(t, rest)
      case Got(o, rest') => assert Step(Want(k), ts) == Next(HaveOperand(o, k), rest');
      case Failed => assert Step(Want(k), ts) == Reject;
    }
  }

  lemma {:induction false} AgreeItems(run: Observer, items: Items, head: ListHead, k: Stack, ts: List<Token>)
    requires Decides(run)
    ensures run(Want(Push(ListI(head, items), k)), ts)
         == SeenItems(run, head, ReadItems(items, ts), k)
    decreases ts.Size(), 5
  {
    var k' := Push(ListI(head, items), k);
    AgreeExpr(run, k', ts);
    match ReadExpr(None, ts)
    case Failed =>
    case Got(e, rest) =>
      NestedStops(ts);
      match TakeAlias(rest)
      case None => assert Step(HaveExpr(e, k'), rest) == Reject;
      case Some((alias, rest')) =>
        var items' := Snoc(items, e, alias);
        if rest'.Cons? && rest'.head == Sym(',') {
          assert Step(HaveExpr(e, k'), rest) == Next(Want(Push(ListI(head, items'), k)), rest'.tail);
          AgreeItems(run, items', head, k, rest'.tail);
        } else if rest'.Cons? && rest'.head == Sym(')') {
          assert Step(HaveExpr(e, k'), rest) == Next(ListValue(head, items', k), rest'.tail);
        } else {
          assert Step(HaveExpr(e, k'), rest) == Reject;
        }
  }

  lemma {:induction false} AgreeCase(run: Observer, k: Stack, ts: List<Token>)
    requires Decides(run)
    ensures run(Want(k), Cons(Kw(CASE), ts)) == SeenOperand(run, ReadCase(ts), k)
    decreases ts.Size(), 6
  {
    if ts.Cons? && ts.head == Kw(WHEN) {
      assert Step(Want(k), Cons(Kw(CASE), ts)) == Next(Want(Push(WhenI(NoExpr, NoArms), k)), ts.tail);
      AgreeArms(run, NoExpr, NoArms, k, ts.tail);
    } else {
      var k' := Push(BaseI, k);
      assert Step(Want(k), Cons(Kw(CASE), ts)) == Next(Want(k'), ts);
      AgreeExpr(run, k', ts);
      match ReadExpr(None, ts)
      case Failed =>
      case Got(b, rest) =>
        NestedStops(ts);
        if rest.Cons? && rest.head == Kw(WHEN) {
          assert Step(HaveExpr(b, k'), rest) == Next(Want(Push(WhenI(SomeExpr(b), NoArms), k)), rest.tail);
          AgreeArms(run, SomeExpr(b), NoArms, k, rest.tail);
        } else {
          assert Step(HaveExpr(b, k'), rest) == Reject;
        }
    }
  }

  lemma {:induction false} AgreeArms(run: Observer, base: OptExpr, arms: Arms, k: Stack, ts: List<Token>)
    requires Decides(run)
    ensures run(Want(Push(WhenI(base, arms), k)), ts) == SeenOperand(run, ReadArms(base, arms, ts), k)
    decreases ts.Size(), 5
  {
    var kw := Push(WhenI(base, arms), k);
    AgreeExpr(run, kw, ts);
    match ReadExpr(None, ts)
    case Failed =>
    case Got(w, rest) =>
      NestedStops(ts);
      if rest.Cons? && rest.head == Kw(THEN) {
        var kt := Push(ThenI(base, arms, w), k);
        assert Step(HaveExpr(w, kw), rest) == Next(Want(kt), rest.tail);
        AgreeExpr(run, kt, rest.tail);
        match ReadExpr(None, rest.tail)
        case Failed =>
        case Got(t, rest') =>
          NestedStops(rest.tail);
          AgreeArmEnd(run, base, arms, w, t, k, rest');
      } else {
        assert Step(HaveExpr(w, kw), rest) == Reject;
      }
  }

  /** A whole arm has been read. */
  lemma {:induction false} AgreeArmEnd(run: Observer, base: OptExpr, arms: Arms, w: Expr, t: Expr, k: Stack,
                                       ts: List<Token>)
    requires Decides(run)
    requires ts.Cons? ==> ts.head != Kw(AND) && ts.head != Kw(OR)
    ensures run(HaveExpr(t, Push(ThenI(base, arms, w), k)), ts)
         == SeenOperand(run, ReadAfterArm(base, Arm(arms, w, t), ts), k)
    decreases ts.Size(), 6
  {
    var kt := Push(ThenI(base, arms, w), k);
    var arms' := Arm(arms, w, t);
    if ts.Cons? && ts.head == Kw(WHEN) {
      assert Step(HaveExpr(t, kt), ts) == Next(Want(Push(WhenI(base, arms'), k)), ts.tail);
      AgreeArms(run, base, arms', k, ts.tail);
    } else if ts.Cons? && ts.head == Kw(ELSE) {
      var ke := Push(ElseI(base, arms'), k);
      assert Step(HaveExpr(t, kt), ts) == Next(Want(ke), ts.tail);
      AgreeExpr(run, ke, ts.tail);
      match ReadExpr(None, ts.tail)
      case Failed =>
      case Got(x, rest) =>
        NestedStops(ts.tail);
        if rest.Cons? && rest.head == Kw(END) {
          assert Step(HaveExpr(x, ke), rest) == Next(HaveOperand(Case(base, arms', SomeExpr(x)), k), rest.tail);
        } else {
          assert Step(HaveExpr(x, ke), rest) == Reject;
        }
    } else if ts.Cons? && ts.head == Kw(END) {
      assert Step(HaveExpr(t, kt), ts) == Next(HaveOperand(Case(base, arms', NoExpr), k), ts.tail);
    } else {
      assert Step(HaveExpr(t, kt), ts) == Reject;
    }
  }

  /** What stops a reader of expressions is never an operator it would have shifted. */
  lemma {:induction false} ClimbExprStops(rule: Option<Prec>, e: Expr, ts: List<Token>)
    requires ClimbExpr(rule, e, ts).Got?
    ensures var rest := ClimbExpr(rule, e, ts).rest;
            rest.Cons? && (rest.head == Kw(AND) || rest.head == Kw(OR)) ==> Resolve(rule, rest.head) != Shift
    decreases ts.Size()
  {
    if ts.Cons? && (ts.head == Kw(AND) || ts.head == Kw(OR)) && Resolve(rule, ts.head) == Shift {
      var r := ReadExpr(TokenPrec(ts.head), ts.tail);
      ClimbExprStops(rule, if ts.head == Kw(AND) then And(e, r.value) else Or(e, r.value), r.rest);
    }
  }

  lemma NestedStops(ts: List<Token>)
    requires ReadExpr(None, ts).Got?
    ensures var rest := ReadExpr(None, ts).rest; rest.Cons? ==> rest.head != Kw(AND) && rest.head != Kw(OR)
  {
    var p := ReadPrimary(ts);
    ClimbExprStops(None, p.value, p.rest);
  }

  lemma {:induction false} AgreeExpr(run: Observer, k: Stack, ts: List<Token>)
    requires Decides(run) && AtExpr(k)
    ensures run(Want(k), ts) == SeenExpr(run, ReadExpr(ExprRule(k), ts), k)
    decreases ts.Size(), 4
  {
    AgreePrimary(run, k, ts);
    var p := ReadPrimary(ts);
    if p.Got? {
      AgreeClimbExpr(run, p.value, k, p.rest);
    }
  }

  lemma {:induction false} AgreeClimbExpr(run: Observer, e: Expr, k: Stack, ts: List<Token>)
    requires Decides(run) && AtExpr(k)
    ensures run(HaveExpr(e, k), ts) == SeenExpr(run, ClimbExpr(ExprRule(k), e, ts), k)
    decreases ts.Size(), 1
  {
    if ts.Cons? && (ts.head == Kw(AND) || ts.head == Kw(OR)) && Resolve(ExprRule(k), ts.head) == Shift {
      var item := if ts.head == Kw(AND) then AndI(e) else OrI(e);
      var k' := Push(item, k);
      assert Step(HaveExpr(e, k), ts) == Next(Want(k'), ts.tail);
      AgreeExpr(run, k', ts.tail);
      var r := ReadExpr(TokenPrec(ts.head), ts.tail);
      if r.Got? {
        var p := ReadPrimary(ts.tail);
        ClimbExprStops(TokenPrec(ts.head), p.value, p.rest);
        var e' := if ts.head == Kw(AND) then And(e, r.value) else Or(e, r.value);
        assert Step(HaveExpr(r.value, k'), r.rest) == Next(HaveExpr(e', k), r.rest);
        AgreeClimbExpr(run, e', k, r.rest);
      }
    }
  }

  lemma {:induction false} AgreePrimary(run: Observer, k: Stack, ts: List<Token>)
    requires Decides(run) && AtExpr(k)
    ensures run(Want(k), ts) == SeenExpr(run, ReadPrimary(ts), k)
    decreases ts.Size(), 3
  {
    if ts.Cons? && (ts.head == Kw(EXISTS) || (ts.head == Kw(NOT) && ts.tail.Cons? && ts.tail.head == Kw(EXISTS))) {
      match ReadPrimary(ts)
      case Got(e, rest) => assert Step(Want(k), ts) == Next(HaveExpr(e, k), rest);
      case Failed => assert Step(Want(k), ts) == Reject;
    } else {
      AgreeOperand(run, k, ts);
      assert OperandRule(k) == None;
      match ReadOperand(true, None, ts)
      case Failed =>
      case Got(o, rest) =>
        ReadSettles(true, None, ts);
        AgreeTail(run, o, k, rest);
    }
  }

  lemma {:induction false} AgreeTail(run: Observer, o: Operand, k: Stack, ts: List<Token>)
    requires Decides(run) && AtExpr(k) && Settled(true, None, ts)
    ensures run(HaveOperand(o, k), ts) == SeenExpr(run, ReadTail(o, ts), k)
    decreases ts.Size(), 5
  {
    if ts.Cons? && ts.head == Kw(BETWEEN) {
      assert Step(HaveOperand(o, k), ts) == Next(Want(Push(LowI(o), k)), ts.tail);
      AgreeBetween(run, o, k, ts.tail);
    } else if ts.Cons? && ts.head == Kw(IN) {
      AgreeIn(run, o, false, k, ts);
    } else if ts.Cons? && ts.head == Kw(NOT) && ts.tail.Cons? && ts.tail.head == Kw(IN) {
      AgreeIn(run, o, true, k, ts);
    } else {
      assert Step(HaveOperand(o, k), ts) == Next(HaveExpr(Plain(o), k), ts);
    }
  }

  lemma {:induction false} AgreeBetween(run: Observer, o: Operand, k: Stack, ts: List<Token>)
    requires Decides(run) && AtExpr(k)
    ensures run(Want(Push(LowI(o), k)), ts) == SeenExpr(run, ReadBetween(o, ts), k)
    decreases ts.Size(), 3
  {
    hide Opens, Resolve, TokenPrec, ReadOperand;
    var kl := Push(LowI(o), k);
    AgreeOperand(run, kl, ts);
    match ReadOperand(false, None, ts)
    case Failed =>
    case Got(lo, rest) =>
      ReadSettles(false, None, ts);
      if rest.Cons? && rest.head == Kw(AND) {
        var kh := Push(HighI(o, lo), k);
        assert Step(HaveOperand(lo, kl), rest) == Next(Want(kh), rest.tail);
        AgreeOperand(run, kh, rest.tail);
        match ReadOperand(false, AND_RULE, rest.tail)
        case Failed =>
        case Got(hi, rest') =>
          ReadSettles(false, AND_RULE, rest.tail);
          assert Step(HaveOperand(hi, kh), rest') == Next(HaveExpr(Between(o, lo, hi), k), rest');
      } else {
        assert Step(HaveOperand(lo, kl), rest) == Reject;
      }
  }

  lemma {:induction false} AgreeIn(run: Observer, o: Operand, negated: bool, k: Stack, ts: List<Token>)
    requires Decides(run) && AtExpr(k)
    requires ts.Cons? && (if negated then ts.head == Kw(NOT) && ts.tail.Cons?
        && ts.tail.head == Kw(IN) else ts.head == Kw(IN))
    ensures run(HaveOperand(o, k), ts) == SeenExpr(run, ReadIn(o, negated, if negated then ts.tail.tail else ts.tail), k)
    decreases ts.Size(), 3
  {
    var rest := if negated then ts.tail.tail else ts.tail;
    assert Step(HaveOperand(o, k), ts) == StepIn(o, negated, k, rest);
    if rest.Cons? && rest.head == Sym('(') && !(rest.tail.Cons?
        && (rest.tail.head == Sym(')') || rest.tail.head.SubQuery?)) {
      assert ts.Size() > rest.tail.Size();
      AgreeItems(run, NoItems, InHead(o, negated), k, rest.tail);
    }
  }

  /** On every token list the reader and the machine end with the same tree or the same rejection. */
  lemma ReaderIsParse(ts: List<Token>)
    ensures ReadAll(ts) == Parse(ts)
  {
    RunDecides();
    AgreeExpr(Run, Bottom, ts);
    if ReadExpr(None, ts).Got? {
      NestedStops(ts);
    }
  }
}
