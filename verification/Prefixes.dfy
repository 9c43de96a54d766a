/**
 Where a rejected token list goes wrong: the machine stops in front of the first token that no accepted
 list has there. All the tokens before it can be completed, and none of them has to be read again.
 */
module Prefixes {
  import opened Tokens
  import opened Precedence
  import opened Syntax
  import opened Machine
  import opened Soundness

  // ----- lists with a common prefix -----

  /** The same next token, or the end of both lists. */
  predicate Same(a: List<Token>, b: List<Token>) {
    a.Nil? == b.Nil? && (a.Cons? ==> a.head == b.head)
  }

  /** The first `n` tokens are the same; the end of the list counts as a token. */
  predicate Agree(a: List<Token>, b: List<Token>, n: nat) {
    n == 0 || (Same(a, b) && (a.Cons? ==> Agree(a.tail, b.tail, n - 1)))
  }

  function Drop(a: List<Token>, n: nat): List<Token>
    requires n <= a.Size()
  {
    if n == 0 then a else Drop(a.tail, n - 1)
  }

  /** The first `n` tokens of `a`, followed by `z`. */
  function Graft(a: List<Token>, n: nat, z: List<Token>): List<Token>
    requires n <= a.Size()
  {
    if n == 0 then z else Cons(a.head, Graft(a.tail, n - 1, z))
  }

  lemma {:induction false} DropSize(a: List<Token>, n: nat)
    requires n <= a.Size()
    ensures Drop(a, n).Size() == a.Size() - n
  {
    if n > 0 {
      DropSize(a.tail, n - 1);
    }
  }

  lemma {:induction false} GraftMore(a: List<Token>, m: nat, n: nat, z: List<Token>)
    requires m + n <= a.Size()
    ensures n <= Drop(a, m).Size() && Graft(a, m + n, z) == Graft(a, m, Graft(Drop(a, m), n, z))
    ensures Drop(Drop(a, m), n) == Drop(a, m + n)
  {
    DropSize(a, m);
    if m > 0 {
      GraftMore(a.tail, m - 1, n, z);
    }
  }

  /** A list that agrees with `a` on one token more than `n` is a graft with the same next token. */
  lemma {:induction false} AgreeIsGraft(a: List<Token>, b: List<Token>, n: nat) returns (z: List<Token>)
    requires n <= a.Size() && Agree(a, b, n + 1)
    ensures b == Graft(a, n, z) && Same(Drop(a, n), z)
  {
    if n == 0 {
      z := b;
    } else {
      z := AgreeIsGraft(a.tail, b.tail, n - 1);
    }
  }

  /** The first tokens of a list and of a graft. */
  lemma ShortGrafts(a: List<Token>, z: List<Token>)
    ensures Graft(a, 0, z) == z && Drop(a, 0) == a
    ensures a.Cons? ==> 1 <= a.Size() && Graft(a, 1, z) == Cons(a.head, z) && Drop(a, 1) == a.tail
    ensures a.Cons? && a.tail.Cons? ==>
              && 2 <= a.Size() && Drop(a, 2) == a.tail.tail && Graft(a, 2, z) == Cons(a.head, Cons(a.tail.head, z))
    ensures a.Cons? && a.tail.Cons? && a.tail.tail.Cons? ==>
              && 3 <= a.Size() && Drop(a, 3) == a.tail.tail.tail
              && Graft(a, 3, z) == Cons(a.head, Cons(a.tail.head, Cons(a.tail.tail.head, z)))
  {
    if a.Cons? {
      assert Graft(a.tail, 0, z) == z && Drop(a.tail, 0) == a.tail;
      if a.tail.Cons? {
        assert Graft(a.tail, 1, z) == Cons(a.tail.head, Graft(a.tail.tail, 0, z)) == Cons(a.tail.head, z);
        assert Drop(a.tail, 1) == Drop(a.tail.tail, 0) == a.tail.tail;
        if a.tail.tail.Cons? {
          assert Graft(a.tail.tail, 1, z) == Cons(a.tail.tail.head, Graft(a.tail.tail.tail, 0, z));
          assert Drop(a.tail.tail, 1) == Drop(a.tail.tail.tail, 0);
          assert Graft(a.tail, 2, z) == Cons(a.tail.head, Graft(a.tail.tail, 1, z));
          assert Drop(a.tail, 2) == Drop(a.tail.tail, 1);
        }
      }
    }
  }

  // ----- what a step looks at -----

  const LEAF: Token := Int("0")

  /** A continuation that no earlier step mistakes for something else. */
  predicate Fits(c: Config, z: List<Token>) {
    if c.Want? then z.Cons? && z.head == LEAF
    else
      || z.Nil? || z.head == Sym(')') || z.head == Kw(WHEN) || z.head == Kw(THEN) || z.head == Kw(END)
      || z.head == Kw(AND)
  }

  /** The step of `out` has read `m` tokens of `a`, and with any harmless rest behind them it is the
      same step. */
  ghost predicate Moves(a: List<Token>, m: nat, out: Outcome) {
    out.Next? && m <= a.Size() && out.rest == Drop(a, m)
  }

  predicate Harmless(m: nat, out: Outcome, z: List<Token>)
    requires out.Next?
  {
    Same(out.rest, z) || (m > 0 && Fits(out.config, z))
  }

  lemma SelectMoves(a: List<Token>, z: List<Token>)
    requires TakeSelect(a).Some?
    ensures 3 <= a.Size() && TakeSelect(a).value.1 == Drop(a, 3)
    ensures TakeSelect(Graft(a, 3, z)) == Some((TakeSelect(a).value.0, z))
  {
    ShortGrafts(a, z);
  }

  lemma NameMoves(t: Token, k: Stack, a: List<Token>, z: List<Token>) returns (m: nat)
    requires IsName(t) && StepName(t, k, a).Next?
    ensures Moves(a, m, StepName(t, k, a))
    ensures Same(StepName(t, k, a).rest, z) || Fits(StepName(t, k, a).config, z) ==>
              StepName(t, k, Graft(a, m, z)) == Next(StepName(t, k, a).config, z)
  {
    ShortGrafts(a, z);
    m := if a.Cons? && a.head == Sym('(') then
           (if a.tail.Cons? && (a.tail.head == Sym(')') || a.tail.head == Kw(DISTINCT)) then 2 else 1)
         else if t.Ident? && a.Cons? && a.head == Sym('.') then 2 else 0;
  }

  lemma InMoves(o: Operand, negated: bool, k: Stack, a: List<Token>, z: List<Token>) returns (m: nat)
    requires StepIn(o, negated, k, a).Next?
    ensures Moves(a, m, StepIn(o, negated, k, a)) && m > 0
    ensures Harmless(m, StepIn(o, negated, k, a), z) ==>
              StepIn(o, negated, k, Graft(a, m, z)) == Next(StepIn(o, negated, k, a).config, z)
  {
    ShortGrafts(a, z);
    m := if a.tail.Cons? && a.tail.head == Sym(')') then 2 else if a.tail.Cons? && a.tail.head.SubQuery? then 3 else 1;
  }

  /** One more token in front. */
  lemma ConsMoves(t: Token, a: List<Token>, m: nat, z: List<Token>)
    requires m <= a.Size()
    ensures Graft(Cons(t, a), m + 1, z) == Cons(t, Graft(a, m, z)) && Drop(Cons(t, a), m + 1) == Drop(a, m)
    ensures m + 1 <= Cons(t, a).Size()
  {}

  lemma ExistsMoves(negated: bool, k: Stack, a: List<Token>, z: List<Token>)
    requires StepExists(negated, k, a).Next?
    ensures Moves(a, 3, StepExists(negated, k, a))
    ensures StepExists(negated, k, Graft(a, 3, z)) == Next(StepExists(negated, k, a).config, z)
  {
    SelectMoves(a, z);
  }

  /** The forms without a name and without a select. */
  predicate IsPlain(k: Stack, a: List<Token>) {
    && a.Cons? && a.head != Kw(EXISTS) && !IsName(a.head)
    && !(a.head == Kw(NOT) && AtExpr(k) && a.tail.Cons? && a.tail.head == Kw(EXISTS))
    && !(a.head == Sym('(') && a.tail.Cons? && a.tail.head.SubQuery?)
  }

  lemma PlainMoves(k: Stack, a: List<Token>, z: List<Token>) returns (m: nat)
    requires StepWant(k, a).Next? && IsPlain(k, a)
    ensures Moves(a, m, StepWant(k, a)) && m > 0
    ensures Harmless(m, StepWant(k, a), z) ==> StepWant(k, Graft(a, m, z)) == Next(StepWant(k, a).config, z)
  {
    ShortGrafts(a, z);
    hide Graft, Drop, StepName, StepExists, TakeSelect;
    m := if (a.head == Kw(CASE) && a.tail.Cons? && a.tail.head == Kw(WHEN)) || a.head == Sym(':') then 2 else 1;
  }

  lemma NamedMoves(k: Stack, a: List<Token>, z: List<Token>) returns (m: nat)
    requires StepWant(k, a).Next? && IsName(a.head)
    ensures Moves(a, m, StepWant(k, a)) && m > 0
    ensures Harmless(m, StepWant(k, a), z) ==> StepWant(k, Graft(a, m, z)) == Next(StepWant(k, a).config, z)
  {
    hide StepName, StepExists, TakeSelect;
    m := NameMoves(a.head, k, a.tail, z);
    ConsMoves(a.head, a.tail, m, z);
    m := m + 1;
  }

  lemma SelectedMoves(k: Stack, a: List<Token>, z: List<Token>) returns (m: nat)
    requires StepWant(k, a).Next? && !IsPlain(k, a) && !IsName(a.head)
    ensures Moves(a, m, StepWant(k, a)) && m > 0
    ensures StepWant(k, Graft(a, m, z)) == Next(StepWant(k, a).config, z)
  {
    var t, rest := a.head, a.tail;
    hide StepName, StepExists, TakeSelect, Drop;
    if t == Kw(NOT) {
      ExistsMoves(true, k, rest.tail, z);
      ConsMoves(rest.head, rest.tail, 3, z);
      ConsMoves(t, rest, 4, z);
      m := 5;
      hide Graft;
      assert Graft(a, m, z) == Cons(t, Cons(rest.head, Graft(rest.tail, 3, z)));
    } else if t == Kw(EXISTS) {
      ExistsMoves(false, k, rest, z);
      ConsMoves(t, rest, 3, z);
      m := 4;
    } else {
      SelectMoves(a, z);
      ShortGrafts(a, z);
      m := 3;
    }
  }

  lemma WantMoves(k: Stack, a: List<Token>, z: List<Token>) returns (m: nat)
    requires StepWant(k, a).Next?
    ensures Moves(a, m, StepWant(k, a)) && m > 0
    ensures Harmless(m, StepWant(k, a), z) ==> StepWant(k, Graft(a, m, z)) == Next(StepWant(k, a).config, z)
  {
    assert a.Cons?;
    hide StepWant, IsPlain, IsName, Graft, Drop;
    if IsName(a.head) {
      m := NamedMoves(k, a, z);
    } else if IsPlain(k, a) {
      m := PlainMoves(k, a, z);
    } else {
      m := SelectedMoves(k, a, z);
    }
  }

  lemma NotInMoves(o: Operand, k: Stack, a: List<Token>, z: List<Token>) returns (m: nat)
    requires a.Cons? && a.head == Kw(NOT) && a.tail.Cons? && a.tail.head == Kw(IN) && ShiftOperator(o, k, a).Next?
    ensures Moves(a, m, ShiftOperator(o, k, a)) && m > 0 && Graft(a, m, z).Cons? && Graft(a, m, z).head == a.head
    ensures Harmless(m, ShiftOperator(o, k, a), z) ==>
              ShiftOperator(o, k, Graft(a, m, z)) == Next(ShiftOperator(o, k, a).config, z)
  {
    var rest := a.tail;
    m := InMoves(o, true, k, rest.tail, z);
    ConsMoves(rest.head, rest.tail, m, z);
    ConsMoves(a.head, rest, m + 1, z);
    m := m + 2;
    hide Graft, Drop, StepIn;
    assert Graft(a, m, z) == Cons(a.head, Cons(rest.head, Graft(rest.tail, m - 2, z)));
  }

  lemma ShiftMoves(o: Operand, k: Stack, a: List<Token>, z: List<Token>) returns (m: nat)
    requires a.Cons? && ContinuesOperand(a.head) && ShiftOperator(o, k, a).Next?
    ensures Moves(a, m, ShiftOperator(o, k, a)) && m > 0 && Graft(a, m, z).Cons? && Graft(a, m, z).head == a.head
    ensures Harmless(m, ShiftOperator(o, k, a), z) ==>
              ShiftOperator(o, k, Graft(a, m, z)) == Next(ShiftOperator(o, k, a).config, z)
  {
    ShortGrafts(a, z);
    hide StepIn, Graft, Drop;
    var t, rest := a.head, a.tail;
    if t == Kw(NOT) && rest.Cons? && rest.head == Kw(IN) {
      m := NotInMoves(o, k, a, z);
    } else if t == Kw(IS) {
      m := if rest.head == Kw(NULL) then 2 else 3;
    } else {
      m := if InfixOf(t).Some? || t == Kw(ISNULL) then 1 else 2;
    }
  }

  lemma ReduceMoves(o: Operand, k: Stack, a: List<Token>, z: List<Token>) returns (m: nat)
    requires ReduceOperand(o, k, a).Next?
    ensures Moves(a, m, ReduceOperand(o, k, a)) && (m > 0 ==> Graft(a, m, z).Cons? && Graft(a, m, z).head == a.head)
    ensures Harmless(m, ReduceOperand(o, k, a), z) ==>
              ReduceOperand(o, k, Graft(a, m, z)) == Next(ReduceOperand(o, k, a).config, z)
  {
    ShortGrafts(a, z);
    hide Graft, Drop;
    if AtExpr(k) && a.Cons? && a.head == Kw(IN) {
      m := InMoves(o, false, k, a.tail, z);
      ConsMoves(a.head, a.tail, m, z);
      m := m + 1;
    } else {
      m := if a.Cons? && ((AtExpr(k) && a.head == Kw(BETWEEN)) || (!AtExpr(k) && k.item.LowI?)) then 1 else 0;
    }
  }

  lemma OperandMoves(o: Operand, k: Stack, a: List<Token>, z: List<Token>) returns (m: nat)
    requires StepOperand(o, k, a).Next?
    ensures Moves(a, m, StepOperand(o, k, a))
    ensures Harmless(m, StepOperand(o, k, a), z) ==>
              StepOperand(o, k, Graft(a, m, z)) == Next(StepOperand(o, k, a).config, z)
  {
    hide Resolve, TokenPrec, ShiftOperator, ReduceOperand, ContinuesOperand;
    if a.Cons? && ContinuesOperand(a.head) && Resolve(OperandRule(k), a.head) == Shift {
      m := ShiftMoves(o, k, a, z);
    } else {
      m := ReduceMoves(o, k, a, z);
    }
  }

  lemma AliasMoves(a: List<Token>, z: List<Token>) returns (m: nat)
    requires TakeAlias(a).Some?
    ensures m <= a.Size() && TakeAlias(a).value.1 == Drop(a, m)
    ensures z.Cons? && !IsAliasName(z.head) && z.head != Kw(AS) ==>
              TakeAlias(Graft(a, m, z)) == Some((TakeAlias(a).value.0, z))
  {
    ShortGrafts(a, z);
    m := if a.Nil? || TakeAlias(a).value.0.NoAlias? then 0 else if a.head == Kw(AS) then 2 else 1;
  }

  lemma ItemMoves(e: Expr, head: ListHead, items: Items, below: Stack, a: List<Token>, z: List<Token>) returns (m: nat)
    requires StepItem(e, head, items, below, a).Next?
    ensures Moves(a, m, StepItem(e, head, items, below, a)) && m > 0
    ensures StepItem(e, head, items, below, Graft(a, m, z)) == Next(StepItem(e, head, items, below, a).config, z)
  {
    var rest := TakeAlias(a).value.1;
    m := AliasMoves(a, Cons(rest.head, z));
    DropSize(a, m);
    GraftMore(a, m, 1, z);
    ShortGrafts(rest, z);
    assert Graft(a, m + 1, z) == Graft(a, m, Cons(rest.head, z));
    assert TakeAlias(Graft(a, m + 1, z)) == Some((TakeAlias(a).value.0, Cons(rest.head, z)));
    hide TakeAlias, Graft, Drop;
    m := m + 1;
    var alias := TakeAlias(a).value.0;
    assert TakeAlias(Graft(a, m, z)).value == (alias, Cons(rest.head, z));
    ItemStep(e, head, items, below, a, alias, rest);
    ItemStep(e, head, items, below, Graft(a, m, z), alias, Cons(rest.head, z));
  }

  lemma ItemStep(e: Expr, head: ListHead, items: Items, below: Stack, a: List<Token>, alias: Alias, rest: List<Token>)
    requires TakeAlias(a) == Some((alias, rest)) && rest.Cons?
    ensures rest.head == Sym(',') ==>
              StepItem(e, head, items, below, a) == Next(Want(Push(ListI(head, Snoc(items, e, alias)), below)), rest.tail)
    ensures rest.head == Sym(')') ==>
              StepItem(e, head, items, below, a) == Next(ListValue(head, Snoc(items, e, alias), below), rest.tail)
    ensures rest.head != Sym(',') && rest.head != Sym(')') ==> StepItem(e, head, items, below, a) == Reject
  {
    hide TakeAlias;
  }

  lemma CloseMoves(e: Expr, k: Stack, a: List<Token>, z: List<Token>) returns (m: nat)
    requires CloseExpr(e, k, a).Next?
    ensures Moves(a, m, CloseExpr(e, k, a)) && (m > 0 ==> Same(a, Graft(a, m, z)))
    ensures Harmless(m, CloseExpr(e, k, a), z) ==>
              CloseExpr(e, k, Graft(a, m, z)) == Next(CloseExpr(e, k, a).config, z)
  {
    ShortGrafts(a, z);
    if k.item.ListI? {
      m := ItemMoves(e, k.item.listHead, k.item.items, k.below, a, z);
    } else {
      hide Graft, Drop;
      m := if k.item.AndI? || k.item.OrI? then 0 else 1;
    }
  }

  lemma ExprMoves(e: Expr, k: Stack, a: List<Token>, z: List<Token>) returns (m: nat)
    requires StepExpr(e, k, a).Next?
    ensures Moves(a, m, StepExpr(e, k, a))
    ensures Harmless(m, StepExpr(e, k, a), z) ==> StepExpr(e, k, Graft(a, m, z)) == Next(StepExpr(e, k, a).config, z)
  {
    ShortGrafts(a, z);
    hide Resolve, TokenPrec, CloseExpr, Drop;
    if a.Cons? && (a.head == Kw(AND) || a.head == Kw(OR)) && Resolve(ExprRule(k), a.head) == Shift {
      m := 1;
    } else {
      m := CloseMoves(e, k, a, z);
    }
  }

  /** How many tokens the step reads. */
  function Taken(c: Config, a: List<Token>): nat
    requires Step(c, a).Next?
  {
    a.Size() - Step(c, a).rest.Size()
  }

  /** A step reads a prefix, and does the same on every list with that prefix and a harmless rest. */
  lemma StepMoves(c: Config, a: List<Token>, z: List<Token>)
    requires Step(c, a).Next?
    ensures Taken(c, a) <= a.Size() && Step(c, a).rest == Drop(a, Taken(c, a))
    ensures Harmless(Taken(c, a), Step(c, a), z) ==> Step(c, Graft(a, Taken(c, a), z)) == Next(Step(c, a).config, z)
  {
    hide StepWant, StepOperand, StepExpr, Graft, Drop;
    var m;
    match c {
      case Want(k) => m := WantMoves(k, a, z);
      case HaveOperand(o, k) => m := OperandMoves(o, k, a, z);
      case HaveExpr(e, k) => m := ExprMoves(e, k, a, z);
    }
    DropSize(a, m);
  }

  // ----- where a rejecting step stops -----

  /** The tokens of `'(' select_no_paren ')'` in front of the one that does not fit. */
  function SelectStop(a: List<Token>): (n: nat)
    ensures n <= a.Size()
  {
    if a.Nil? || a.head != Sym('(') then 0
    else if a.tail.Nil? || !a.tail.head.SubQuery? then 1
    else 2
  }

  function WantStop(k: Stack, a: List<Token>): (n: nat)
    ensures n <= a.Size()
  {
    if a.Nil? then 0 else
    var t, rest := a.head, a.tail;
    if t == Kw(NOT) && rest.Cons? then 2 + SelectStop(rest.tail)
    else if t == Kw(EXISTS) then (if AtExpr(k) then 1 + SelectStop(rest) else 0)
    else if t == Sym('(') && rest.Cons? then 2
    else if t == Sym(':') then 1
    else if IsName(t) && rest.Cons? then 2
    else 0
  }

  function InStop(a: List<Token>): (n: nat)
    ensures n <= a.Size()
  {
    if a.Cons? && a.head == Sym('(') && a.tail.Cons? then 2 else 0
  }

  function OperandStop(k: Stack, a: List<Token>): (n: nat)
    ensures n <= a.Size()
  {
    if a.Nil? then 0 else
    var t, rest := a.head, a.tail;
    if ContinuesOperand(t) && Resolve(OperandRule(k), t) == Shift then
      if t == Kw(IS) then (if rest.Cons? && rest.head == Kw(NOT) then 2 else 1)
      else if rest.Cons? && rest.head == Kw(IN) && AtExpr(k) then 2 + InStop(rest.tail)
      else 1
    else if !(ContinuesOperand(t) && Resolve(OperandRule(k), t) == Error) && AtExpr(k) && t == Kw(IN) then
      1 + InStop(rest)
    else 0
  }

  function ExprStop(k: Stack, a: List<Token>): (n: nat)
    ensures n <= a.Size()
  {
    if k.Bottom? || !k.item.ListI? || a.Nil? then 0
    else if a.head == Kw(AS) then (if a.tail.Cons? && IsAliasName(a.tail.head) then 2 else 1)
    else if IsAliasName(a.head) then 1
    else 0
  }

  /** The tokens that a rejecting step can still read. */
  function Stop(c: Config, a: List<Token>): (n: nat)
    ensures n <= a.Size()
  {
    match c
    case Want(k) => WantStop(k, a)
    case HaveOperand(_, k) => OperandStop(k, a)
    case HaveExpr(_, k) => ExprStop(k, a)
  }

  lemma SelectStays(a: List<Token>, z: List<Token>)
    requires TakeSelect(a).None? && Same(Drop(a, SelectStop(a)), z)
    ensures TakeSelect(Graft(a, SelectStop(a), z)).None?
  {
    ShortGrafts(a, z);
  }

  lemma ConsDrops(t: Token, a: List<Token>, n: nat, z: List<Token>)
    requires n <= a.Size()
    ensures Graft(Cons(t, a), n + 1, z) == Cons(t, Graft(a, n, z)) && Drop(Cons(t, a), n + 1) == Drop(a, n)
  {}

  lemma WantStays(k: Stack, a: List<Token>, z: List<Token>)
    requires StepWant(k, a).Reject? && Same(Drop(a, WantStop(k, a)), z)
    ensures StepWant(k, Graft(a, WantStop(k, a), z)).Reject?
  {
    ShortGrafts(a, z);
    if a.Cons? {
      var t, rest := a.head, a.tail;
      hide Graft, Drop;
      if t == Kw(NOT) && rest.Cons? {
        ConsDrops(rest.head, rest.tail, SelectStop(rest.tail), z);
        ConsDrops(t, rest, 1 + SelectStop(rest.tail), z);
        SelectStays(rest.tail, z);
      } else if t == Kw(EXISTS) && AtExpr(k) {
        ConsDrops(t, rest, SelectStop(rest), z);
        SelectStays(rest, z);
      }
    }
  }

  lemma InStays(o: Operand, negated: bool, k: Stack, a: List<Token>, z: List<Token>)
    requires StepIn(o, negated, k, a).Reject? && Same(Drop(a, InStop(a)), z)
    ensures StepIn(o, negated, k, Graft(a, InStop(a), z)).Reject?
  {
    ShortGrafts(a, z);
  }

  lemma ShiftStays(o: Operand, k: Stack, a: List<Token>, z: List<Token>)
    requires a.Cons? && ContinuesOperand(a.head) && Resolve(OperandRule(k), a.head) == Shift
    requires ShiftOperator(o, k, a).Reject? && Same(Drop(a, OperandStop(k, a)), z)
    ensures var b := Graft(a, OperandStop(k, a), z); b.Cons? && b.head == a.head && ShiftOperator(o, k, b).Reject?
  {
    ShortGrafts(a, z);
    var t, rest := a.head, a.tail;
    hide Graft, Drop, StepIn, Resolve, TokenPrec;
    if t == Kw(NOT) && rest.Cons? && rest.head == Kw(IN) && AtExpr(k) {
      ConsDrops(rest.head, rest.tail, InStop(rest.tail), z);
      ConsDrops(t, rest, 1 + InStop(rest.tail), z);
      InStays(o, true, k, rest.tail, z);
    }
  }

  lemma ReduceStays(o: Operand, k: Stack, a: List<Token>, z: List<Token>)
    requires a.Cons? && ContinuesOperand(a.head) ==> Resolve(OperandRule(k), a.head) == Reduce
    requires ReduceOperand(o, k, a).Reject? && Same(Drop(a, OperandStop(k, a)), z)
    ensures var b := Graft(a, OperandStop(k, a), z); Same(a, b) && ReduceOperand(o, k, b).Reject?
  {
    ShortGrafts(a, z);
    hide Graft, Drop, StepIn, Resolve, TokenPrec, ContinuesOperand;
    if a.Cons? && AtExpr(k) && a.head == Kw(IN) {
      ConsDrops(a.head, a.tail, InStop(a.tail), z);
      InStays(o, false, k, a.tail, z);
    }
  }

  lemma OperandStays(o: Operand, k: Stack, a: List<Token>, z: List<Token>)
    requires StepOperand(o, k, a).Reject? && Same(Drop(a, OperandStop(k, a)), z)
    ensures StepOperand(o, k, Graft(a, OperandStop(k, a), z)).Reject?
  {
    if a.Cons? && ContinuesOperand(a.head) && Resolve(OperandRule(k), a.head) == Error {
      assert OperandStop(k, a) == 0;
    } else {
      hide Graft, Drop, ShiftOperator, ReduceOperand, Resolve, TokenPrec, ContinuesOperand, OperandStop;
      if a.Cons? && ContinuesOperand(a.head) && Resolve(OperandRule(k), a.head) == Shift {
        ShiftStays(o, k, a, z);
      } else {
        ReduceStays(o, k, a, z);
      }
      assert StepOperand(o, k, Graft(a, OperandStop(k, a), z)).Reject?;
    }
  }

  lemma ItemStays(e: Expr, head: ListHead, items: Items, below: Stack, a: List<Token>, z: List<Token>)
    requires var k := Push(ListI(head, items), below);
             StepItem(e, head, items, below, a).Reject? && Same(Drop(a, ExprStop(k, a)), z)
    ensures var k := Push(ListI(head, items), below);
            var b := Graft(a, ExprStop(k, a), z);
            StepItem(e, head, items, below, b).Reject? && Same(a, b)
  {
    ShortGrafts(a, z);
    hide Graft, Drop;
  }

  lemma ExprStays(e: Expr, k: Stack, a: List<Token>, z: List<Token>)
    requires StepExpr(e, k, a).Reject? && Same(Drop(a, ExprStop(k, a)), z)
    ensures StepExpr(e, k, Graft(a, ExprStop(k, a), z)).Reject?
  {
    hide Resolve, TokenPrec, StepItem;
    if k.Push? && k.item.ListI? {
      ItemStays(e, k.item.listHead, k.item.items, k.below, a, z);
      hide Graft, Drop, ExprStop;
      assert StepExpr(e, k, Graft(a, ExprStop(k, a), z)).Reject?;
    }
  }

  /** A rejection depends on no token behind the one it stops at. */
  lemma StepStays(c: Config, a: List<Token>, z: List<Token>)
    requires Step(c, a).Reject? && Same(Drop(a, Stop(c, a)), z)
    ensures Step(c, Graft(a, Stop(c, a), z)).Reject?
  {
    hide StepWant, StepOperand, StepExpr, Graft, Drop, WantStop, OperandStop, ExprStop;
    match c
    case Want(k) => WantStays(k, a, z);
    case HaveOperand(o, k) => OperandStays(o, k, a, z);
    case HaveExpr(e, k) => ExprStays(e, k, a, z);
  }

  // ----- completing what is pending -----

  /** Rules that make an `expr` are pending only where an `expr` may stand. */
  predicate Well(k: Stack) {
    k.Push? ==>
      && Well(k.below)
      && (k.item.LowI? || k.item.HighI? || k.item.AndI? || k.item.OrI? || (k.item.ListI? && k.item.listHead.InHead?) ==>
          AtExpr(k.below))
  }

  predicate WellConfig(c: Config) {
    Well(c.stack) && (c.HaveExpr? ==> AtExpr(c.stack))
  }

  /** Tokens that complete every pending rule. */
  function Closing(k: Stack): List<Token> {
    match k
    case Bottom => Nil
    case Push(item, b) =>
      match item
      case LowI(_) => Cons(Kw(AND), Cons(LEAF, Closing(b)))
      case ParenI => Cons(Sym(')'), Closing(b))
      case ListI(_, _) => Cons(Sym(')'), Closing(b))
      case BaseI => Cons(Kw(WHEN), Cons(LEAF, Cons(Kw(THEN), Cons(LEAF, Cons(Kw(END), Closing(b))))))
      case WhenI(_, _) => Cons(Kw(THEN), Cons(LEAF, Cons(Kw(END), Closing(b))))
      case ThenI(_, _, _) => Cons(Kw(END), Closing(b))
      case ElseI(_, _) => Cons(Kw(END), Closing(b))
      case _ => Closing(b)
  }

  function Completion(c: Config): List<Token> {
    if c.Want? then Cons(LEAF, Closing(c.stack)) else Closing(c.stack)
  }

  lemma {:induction false} ClosingHead(k: Stack)
    requires Well(k)
    ensures var z := Closing(k);
            z.Nil? || z.head == Sym(')') || z.head == Kw(WHEN) || z.head == Kw(THEN) || z.head == Kw(END)
              || (z.head == Kw(AND) && !AtExpr(k))
  {
    if k.Push? {
      ClosingHead(k.below);
    }
  }

  lemma LeafSteps(k: Stack, z: List<Token>)
    ensures Step(Want(k), Cons(LEAF, z)) == Next(HaveOperand(Leaf(LEAF), k), z)
  {}

  lemma RunStep(c: Config, ts: List<Token>, c': Config, ts': List<Token>)
    requires Step(c, ts) == Next(c', ts')
    ensures Run(c, ts) == Run(c', ts')
  {}

  /** A leaf in front of a closing token becomes an expression. */
  lemma LeafBecomesExpr(k: Stack, t: Token, z: List<Token>)
    requires AtExpr(k) && (t == Kw(THEN) || t == Kw(END))
    ensures Run(Want(k), Cons(LEAF, Cons(t, z))) == Run(HaveExpr(Plain(Leaf(LEAF)), k), Cons(t, z))
  {
    LeafSteps(k, Cons(t, z));
    RunStep(Want(k), Cons(LEAF, Cons(t, z)), HaveOperand(Leaf(LEAF), k), Cons(t, z));
    RunStep(HaveOperand(Leaf(LEAF), k), Cons(t, z), HaveExpr(Plain(Leaf(LEAF)), k), Cons(t, z));
  }

  lemma {:induction false} OperandFinishes(o: Operand, k: Stack)
    requires Well(k)
    ensures Run(HaveOperand(o, k), Closing(k)).Some?
    decreases k, 2
  {
    var c, z := HaveOperand(o, k), Closing(k);
    ClosingHead(k);
    hide Run;
    if AtExpr(k) {
      RunStep(c, z, HaveExpr(Plain(o), k), z);
      ExprFinishes(Plain(o), k);
    } else {
      match k.item
      case InfixI(l, op) =>
        RunStep(c, z, HaveOperand(Infix(l, op, o), k.below), z);
        OperandFinishes(Infix(l, op, o), k.below);
      case NegI =>
        RunStep(c, z, HaveOperand(Neg(o), k.below), z);
        OperandFinishes(Neg(o), k.below);
      case NotI =>
        RunStep(c, z, HaveOperand(Not(o), k.below), z);
        OperandFinishes(Not(o), k.below);
      case HighI(subject, low) =>
        RunStep(c, z, HaveExpr(Between(subject, low, o), k.below), z);
        ExprFinishes(Between(subject, low, o), k.below);
      case LowI(subject) => LowFinishes(subject, o, k.below);
    }
  }

  lemma {:induction false} LowFinishes(subject: Operand, o: Operand, b: Stack)
    requires Well(b) && AtExpr(b)
    ensures var k := Push(LowI(subject), b); Run(HaveOperand(o, k), Closing(k)).Some?
    decreases Push(LowI(subject), b), 0
  {
    var k, high, z := Push(LowI(subject), b), Push(HighI(subject, o), b), Closing(b);
    var e := Between(subject, o, Leaf(LEAF));
    ClosingHead(b);
    hide Run;
    RunStep(HaveOperand(o, k), Closing(k), Want(high), Cons(LEAF, z));
    LeafSteps(high, z);
    RunStep(Want(high), Cons(LEAF, z), HaveOperand(Leaf(LEAF), high), z);
    RunStep(HaveOperand(Leaf(LEAF), high), z, HaveExpr(e, b), z);
    ExprFinishes(e, b);
  }

  lemma {:induction false} ExprFinishes(e: Expr, k: Stack)
    requires Well(k) && AtExpr(k)
    ensures Run(HaveExpr(e, k), Closing(k)).Some?
    decreases k, 1
  {
    var c, z := HaveExpr(e, k), Closing(k);
    ClosingHead(k);
    if k.Bottom? {
      assert Step(c, z) == Accept(e);
    } else {
      var b := k.below;
      hide Run;
      match k.item
      case AndI(l) =>
        RunStep(c, z, HaveExpr(And(l, e), b), z);
        ExprFinishes(And(l, e), b);
      case OrI(l) =>
        RunStep(c, z, HaveExpr(Or(l, e), b), z);
        ExprFinishes(Or(l, e), b);
      case ParenI =>
        RunStep(c, z, HaveOperand(Paren(e), b), Closing(b));
        OperandFinishes(Paren(e), b);
      case ListI(head, items) =>
        ListCloses(e, head, items, b, Closing(b));
        if head.CallHead? {
          OperandFinishes(Call(head.function_, head.distinct, Snoc(items, e, NoAlias)), b);
        } else {
          ExprFinishes(InList(head.subject, head.negated, Snoc(items, e, NoAlias)), b);
        }
      case BaseI => WhenFinishes(e, SomeExpr(e), NoArms, b, true);
      case WhenI(base, arms) => WhenFinishes(e, base, arms, b, false);
      case ThenI(base, arms, w) =>
        RunStep(c, z, HaveOperand(Case(base, Arm(arms, w, e), NoExpr), b), Closing(b));
        OperandFinishes(Case(base, Arm(arms, w, e), NoExpr), b);
      case ElseI(base, arms) =>
        RunStep(c, z, HaveOperand(Case(base, arms, SomeExpr(e)), b), Closing(b));
        OperandFinishes(Case(base, arms, SomeExpr(e)), b);
    }
  }

  lemma ListCloses(e: Expr, head: ListHead, items: Items, b: Stack, z: List<Token>)
    ensures Run(HaveExpr(e, Push(ListI(head, items), b)), Cons(Sym(')'), z))
         == Run(ListValue(head, Snoc(items, e, NoAlias), b), z)
  {
    var c := HaveExpr(e, Push(ListI(head, items), b));
    assert TakeAlias(Cons(Sym(')'), z)) == Some((NoAlias, Cons(Sym(')'), z)));
    ItemStep(e, head, items, b, Cons(Sym(')'), z), NoAlias, Cons(Sym(')'), z));
    RunStep(c, Cons(Sym(')'), z), ListValue(head, Snoc(items, e, NoAlias), b), z);
  }

  /** From the base of a CASE, or from the condition of an arm, to its END. */
  lemma {:induction false} WhenFinishes(e: Expr, base: OptExpr, arms: Arms, b: Stack, atBase: bool)
    requires Well(b) && (atBase ==> base == SomeExpr(e) && arms == NoArms)
    ensures var k := Push(if atBase then BaseI else WhenI(base, arms), b); Run(HaveExpr(e, k), Closing(k)).Some?
    decreases Push(if atBase then BaseI else WhenI(base, arms), b), 0
  {
    var leaf := Plain(Leaf(LEAF));
    var w := if atBase then leaf else e;
    var whenK, thenK := Push(WhenI(base, arms), b), Push(ThenI(base, arms, w), b);
    var end := Cons(Kw(END), Closing(b));
    var then_ := Cons(Kw(THEN), Cons(LEAF, end));
    hide Run;
    if atBase {
      RunStep(HaveExpr(e, Push(BaseI, b)), Cons(Kw(WHEN), Cons(LEAF, then_)), Want(whenK), Cons(LEAF, then_));
      LeafBecomesExpr(whenK, Kw(THEN), Cons(LEAF, end));
    }
    RunStep(HaveExpr(w, whenK), then_, Want(thenK), Cons(LEAF, end));
    LeafBecomesExpr(thenK, Kw(END), Closing(b));
    RunStep(HaveExpr(leaf, thenK), end, HaveOperand(Case(base, Arm(arms, w, leaf), NoExpr), b), Closing(b));
    OperandFinishes(Case(base, Arm(arms, w, leaf), NoExpr), b);
  }

  /** Every configuration can be completed. */
  lemma CompletionRuns(c: Config)
    requires WellConfig(c)
    ensures Run(c, Completion(c)).Some? && Fits(c, Completion(c))
  {
    ClosingHead(c.stack);
    match c
    case Want(k) =>
      LeafSteps(k, Closing(k));
      OperandFinishes(Leaf(LEAF), k);
      hide Run;
      RunStep(c, Completion(c), HaveOperand(Leaf(LEAF), k), Closing(k));
    case HaveOperand(o, k) => OperandFinishes(o, k);
    case HaveExpr(e, k) => ExprFinishes(e, k);
  }

  lemma WantIsWell(k: Stack, a: List<Token>)
    requires Well(k) && StepWant(k, a).Next?
    ensures WellConfig(StepWant(k, a).config)
  {
    hide TakeSelect, IsName, IsLeaf;
  }

  lemma InIsWell(o: Operand, negated: bool, k: Stack, a: List<Token>)
    requires Well(k) && AtExpr(k) && StepIn(o, negated, k, a).Next?
    ensures WellConfig(StepIn(o, negated, k, a).config)
  {
    hide TakeSelect;
  }

  lemma OperandIsWell(o: Operand, k: Stack, a: List<Token>)
    requires Well(k) && StepOperand(o, k, a).Next?
    ensures WellConfig(StepOperand(o, k, a).config)
  {
    hide Resolve, TokenPrec, StepIn, InfixOf, ContinuesOperand;
    if a.Cons? && AtExpr(k) {
      if a.head == Kw(IN) && StepIn(o, false, k, a.tail).Next? {
        InIsWell(o, false, k, a.tail);
      }
      if a.tail.Cons? && StepIn(o, true, k, a.tail.tail).Next? {
        InIsWell(o, true, k, a.tail.tail);
      }
    }
  }

  lemma ExprIsWell(e: Expr, k: Stack, a: List<Token>)
    requires Well(k) && AtExpr(k) && StepExpr(e, k, a).Next?
    ensures WellConfig(StepExpr(e, k, a).config)
  {
    hide Resolve, TokenPrec, TakeAlias;
  }

  lemma StepIsWell(c: Config, a: List<Token>)
    requires WellConfig(c) && Step(c, a).Next?
    ensures WellConfig(Step(c, a).config)
  {
    hide StepWant, StepOperand, StepExpr;
    match c
    case Want(k) => WantIsWell(k, a);
    case HaveOperand(o, k) => OperandIsWell(o, k, a);
    case HaveExpr(e, k) => ExprIsWell(e, k, a);
  }

  // ----- completing a step that stopped in the middle -----

  const NAME: Token := Ident("x")

  function SelectFiller(n: nat, z: List<Token>): List<Token> {
    if n == 0 then SelectTokens(0, z)
    else if n == 1 then Cons(SubQuery(0), Cons(Sym(')'), z))
    else Cons(Sym(')'), z)
  }

  /** Completes a rejecting step that has read `n` tokens, and everything pending below it. */
  function Filler(c: Config, a: List<Token>, n: nat): List<Token> {
    var z := Closing(c.stack);
    if a.Nil? || n == 0 then Completion(c) else
    match c
    case Want(_) =>
      if a.head == Kw(NOT) then (if n >= 2 then SelectFiller(n - 2, z) else z)
      else if a.head == Kw(EXISTS) then SelectFiller(n - 1, z)
      else if a.head == Sym('(') then Cons(Sym(')'), z)
      else Cons(NAME, z)
    case HaveOperand(_, _) =>
      if a.head == Kw(IS) then Cons(Kw(NULL), z)
      else if a.head == Kw(NOT) && n == 1 then Cons(Kw(LIKE), Cons(LEAF, z))
      else if n == (if a.head == Kw(NOT) then 2 else 1) then Cons(Sym('('), Cons(Sym(')'), z))
      else Cons(Sym(')'), z)
    case HaveExpr(_, _) => if a.head == Kw(AS) && n == 1 then Cons(NAME, z) else z
  }

  lemma SelectFills(a: List<Token>, z: List<Token>)
    requires TakeSelect(a).None?
    ensures var n := SelectStop(a); TakeSelect(Graft(a, n, SelectFiller(n, z))).Some?
    ensures var n := SelectStop(a); TakeSelect(Graft(a, n, SelectFiller(n, z))).value.1 == z
  {
    ShortGrafts(a, SelectFiller(SelectStop(a), z));
  }

  /** With the filler, the step that was rejected goes on, and leaves the tokens that complete the
      rest. */
  ghost predicate GoesOn(out: Outcome) {
    out.Next? && WellConfig(out.config) && out.rest == Completion(out.config)
  }

  lemma ExistsFills(negated: bool, k: Stack, a: List<Token>)
    requires Well(k) && AtExpr(k) && TakeSelect(a).None?
    ensures var n := SelectStop(a); GoesOn(StepExists(negated, k, Graft(a, n, SelectFiller(n, Closing(k)))))
  {
    SelectFills(a, Closing(k));
  }

  lemma SelectGroupFills(k: Stack, u: Token)
    requires Well(k) && u.SubQuery?
    ensures GoesOn(StepWant(k, Cons(Sym('('), Cons(u, Cons(Sym(')'), Closing(k))))))
  {
    var ts := Cons(Sym('('), Cons(u, Cons(Sym(')'), Closing(k))));
    assert TakeSelect(ts) == Some((u.id, Closing(k)));
    hide TakeSelect, Closing;
    assert StepWant(k, ts) == Next(HaveOperand(SubSelect(u.id), k), ts.tail.tail.tail);
  }

  /** A named parameter, or a dotted column. */
  lemma NameGroupFills(k: Stack, t: Token)
    requires Well(k)
    ensures GoesOn(StepWant(k, Cons(Sym(':'), Cons(NAME, Closing(k)))))
    ensures t.Ident? ==> GoesOn(StepWant(k, Cons(t, Cons(Sym('.'), Cons(NAME, Closing(k))))))
  {
    hide Closing, TakeSelect, StepExists;
  }

  lemma WantFills(k: Stack, a: List<Token>)
    requires Well(k) && StepWant(k, a).Reject? && WantStop(k, a) > 0
    ensures var n := WantStop(k, a); GoesOn(StepWant(k, Graft(a, n, Filler(Want(k), a, n))))
  {
    var n, z := WantStop(k, a), Closing(k);
    var f := Filler(Want(k), a, n);
    var t, rest := a.head, a.tail;
    ShortGrafts(a, f);
    if t == Kw(NOT) {
      assert AtExpr(k) && rest.head == Kw(EXISTS) && TakeSelect(rest.tail).None?;
      ConsDrops(rest.head, rest.tail, SelectStop(rest.tail), f);
      ConsDrops(t, rest, 1 + SelectStop(rest.tail), f);
      ExistsFills(true, k, rest.tail);
      hide GoesOn, StepExists, SelectFiller, Graft, Drop;
      assert Graft(a, n, f) == Cons(t, Cons(rest.head, Graft(rest.tail, SelectStop(rest.tail), f)));
    } else if t == Kw(EXISTS) {
      ConsDrops(t, rest, SelectStop(rest), f);
      ExistsFills(false, k, rest);
      hide GoesOn, StepExists, SelectFiller, Graft, Drop;
    } else {
      if t == Sym('(') {
        SelectGroupFills(k, rest.head);
      }
      NameGroupFills(k, t);
      hide GoesOn, Graft, Drop;
      assert t == Sym('(') ==> rest.head.SubQuery?;
      assert IsName(t) ==> t.Ident? && rest.head == Sym('.');
      assert Graft(a, n, f) == if n == 1 then Cons(t, f) else Cons(t, Cons(rest.head, f));
    }
  }

  lemma InFills(o: Operand, negated: bool, k: Stack, a: List<Token>)
    requires Well(k) && AtExpr(k) && StepIn(o, negated, k, a).Reject?
    ensures var z := Closing(k);
            var f := if InStop(a) == 0 then Cons(Sym('('), Cons(Sym(')'), z)) else Cons(Sym(')'), z);
            GoesOn(StepIn(o, negated, k, Graft(a, InStop(a), f)))
  {
    var z := Closing(k);
    ShortGrafts(a, Cons(Sym(')'), z));
    if InStop(a) == 2 {
      var ts := Cons(a.head, Cons(a.tail.head, Cons(Sym(')'), z)));
      assert TakeSelect(ts) == Some((a.tail.head.id, z));
    }
  }

  lemma ShiftFills(o: Operand, k: Stack, a: List<Token>)
    requires Well(k) && a.Cons? && ContinuesOperand(a.head) && Resolve(OperandRule(k), a.head) == Shift
    requires ShiftOperator(o, k, a).Reject?
    ensures var n := OperandStop(k, a);
            var b := Graft(a, n, Filler(HaveOperand(o, k), a, n));
            b.Cons? && b.head == a.head && GoesOn(ShiftOperator(o, k, b))
  {
    var n := OperandStop(k, a);
    var f := Filler(HaveOperand(o, k), a, n);
    var t, rest := a.head, a.tail;
    ShortGrafts(a, f);
    hide Resolve, TokenPrec;
    if t == Kw(NOT) && rest.Cons? && rest.head == Kw(IN) && AtExpr(k) {
      ConsDrops(rest.head, rest.tail, InStop(rest.tail), f);
      ConsDrops(t, rest, 1 + InStop(rest.tail), f);
      InFills(o, true, k, rest.tail);
      hide GoesOn, Graft, Drop, StepIn, Closing;
    } else {
      hide Graft, Drop;
    }
  }

  lemma ReduceFills(o: Operand, k: Stack, a: List<Token>)
    requires Well(k) && (a.Cons? && ContinuesOperand(a.head) ==> Resolve(OperandRule(k), a.head) == Reduce)
    requires ReduceOperand(o, k, a).Reject? && OperandStop(k, a) > 0
    ensures var n := OperandStop(k, a);
            var b := Graft(a, n, Filler(HaveOperand(o, k), a, n));
            b.Cons? && b.head == a.head && GoesOn(ReduceOperand(o, k, b))
  {
    var n := OperandStop(k, a);
    ConsDrops(a.head, a.tail, InStop(a.tail), Filler(HaveOperand(o, k), a, n));
    InFills(o, false, k, a.tail);
    hide GoesOn, Graft, Drop, StepIn, Closing, Resolve, TokenPrec;
  }

  lemma OperandFills(o: Operand, k: Stack, a: List<Token>)
    requires Well(k) && StepOperand(o, k, a).Reject? && OperandStop(k, a) > 0
    ensures var n := OperandStop(k, a); GoesOn(StepOperand(o, k, Graft(a, n, Filler(HaveOperand(o, k), a, n))))
  {
    assert ContinuesOperand(a.head) ==> Resolve(OperandRule(k), a.head) != Error;
    hide Graft, Filler, ShiftOperator, ReduceOperand, Resolve, TokenPrec, ContinuesOperand, OperandStop, GoesOn;
    if ContinuesOperand(a.head) && Resolve(OperandRule(k), a.head) == Shift {
      ShiftFills(o, k, a);
    } else {
      ReduceFills(o, k, a);
    }
  }

  lemma ExprFills(e: Expr, k: Stack, a: List<Token>)
    requires Well(k) && AtExpr(k) && StepExpr(e, k, a).Reject? && ExprStop(k, a) > 0
    ensures var n := ExprStop(k, a); GoesOn(StepExpr(e, k, Graft(a, n, Filler(HaveExpr(e, k), a, n))))
  {
    var n := ExprStop(k, a);
    var f := Filler(HaveExpr(e, k), a, n);
    var b, close := Graft(a, n, f), Cons(Sym(')'), Closing(k.below));
    ShortGrafts(a, f);
    hide Graft, Drop, Resolve, TokenPrec;
    assert Closing(k) == close;
    assert TakeAlias(b).Some? && TakeAlias(b).value.1 == close;
    ItemStep(e, k.item.listHead, k.item.items, k.below, b, TakeAlias(b).value.0, close);
  }

  lemma StepFills(c: Config, a: List<Token>)
    requires WellConfig(c) && Step(c, a).Reject? && Stop(c, a) > 0
    ensures GoesOn(Step(c, Graft(a, Stop(c, a), Filler(c, a, Stop(c, a)))))
  {
    hide StepWant, StepOperand, StepExpr, Graft, Filler, WantStop, OperandStop, ExprStop, GoesOn;
    match c
    case Want(k) => WantFills(k, a);
    case HaveOperand(o, k) => OperandFills(o, k, a);
    case HaveExpr(e, k) => ExprFills(e, k, a);
  }

  // ----- the longest viable prefix -----

  /** The number of tokens that the run reads before it stops. */
  function StopsAt(c: Config, a: List<Token>): nat
    decreases a.Size(), c.Height()
  {
    match Step(c, a)
    case Next(c', rest) => Taken(c, a) + StopsAt(c', rest)
    case Accept(_) => a.Size()
    case Reject => Stop(c, a)
  }

  lemma {:induction false} StopsInside(c: Config, a: List<Token>)
    ensures StopsAt(c, a) <= a.Size()
    decreases a.Size(), c.Height()
  {
    hide Step, Stop;
    if Step(c, a).Next? {
      StopsInside(Step(c, a).config, Step(c, a).rest);
    }
  }

  /** No continuation with the same next token is accepted. */
  lemma {:induction false} NothingGoesOn(c: Config, a: List<Token>, z: List<Token>)
    requires Run(c, a).None? && StopsAt(c, a) <= a.Size() && Same(Drop(a, StopsAt(c, a)), z)
    ensures Run(c, Graft(a, StopsAt(c, a), z)).None?
    decreases a.Size(), c.Height()
  {
    hide Step, Stop;
    if Step(c, a).Next? {
      var c', rest, m := Step(c, a).config, Step(c, a).rest, Taken(c, a);
      var n := StopsAt(c', rest);
      StepMoves(c, a, Nil);
      StopsInside(c', rest);
      GraftMore(a, m, n, z);
      var b := Graft(rest, n, z);
      StepMoves(c, a, b);
      NothingGoesOn(c', rest, z);
      assert Same(rest, b);
      RunStep(c, Graft(a, m, b), c', b);
    } else {
      StepStays(c, a, z);
    }
  }

  /** Some continuation is accepted. */
  lemma {:induction false} SomethingGoesOn(c: Config, a: List<Token>) returns (z: List<Token>)
    requires WellConfig(c) && Run(c, a).None?
    ensures StopsAt(c, a) <= a.Size() && Run(c, Graft(a, StopsAt(c, a), z)).Some?
    ensures StopsAt(c, a) == 0 ==> z == Completion(c)
    decreases a.Size(), c.Height()
  {
    hide Step, Stop, Completion, Filler, WellConfig;
    StopsInside(c, a);
    if StopsAt(c, a) == 0 {
      z := Completion(c);
      CompletionRuns(c);
    } else if Step(c, a).Next? {
      var c', rest, m := Step(c, a).config, Step(c, a).rest, Taken(c, a);
      var n := StopsAt(c', rest);
      StepIsWell(c, a);
      z := SomethingGoesOn(c', rest);
      StepMoves(c, a, Nil);
      GraftMore(a, m, n, z);
      var b := Graft(rest, n, z);
      if n == 0 {
        CompletionRuns(c');
      } else {
        assert Same(rest, b);
      }
      StepMoves(c, a, b);
      RunStep(c, Graft(a, m, b), c', b);
    } else {
      z := Filler(c, a, Stop(c, a));
      StepFills(c, a);
      var out := Step(c, Graft(a, Stop(c, a), z));
      CompletionRuns(out.config);
      RunStep(c, Graft(a, Stop(c, a), z), out.config, out.rest);
    }
  }

  /** The place of a syntax error. */
  function ErrorAt(ts: List<Token>): nat {
    StopsAt(Want(Bottom), ts)
  }

  /** A rejected list goes wrong at exactly one place: its tokens up to there begin an accepted list, and
      no accepted list has one token more in common with it. */
  lemma ErrorIsFirst(ts: List<Token>)
    requires Parse(ts).None?
    ensures ErrorAt(ts) <= ts.Size()
    ensures exists z :: Parse(Graft(ts, ErrorAt(ts), z)).Some?
    ensures forall us | Agree(ts, us, ErrorAt(ts) + 1) :: Parse(us).None?
  {
    hide Run, StopsAt;
    StopsInside(Want(Bottom), ts);
    var z := SomethingGoesOn(Want(Bottom), ts);
    assert Parse(Graft(ts, ErrorAt(ts), z)).Some?;
    forall us | Agree(ts, us, ErrorAt(ts) + 1) ensures Parse(us).None? {
      var rest := AgreeIsGraft(ts, us, ErrorAt(ts));
      NothingGoesOn(Want(Bottom), ts, rest);
    }
  }
}
