/**
 The semantic actions that each step of the machine runs, and what they leave on the value stack.
 */
module Schedule {
  import opened Tokens
  import opened Precedence
  import opened Syntax
  import opened Machine
  import opened Soundness
  import opened Ast
  import opened Actions

  // ----- the actions of a step -----

  function Only(a: Action): List<Action> {
    Cons(a, Nil)
  }

  function AndNegate(negated: bool, a: Action): List<Action> {
    Cons(a, if negated then Only(Unary(LogicalNot)) else Nil)
  }

  function NameActions(t: Token, rest: List<Token>): List<Action>
    requires IsName(t)
  {
    if rest.Cons? && rest.head == Sym('(') then
      Cons(Name(NameText(t)), if rest.tail.Cons? && rest.tail.head == Sym(')') then Only(EmptyCall) else Nil)
    else if t.Ident? && rest.Cons? && rest.head == Sym('.') && rest.tail.Cons? && IsName(rest.tail.head) then
      Only(Atom(TableColumn(t.name, NameText(rest.tail.head))))
    else if t.Ident? && rest.Cons? && rest.head == Sym('.') then Only(Atom(TableStar(t.name)))
    else Only(Atom(BuildLeaf(t)))
  }

  function WantActions(k: Stack, ts: List<Token>): List<Action>
    requires StepWant(k, ts).Next?
  {
    var t, rest := ts.head, ts.tail;
    if t == Sym('-') then Nil
    else if t == Kw(NOT) then
      if AtExpr(k) && rest.Cons? && rest.head == Kw(EXISTS) then
        AndNegate(true, Atom(OpExists(TakeSelect(rest.tail).value.0)))
      else Nil
    else if t == Kw(EXISTS) then Only(Atom(OpExists(TakeSelect(rest).value.0)))
    else if t == Sym('(') then
      if rest.Cons? && rest.head.SubQuery? then Only(Atom(Select(rest.head.id))) else Nil
    else if t == Kw(CASE) then Nil
    else if t == Sym(':') then Only(Atom(Named(rest.head.name)))
    else if IsName(t) then NameActions(t, rest)
    else Only(Atom(BuildLeaf(t)))
  }

  function InActions(negated: bool, ts: List<Token>): List<Action> {
    if ts.Cons? && ts.tail.Cons? && ts.tail.head == Sym(')') then AndNegate(negated, EmptyIn)
    else if ts.Cons? && ts.tail.Cons? && ts.tail.head.SubQuery? then AndNegate(negated, SelectIn(ts.tail.head.id))
    else Nil
  }

  function ShiftActions(ts: List<Token>): List<Action>
    requires ts.Cons?
  {
    var t, rest := ts.head, ts.tail;
    if InfixOf(t).Some? then Nil
    else if t == Kw(ISNULL) then Only(Unary(IsNull))
    else if t == Kw(IS) then AndNegate(rest.Cons? && rest.head == Kw(NOT), Unary(IsNull))
    else if rest.Cons? && rest.head == Kw(IN) then InActions(true, rest.tail)
    else Nil
  }

  function ReduceActions(k: Stack, ts: List<Token>): List<Action> {
    if AtExpr(k) then
      if ts.Cons? && ts.head == Kw(IN) then InActions(false, ts.tail) else Nil
    else
      match k.item
      case InfixI(_, op) => Only(Binary(op))
      case NegI => Only(Unary(UnaryMinus))
      case NotI => Only(Unary(LogicalNot))
      case HighI(_, _) => Only(BetweenAction)
      case _ => Nil
  }

  function ItemAction(items: Items, alias: Alias): Action
    requires LegalAlias(alias)
  {
    if items.NoItems? then FirstItem(AliasText(alias)) else NextItem(AliasText(alias))
  }

  function ItemActions(head: ListHead, items: Items, ts: List<Token>): List<Action>
    requires TakeAlias(ts).Some?
  {
    var (alias, rest) := TakeAlias(ts).value;
    Cons(ItemAction(items, alias),
         if rest.Cons? && rest.head == Sym(')') then
           (match head
            case CallHead(_, distinct) => Only(CallAction(distinct))
            case InHead(_, negated) => AndNegate(negated, ListIn))
         else Nil)
  }

  function ExprActions(k: Stack, ts: List<Token>): List<Action> {
    if k.Bottom? then Nil else
    match k.item
    case AndI(_) => Only(Conjunction)
    case OrI(_) => Only(Disjunction)
    case ListI(head, items) => if TakeAlias(ts).Some? then ItemActions(head, items, ts) else Nil
    case ThenI(base, arms, _) =>
      Cons(ArmAction(arms),
           if ts.Cons? && ts.head == Kw(END) then Only(CaseAction(base.SomeExpr?, false)) else Nil)
    case ElseI(base, _) => Only(CaseAction(base.SomeExpr?, true))
    case _ => Nil
  }

  /** The semantic actions run by one step. */
  function StepActions(c: Config, ts: List<Token>): List<Action>
    requires Step(c, ts).Next?
  {
    match c
    case Want(k) => WantActions(k, ts)
    case HaveOperand(_, k) =>
      if ts.Cons? && ContinuesOperand(ts.head) && Resolve(OperandRule(k), ts.head) == Shift then ShiftActions(ts)
      else ReduceActions(k, ts)
    case HaveExpr(_, k) =>
      if ts.Cons? && (ts.head == Kw(AND) || ts.head == Kw(OR)) && Resolve(ExprRule(k), ts.head) == Shift then Nil
      else ExprActions(k, ts)
  }

  // ----- what the value stack holds in a configuration -----

  ghost function HeadMeaning(h: ListHead, below: Stack, rest: List<Meaning>): List<Meaning>
    requires LegalHead(h, below)
  {
    match h
    case CallHead(f, _) => Cons(StringM(NameText(f)), rest)
    case InHead(o, _) => Cons(ExprM(Build(o)), rest)
  }

  ghost function CaseMeaning(base: OptExpr, arms: Arms, rest: List<Meaning>): List<Meaning>
    requires LegalOpt(base) && LegalArms(arms)
  {
    var s := if base.SomeExpr? then Cons(ExprM(BuildExpr(base.expr)), rest) else rest;
    if arms.Arm? then Cons(ArmsM(BuildArms(arms)), s) else s
  }

  ghost function ItemMeaning(item: Item, below: Stack, rest: List<Meaning>): List<Meaning>
    requires LegalItem(item, below)
  {
    match item
    case InfixI(l, _) => Cons(ExprM(Build(l)), rest)
    case LowI(o) => Cons(ExprM(Build(o)), rest)
    case HighI(o, lo) => Cons(ExprM(Build(lo)), Cons(ExprM(Build(o)), rest))
    case AndI(l) => Cons(ExprM(BuildExpr(l)), rest)
    case OrI(l) => Cons(ExprM(BuildExpr(l)), rest)
    case ListI(h, items) =>
      var s := HeadMeaning(h, below, rest);
      if items.Snoc? then Cons(ListM(BuildItems(items)), s) else s
    case WhenI(base, arms) => CaseMeaning(base, arms, rest)
    case ThenI(base, arms, w) => Cons(ExprM(BuildExpr(w)), CaseMeaning(base, arms, rest))
    case ElseI(base, arms) => CaseMeaning(base, arms, rest)
    case _ => rest
  }

  ghost function StackMeaning(k: Stack): List<Meaning>
    requires LegalStack(k)
  {
    match k
    case Bottom => Nil
    case Push(item, b) => ItemMeaning(item, b, StackMeaning(b))
  }

  ghost function ConfigMeaning(c: Config, ts: List<Token>): List<Meaning>
    requires Inv(c, ts)
  {
    match c
    case Want(k) => StackMeaning(k)
    case HaveOperand(o, k) => Cons(ExprM(Build(o)), StackMeaning(k))
    case HaveExpr(e, k) => Cons(ExprM(BuildExpr(e)), StackMeaning(k))
  }

  // ----- the actions build the tree -----

  ghost predicate Builds(actions: List<Action>, from: List<Meaning>, to: List<Meaning>) {
    AllApply(actions, from) && PerformAll(actions, from) == to
  }

  /** The actions turn the values of the configuration into those of the outcome. */
  ghost predicate OutcomeBuilt(actions: List<Action>, from: List<Meaning>, out: Outcome)
    requires out.Next? && Inv(out.config, out.rest)
  {
    Builds(actions, from, ConfigMeaning(out.config, out.rest))
  }

  ghost predicate Goes(out: Outcome) {
    out.Next? && Inv(out.config, out.rest)
  }

  lemma OneAction(a: Action, s: List<Meaning>)
    requires Applies(a, s)
    ensures Builds(Only(a), s, Perform(a, s))
  {
    assert AllApply(Nil, Perform(a, s));
  }

  lemma TwoActions(a: Action, b: Action, s: List<Meaning>)
    requires Applies(a, s) && Applies(b, Perform(a, s))
    ensures Builds(Cons(a, Only(b)), s, Perform(b, Perform(a, s)))
  {
    OneAction(b, Perform(a, s));
  }

  lemma ThenActions(a: Action, actions: List<Action>, s: List<Meaning>, to: List<Meaning>)
    requires Applies(a, s) && Builds(actions, Perform(a, s), to)
    ensures Builds(Cons(a, actions), s, to)
  {}

  /** `a`, and the negation where the rule has a NOT. */
  lemma NegatedBuilds(negated: bool, a: Action, s: List<Meaning>)
    requires Applies(a, s) && Perform(a, s).Cons? && Perform(a, s).head.ExprM?
    ensures Builds(AndNegate(negated, a), s, Cons(ExprM(Negate(negated, Perform(a, s).head.node)), Perform(a, s).tail))
  {
    if negated {
      TwoActions(a, Unary(LogicalNot), s);
    } else {
      OneAction(a, s);
    }
  }

  lemma NameBuilds(t: Token, k: Stack, rest: List<Token>)
    requires LegalStack(k) && IsName(t) && Goes(StepName(t, k, rest))
    ensures OutcomeBuilt(NameActions(t, rest), StackMeaning(k), StepName(t, k, rest))
  {
    hide Closes, Opens, Resolve, TokenPrec, LegalExpr, BuildExpr, LegalStack, LegalItems;
    var s := StackMeaning(k);
    if rest.Cons? && rest.head == Sym('(') {
      if rest.tail.Cons? && rest.tail.head == Sym(')') {
        TwoActions(Name(NameText(t)), EmptyCall, s);
        assert BuildItems(NoItems) == NoNodes;
      } else {
        OneAction(Name(NameText(t)), s);
      }
    } else {
      OneAction(NameActions(t, rest).head, s);
    }
  }

  lemma BracketBuilds(k: Stack, ts: List<Token>)
    requires LegalStack(k) && Goes(StepWant(k, ts)) && (ts.head == Sym('(') || ts.head == Kw(CASE))
    ensures OutcomeBuilt(WantActions(k, ts), StackMeaning(k), StepWant(k, ts))
  {
    if ts.head == Kw(CASE) {
      assert CaseMeaning(NoExpr, NoArms, StackMeaning(k)) == StackMeaning(k);
    } else if ts.tail.Cons? && ts.tail.head.SubQuery? {
      OneAction(Atom(Select(ts.tail.head.id)), StackMeaning(k));
    }
  }

  lemma WantBuilds(k: Stack, ts: List<Token>)
    requires LegalStack(k) && Goes(StepWant(k, ts))
    ensures OutcomeBuilt(WantActions(k, ts), StackMeaning(k), StepWant(k, ts))
  {
    var t, rest := ts.head, ts.tail;
    var s := StackMeaning(k);
    if t == Sym('-') {
    } else if t == Kw(NOT) {
      if AtExpr(k) && rest.Cons? && rest.head == Kw(EXISTS) {
        NegatedBuilds(true, Atom(OpExists(TakeSelect(rest.tail).value.0)), s);
      }
    } else if t == Kw(EXISTS) {
      NegatedBuilds(false, Atom(OpExists(TakeSelect(rest).value.0)), s);
    } else if t == Sym('(') || t == Kw(CASE) {
      BracketBuilds(k, ts);
    } else if t == Sym(':') {
      OneAction(Atom(Named(rest.head.name)), s);
    } else if IsName(t) {
      NameBuilds(t, k, rest);
    } else {
      OneAction(Atom(BuildLeaf(t)), s);
    }
  }

  lemma InBuilds(o: Operand, negated: bool, k: Stack, ts: List<Token>)
    requires LegalStack(k) && LegalHead(InHead(o, negated), k) && Goes(StepIn(o, negated, k, ts))
    ensures OutcomeBuilt(InActions(negated, ts), Cons(ExprM(Build(o)), StackMeaning(k)), StepIn(o, negated, k, ts))
  {
    var s := Cons(ExprM(Build(o)), StackMeaning(k));
    if ts.tail.Cons? && ts.tail.head == Sym(')') {
      NegatedBuilds(negated, EmptyIn, s);
      assert BuildItems(NoItems) == NoNodes;
    } else if ts.tail.Cons? && ts.tail.head.SubQuery? {
      NegatedBuilds(negated, SelectIn(ts.tail.head.id), s);
    }
  }

  lemma ShiftBuilds(o: Operand, k: Stack, ts: List<Token>)
    requires Inv(HaveOperand(o, k), ts) && ts.Cons? && ContinuesOperand(ts.head)
    requires Resolve(OperandRule(k), ts.head) == Shift && Goes(ShiftOperator(o, k, ts))
    ensures OutcomeBuilt(ShiftActions(ts), Cons(ExprM(Build(o)), StackMeaning(k)), ShiftOperator(o, k, ts))
  {
    var t, rest := ts.head, ts.tail;
    var s := Cons(ExprM(Build(o)), StackMeaning(k));
    if InfixOf(t).Some? {
    } else if t == Kw(ISNULL) {
      OneAction(Unary(IsNull), s);
    } else if t == Kw(IS) {
      NegatedBuilds(rest.head == Kw(NOT), Unary(IsNull), s);
    } else if rest.Cons? && rest.head == Kw(IN) {
      InBuilds(o, true, k, rest.tail);
    }
  }

  lemma ReducePendingBuilds(o: Operand, k: Stack, ts: List<Token>)
    requires LegalOperand(o) && LegalStack(k) && !AtExpr(k) && Goes(ReduceOperand(o, k, ts))
    ensures OutcomeBuilt(ReduceActions(k, ts), Cons(ExprM(Build(o)), StackMeaning(k)), ReduceOperand(o, k, ts))
  {
    var s := Cons(ExprM(Build(o)), StackMeaning(k));
    match k.item
    case InfixI(_, op) => OneAction(Binary(op), s);
    case NegI => OneAction(Unary(UnaryMinus), s);
    case NotI => OneAction(Unary(LogicalNot), s);
    case HighI(_, _) => OneAction(BetweenAction, s);
    case LowI(_) =>
  }

  lemma ReduceBuilds(o: Operand, k: Stack, ts: List<Token>)
    requires Inv(HaveOperand(o, k), ts) && Goes(ReduceOperand(o, k, ts))
    ensures OutcomeBuilt(ReduceActions(k, ts), Cons(ExprM(Build(o)), StackMeaning(k)), ReduceOperand(o, k, ts))
  {
    if !AtExpr(k) {
      ReducePendingBuilds(o, k, ts);
    } else if ts.Cons? && ts.head == Kw(IN) {
      InBuilds(o, false, k, ts.tail);
    }
  }

  /** The element of an expression list, once its value is on top of the stack. */
  lemma ItemActionBuilds(e: Expr, items: Items, alias: Alias, s: List<Meaning>)
    requires LegalExpr(e) && LegalItems(items) && LegalAlias(alias)
    ensures var from := Cons(ExprM(BuildExpr(e)), if items.Snoc? then Cons(ListM(BuildItems(items)), s) else s);
            && Applies(ItemAction(items, alias), from)
            && Perform(ItemAction(items, alias), from) == Cons(ListM(BuildItems(Snoc(items, e, alias))), s)
  {
    assert BuildItems(NoItems) == NoNodes;
  }

  lemma ItemBuilds(e: Expr, head: ListHead, items: Items, below: Stack, ts: List<Token>)
    requires LegalExpr(e) && LegalStack(Push(ListI(head, items), below)) && Goes(StepItem(e, head, items, below, ts))
    ensures OutcomeBuilt(ItemActions(head, items, ts),
              Cons(ExprM(BuildExpr(e)), StackMeaning(Push(ListI(head, items), below))),
                         StepItem(e, head, items, below, ts))
  {
    hide LegalOperand, Closes, Opens, Resolve, TokenPrec, Step;
    var (alias, rest) := TakeAlias(ts).value;
    var s := Cons(ExprM(BuildExpr(e)), StackMeaning(Push(ListI(head, items), below)));
    var a := ItemAction(items, alias);
    ItemActionBuilds(e, items, alias, HeadMeaning(head, below, StackMeaning(below)));
    if rest.head == Sym(')') {
      match head
      case CallHead(f, distinct) =>
        OneAction(CallAction(distinct), Perform(a, s));
      case InHead(o, negated) =>
        NegatedBuilds(negated, ListIn, Perform(a, s));
      ThenActions(a, ItemActions(head, items, ts).tail, s,
          ConfigMeaning(StepItem(e, head, items, below, ts).config, rest.tail));
    } else {
      OneAction(a, s);
    }
  }

  function ArmAction(arms: Arms): Action {
    if arms.NoArms? then FirstArm else NextArm
  }

  lemma ArmActionBuilds(base: OptExpr, arms: Arms, when: Expr, e: Expr, s: List<Meaning>)
    requires LegalOpt(base) && LegalArms(arms) && LegalExpr(when) && LegalExpr(e)
    ensures var from := Cons(ExprM(BuildExpr(e)), Cons(ExprM(BuildExpr(when)), CaseMeaning(base, arms, s)));
            && Applies(ArmAction(arms), from)
            && Perform(ArmAction(arms), from) == CaseMeaning(base, Arm(arms, when, e), s)
  {
    assert BuildArms(NoArms) == NoNodeArms;
  }

  lemma CaseActionBuilds(base: OptExpr, arms: Arms, otherwise: OptExpr, s: List<Meaning>)
    requires LegalOpt(base) && arms.Arm? && LegalArms(arms) && LegalOpt(otherwise)
    ensures var from := CaseMeaning(base, arms, s);
            var from' := if otherwise.SomeExpr? then Cons(ExprM(BuildExpr(otherwise.expr)), from) else from;
            Builds(Only(CaseAction(base.SomeExpr?, otherwise.SomeExpr?)), from',
                Cons(ExprM(Build(Case(base, arms, otherwise))), s))
  {
    var from := CaseMeaning(base, arms, s);
    OneAction(CaseAction(base.SomeExpr?, otherwise.SomeExpr?),
              if otherwise.SomeExpr? then Cons(ExprM(BuildExpr(otherwise.expr)), from) else from);
  }

  lemma ArmBuilds(base: OptExpr, arms: Arms, when: Expr, e: Expr, below: Stack, ts: List<Token>)
    requires LegalExpr(e) && LegalStack(Push(ThenI(base, arms, when), below))
    requires Goes(CloseExpr(e, Push(ThenI(base, arms, when), below), ts))
    ensures var k := Push(ThenI(base, arms, when), below);
            OutcomeBuilt(ExprActions(k, ts), Cons(ExprM(BuildExpr(e)), StackMeaning(k)), CloseExpr(e, k, ts))
  {
    var s := Cons(ExprM(BuildExpr(e)), StackMeaning(Push(ThenI(base, arms, when), below)));
    var s' := CaseMeaning(base, Arm(arms, when, e), StackMeaning(below));
    ArmActionBuilds(base, arms, when, e, StackMeaning(below));
    if ts.head == Kw(END) {
      CaseActionBuilds(base, Arm(arms, when, e), NoExpr, StackMeaning(below));
      ThenActions(ArmAction(arms), Only(CaseAction(base.SomeExpr?, false)), s,
                  Cons(ExprM(Build(Case(base, Arm(arms, when, e), NoExpr))), StackMeaning(below)));
    } else {
      OneAction(ArmAction(arms), s);
    }
  }

  lemma CloseBuilds(e: Expr, k: Stack, ts: List<Token>)
    requires LegalExpr(e) && AtExpr(k) && LegalStack(k) && Goes(CloseExpr(e, k, ts))
    ensures OutcomeBuilt(ExprActions(k, ts), Cons(ExprM(BuildExpr(e)), StackMeaning(k)), CloseExpr(e, k, ts))
  {
    hide LegalOperand, Closes, Opens, Resolve, TokenPrec, LegalItems, BuildItems, BuildArms;
    var s := Cons(ExprM(BuildExpr(e)), StackMeaning(k));
    match k.item
    case AndI(_) => OneAction(Conjunction, s);
    case OrI(_) => OneAction(Disjunction, s);
    case ParenI =>
    case ListI(head, items) => ItemBuilds(e, head, items, k.below, ts);
    case BaseI =>
    case WhenI(base, arms) =>
    case ThenI(base, arms, when) => ArmBuilds(base, arms, when, e, k.below, ts);
    case ElseI(base, arms) => CaseActionBuilds(base, arms, SomeExpr(e), StackMeaning(k.below));
  }

  /** The actions of one step turn the values of the configuration into those of the next one. */
  lemma ActionsBuild(c: Config, ts: List<Token>)
    requires Inv(c, ts) && Step(c, ts).Next?
    ensures Goes(Step(c, ts)) && OutcomeBuilt(StepActions(c, ts), ConfigMeaning(c, ts), Step(c, ts))
  {
    StepKeeps(c, ts);
    match c
    case Want(k) => WantBuilds(k, ts);
    case HaveOperand(o, k) =>
      if ts.Cons? && ContinuesOperand(ts.head) && Resolve(OperandRule(k), ts.head) == Shift {
        ShiftBuilds(o, k, ts);
      } else {
        ReduceBuilds(o, k, ts);
      }
    case HaveExpr(e, k) =>
      if !(ts.Cons? && (ts.head == Kw(AND) || ts.head == Kw(OR)) && Resolve(ExprRule(k), ts.head) == Shift) {
        CloseBuilds(e, k, ts);
      }
  }

  // ----- counting parameters -----

  /** The number of `?` tokens. */
  function Questions(ts: List<Token>): nat {
    match ts
    case Nil => 0
    case Cons(t, rest) => (if t == Sym('?') then 1 else 0) + Questions(rest)
  }

  /** The number of parameters made. */
  function Made(actions: List<Action>): nat {
    match actions
    case Nil => 0
    case Cons(a, rest) => (if a == Atom(Parameter) then 1 else 0) + Made(rest)
  }

  lemma SelectHasNoQuestion(ts: List<Token>)
    requires TakeSelect(ts).Some?
    ensures Questions(TakeSelect(ts).value.1) == Questions(ts)
  {
    assert Questions(ts) == Questions(ts.tail) == Questions(ts.tail.tail);
  }

  lemma InMakesNone(o: Operand, negated: bool, k: Stack, ts: List<Token>)
    requires StepIn(o, negated, k, ts).Next?
    ensures Made(InActions(negated, ts)) == 0 && Questions(ts) == Questions(StepIn(o, negated, k, ts).rest)
  {
    assert Questions(ts) == Questions(ts.tail);
    if ts.tail.Cons? && ts.tail.head.SubQuery? {
      SelectHasNoQuestion(ts);
    }
  }

  lemma NameMakesNone(t: Token, k: Stack, rest: List<Token>)
    requires IsName(t) && StepName(t, k, rest).Next?
    ensures Made(NameActions(t, rest)) == 0 && Questions(rest) == Questions(StepName(t, k, rest).rest)
  {
    if rest.Cons? {
      assert rest.head == Sym('(') || rest.head == Sym('.') ==> Questions(rest) == Questions(rest.tail);
    }
  }

  lemma LeafMakes(t: Token)
    requires IsLeaf(t)
    ensures Made(Only(Atom(BuildLeaf(t)))) == if t == Sym('?') then 1 else 0
  {
    assert Made(Nil) == 0;
  }

  lemma ExistsMakesNone(negated: bool, k: Stack, ts: List<Token>)
    requires StepExists(negated, k, ts).Next?
    ensures Made(AndNegate(negated, Atom(OpExists(TakeSelect(ts).value.0)))) == 0
    ensures Questions(ts) == Questions(StepExists(negated, k, ts).rest)
  {
    SelectHasNoQuestion(ts);
  }

  lemma WantMakes(k: Stack, ts: List<Token>)
    requires StepWant(k, ts).Next?
    ensures Questions(ts) == Made(WantActions(k, ts)) + Questions(StepWant(k, ts).rest)
  {
    var t, rest := ts.head, ts.tail;
    assert Questions(ts) == (if t == Sym('?') then 1 else 0) + Questions(rest);
    if t == Sym('-') {
    } else if t == Kw(NOT) {
      if AtExpr(k) && rest.Cons? && rest.head == Kw(EXISTS) {
        ExistsMakesNone(true, k, rest.tail);
      }
    } else if t == Kw(EXISTS) {
      ExistsMakesNone(false, k, rest);
    } else if t == Sym('(') {
      if rest.Cons? && rest.head.SubQuery? {
        SelectHasNoQuestion(ts);
      }
    } else if t == Kw(CASE) || t == Sym(':') {
      assert rest.Cons? ==> rest.head == Sym('?') || Questions(rest) == Questions(rest.tail);
    } else if IsName(t) {
      NameMakesNone(t, k, rest);
    } else {
      LeafMakes(t);
    }
  }

  lemma OperandMakesNone(o: Operand, k: Stack, ts: List<Token>)
    requires StepOperand(o, k, ts).Next?
    ensures Made(StepActions(HaveOperand(o, k), ts)) == 0 && Questions(ts) == Questions(StepOperand(o, k, ts).rest)
  {
    if ts.Cons? {
      if ts.head == Kw(IN) {
        assert Questions(ts) == Questions(ts.tail);
        if AtExpr(k) {
          InMakesNone(o, false, k, ts.tail);
        }
      } else if ContinuesOperand(ts.head) {
        assert Questions(ts) == Questions(ts.tail);
        if ts.tail.Cons? {
          assert ts.tail.head == Sym('?') || Questions(ts.tail) == Questions(ts.tail.tail);
          if ts.tail.head == Kw(IN) && AtExpr(k) {
            if ts.head == Kw(NOT) && Resolve(OperandRule(k), ts.head) == Shift {
              InMakesNone(o, true, k, ts.tail.tail);
            }
          }
        }
      }
    }
  }

  /** The alias at the end of a list element holds no parameter. */
  lemma AliasHasNoQuestion(ts: List<Token>)
    requires TakeAlias(ts).Some?
    ensures Questions(TakeAlias(ts).value.1) == Questions(ts)
  {
    if ts.Cons? && ts.head == Kw(AS) {
      assert Questions(ts) == Questions(ts.tail);
    }
  }

  lemma ListMakesNone(head: ListHead, items: Items, alias: Alias)
    requires LegalAlias(alias)
    ensures Made(Only(ItemAction(items, alias))) == 0
    ensures var last := (match head
                         case CallHead(_, distinct) => Only(CallAction(distinct))
                         case InHead(_, negated) => AndNegate(negated, ListIn));
            Made(Cons(ItemAction(items, alias), last)) == 0
  {
    assert Made(Only(Unary(LogicalNot))) == 0 && Made(Only(ListIn)) == 0;
  }

  lemma ItemMakesNone(e: Expr, head: ListHead, items: Items, below: Stack, ts: List<Token>)
    requires StepItem(e, head, items, below, ts).Next?
    ensures Made(ItemActions(head, items, ts)) == 0
              && Questions(ts) == Questions(StepItem(e, head, items, below, ts).rest)
  {
    AliasHasNoQuestion(ts);
    var (alias, rest) := TakeAlias(ts).value;
    ListMakesNone(head, items, alias);
    hide Made, ItemAction, LegalAlias;
    assert Questions(rest) == Questions(rest.tail);
  }

  lemma ExprMakesNone(e: Expr, k: Stack, ts: List<Token>)
    requires StepExpr(e, k, ts).Next?
    ensures Made(StepActions(HaveExpr(e, k), ts)) == 0 && Questions(ts) == Questions(StepExpr(e, k, ts).rest)
  {
    if ts.Cons? {
      assert ts.head == Sym('?') || Questions(ts) == Questions(ts.tail);
    }
    hide Resolve, TokenPrec, Questions, TakeAlias, StepItem, ItemActions;
    if ts.Cons? && (ts.head == Kw(AND) || ts.head == Kw(OR)) && Resolve(ExprRule(k), ts.head) == Shift {
    } else if k.item.ListI? {
      ItemMakesNone(e, k.item.listHead, k.item.items, k.below, ts);
    }
  }

  /** One parameter is made for each `?` that a step consumes. */
  lemma ActionsMake(c: Config, ts: List<Token>)
    requires Step(c, ts).Next?
    ensures Questions(ts) == Made(StepActions(c, ts)) + Questions(Step(c, ts).rest)
  {
    match c
    case Want(k) => WantMakes(k, ts);
    case HaveOperand(o, k) => OperandMakesNone(o, k, ts);
    case HaveExpr(e, k) => ExprMakesNone(e, k, ts);
  }
}
