/**
 The parser on the heap: every step of the machine runs its semantic actions on the value stack; a
 rejected input destroys what is on the stack, an accepted one leaves the tree.
 */
module HeapParser {
  import opened Tokens
  import opened Syntax
  import opened Machine
  import opened Soundness
  import opened Ast
  import opened Rendering
  import opened Memory
  import opened Nodes
  import opened Actions
  import opened Schedule
  import opened Values
  import opened HeapActions
  import opened Roots

  /** One action, by its kind. */
  method RunAction(st: State, a: Action, ghost es: List<Entry>, ghost base: Store)
    returns (after: State, ghost es': List<Entry>)
    requires Holds(st, es, base) && Applies(a, Meanings(es))
    modifies FeetAll(es)
    ensures Holds(after, es', base) && Does(a, Meanings(es), Meanings(es'))
    ensures forall o | o in after.live :: o in st.live || fresh(o)
    ensures |after.params| == |st.params| + if a == Atom(Parameter) then 1 else 0
  {
    hide *;
    match a
    case Atom(n) =>
      if n.Parameter? { after, es' := DoParameter(st, es, base); } else { after, es' := DoAtom(st, n, es, base); }
    case Name(x) => after, es' := DoName(st, x, es, base);
    case Unary(op) => after, es' := DoUnary(st, op, es, base);
    case Binary(op) => after, es' := DoInfix(st, op, es, base);
    case Conjunction => after, es' := DoConnective(st, true, es, base);
    case Disjunction => after, es' := DoConnective(st, false, es, base);
    case BetweenAction => after, es' := DoBetween(st, es, base);
    case FirstItem(alias) => after, es' := DoFirstItem(st, alias, es, base);
    case NextItem(alias) => after, es' := DoNextItem(st, alias, es, base);
    case EmptyCall => after, es' := DoEmptyCall(st, es, base);
    case CallAction(distinct) => after, es' := DoCall(st, distinct, es, base);
    case EmptyIn => after, es' := DoEmptyIn(st, es, base);
    case ListIn => after, es' := DoListIn(st, es, base);
    case SelectIn(id) => after, es' := DoSelectIn(st, id, es, base);
    case FirstArm => after, es' := DoFirstArm(st, es, base);
    case NextArm => after, es' := DoNextArm(st, es, base);
    case CaseAction(based, otherwise) => after, es' := DoCase(st, based, otherwise, es, base);
  }

  /** The infix makers. */
  method DoInfix(st: State, op: InfixOp, ghost es: List<Entry>, ghost base: Store)
    returns (after: State, ghost es': List<Entry>)
    requires Holds(st, es, base) && Applies(Binary(op), Meanings(es))
    ensures Holds(after, es', base) && after.params == st.params
    ensures forall o | o in after.live :: o in st.live || fresh(o)
    ensures Does(Binary(op), Meanings(es), Meanings(es'))
  {
    hide Holds;
    after, es' := DoBinary(st, BinaryCode(op), OpBinary(Meanings(es).tail.head.node, op, Meanings(es).head.node),
        es, base);
  }

  method DoConnective(st: State, and: bool, ghost es: List<Entry>, ghost base: Store)
    returns (after: State, ghost es': List<Entry>)
    requires Holds(st, es, base) && Applies(if and then Conjunction else Disjunction, Meanings(es))
    ensures Holds(after, es', base) && after.params == st.params
    ensures forall o | o in after.live :: o in st.live || fresh(o)
    ensures Does(if and then Conjunction else Disjunction, Meanings(es), Meanings(es'))
  {
    hide Holds;
    ghost var l, r := Meanings(es).tail.head.node, Meanings(es).head.node;
    if and {
      after, es' := DoBinary(st, KAnd, OpAnd(l, r), es, base);
    } else {
      after, es' := DoBinary(st, KOr, OpOr(l, r), es, base);
    }
  }

  /** What one more action of a list does. */
  lemma NextAction(actions: List<Action>, s: List<Meaning>, s': List<Meaning>)
    requires actions.Cons? && AllApply(actions, s) && Does(actions.head, s, s')
    ensures AllApply(actions.tail, s') && PerformAll(actions.tail, s') == PerformAll(actions, s)
  {}

  /** What the stack owns after some steps and was there before them, it owned before. */
  lemma OwnedBefore(es: List<Entry>, before: Store, es': List<Entry>, after: Store, base: Store)
    requires before == OwnedAll(es) + base && after == OwnedAll(es') + base && Sane(after)
    ensures forall o | o in FeetAll(es') && o in before :: o in OwnedAll(es)
    ensures forall o | o in OwnedAll(es') && o in before :: o in OwnedAll(es)
    ensures forall o | o in FeetAll(es') :: o in after
  {
    FeetAllAreOwned(es');
    hide OwnedAll, FeetAll;
    forall o | o in OwnedAll(es') && o in before ensures o in OwnedAll(es) {
      assert after[o] == OwnedAll(es')[o] + base[o];
    }
  }

  /** The actions of one step. */
  method RunActions(st: State, actions: List<Action>, ghost es: List<Entry>, ghost base: Store)
    returns (after: State, ghost es': List<Entry>)
    requires Holds(st, es, base) && AllApply(actions, Meanings(es))
    modifies set o | o in OwnedAll(es)
    ensures Holds(after, es', base) && Builds(actions, Meanings(es), Meanings(es'))
    ensures forall o | o in after.live :: o in st.live || fresh(o)
    ensures |after.params| == |st.params| + Made(actions)
    decreases actions
  {
    hide Owned, OwnedAll, FeetAll, MarksAll, Meanings, AllGood, Sane, Numbered, Applies, Perform, Does;
    after, es' := st, es;
    if actions.Cons? {
      OwnedBefore(es, st.live, es, st.live, base);
      after, es' := RunAction(st, actions.head, es, base);
      NextAction(actions, Meanings(es), Meanings(es'));
      OwnedBefore(es, st.live, es', after.live, base);
      after, es' := RunActions(after, actions.tail, es', base);
    }
  }

  /** The actions of a step do not see the values below those of the expression. */
  lemma BuildsAbove(actions: List<Action>, s: List<Meaning>, s': List<Meaning>, below: List<Meaning>)
    requires Builds(actions, s, s')
    ensures Builds(actions, Append(s, below), Append(s', below))
  {
    ActionsAbove(actions, s, below);
  }

  lemma StartMeans(ts: List<Token>, below: List<Meaning>)
    ensures Inv(Want(Bottom), ts) && Append(ConfigMeaning(Want(Bottom), ts), below) == below
  {}

  lemma RejectedInput(c: Config, rest: List<Token>, ts: List<Token>)
    requires Run(c, rest) == Parse(ts) && Step(c, rest).Reject?
    ensures ParseNode(ts).None?
  {
    hide Step, Parse;
  }

  /** When the machine accepts, the parsed expression is all it has left. */
  lemma AcceptedConfig(c: Config, rest: List<Token>, ts: List<Token>, below: List<Meaning>)
    requires Run(c, rest) == Parse(ts) && Step(c, rest).Accept? && Inv(c, rest)
    ensures ParseNode(ts).Some? && rest.Nil?
    ensures Append(ConfigMeaning(c, rest), below) == Cons(ExprM(ParseNode(ts).value), below)
  {
    hide Parse, BuildExpr;
    assert c.HaveExpr? && c.stack.Bottom?;
    assert ConfigMeaning(c, rest) == Cons(ExprM(BuildExpr(c.expr)), Nil);
  }

  /** Parses an expression on top of the values that the surrounding rules have left on the stack.
      Accepted: the new top value stands for the parsed expression, and every `?` has added one
      parameter to the list. Rejected: all values are destroyed, and only `base` is left. */
  method ParseOnto(ts: List<Token>, st0: State, ghost es0: List<Entry>, ghost base: Store)
    returns (ok: bool, st: State, ghost es: List<Entry>)
    requires Holds(st0, es0, base)
    modifies set o | o in OwnedAll(es0)
    ensures ok <==> ParseNode(ts).Some?
    ensures ok ==> Holds(st, es, base) && Meanings(es) == Cons(ExprM(ParseNode(ts).value), Meanings(es0))
    ensures ok ==> forall o | o in st.live :: o in st0.live || fresh(o)
    ensures ok ==> |st.params| == |st0.params| + Questions(ts)
    ensures !ok ==> st == State(Nil, base, [])
  {
    hide Owned, OwnedAll, FeetAll, Marks, MarksAll, Meanings, AllGood, Built, Sane, Numbered, ParseNode,
        StepActions, Step, Inv, ConfigMeaning, Append, PerformAll, AllApply;
    var c, rest := Want(Bottom), ts;
    ghost var below := Meanings(es0);
    st, es := st0, es0;
    StartMeans(ts, below);
    while true
      invariant Holds(st, es, base)
      invariant forall o | o in st.live :: o in st0.live || fresh(o)
      invariant Inv(c, rest) && Meanings(es) == Append(ConfigMeaning(c, rest), below)
      invariant Run(c, rest) == Parse(ts)
      invariant |st.params| + Questions(rest) == |st0.params| + Questions(ts)
      decreases rest.Size(), c.Height()
    {
      match Step(c, rest)
      case Next(c', rest') =>
        ActionsBuild(c, rest);
        ActionsMake(c, rest);
        StepAbove(c, rest, below);
        OwnedBefore(es0, st0.live, es, st.live, base);
        st, es := RunActions(st, StepActions(c, rest), es, base);
        c, rest := c', rest';
      case Accept(_) =>
        AcceptedConfig(c, rest, ts, below);
        ok := true;
        return;
      case Reject =>
        RejectedInput(c, rest, ts);
        var after := DestroyAll(st, es, base);
        ok, st := false, State(Nil, after, []);
        return;
    }
  }

  lemma StepAbove(c: Config, ts: List<Token>, below: List<Meaning>)
    requires Inv(c, ts) && Step(c, ts).Next?
    requires Goes(Step(c, ts)) && OutcomeBuilt(StepActions(c, ts), ConfigMeaning(c, ts), Step(c, ts))
    ensures var next := Step(c, ts);
            && AllApply(StepActions(c, ts), Append(ConfigMeaning(c, ts), below))
            && Builds(StepActions(c, ts), Append(ConfigMeaning(c, ts), below),
                   Append(ConfigMeaning(next.config, next.rest), below))
  {
    hide StepActions, Step, Inv, ConfigMeaning, Append;
    BuildsAbove(StepActions(c, ts), ConfigMeaning(c, ts), ConfigMeaning(Step(c, ts).config, Step(c, ts).rest), below);
  }

  lemma EmptyHolds(live: Store)
    requires Sane(live)
    ensures Holds(State(Nil, live, []), Nil, live) && OwnedAll(Nil) == multiset{}
  {}

  /** A stack that holds one expression. */
  lemma OneValue(st: State, es: List<Entry>, base: Store, n: Node)
    requires Holds(st, es, base) && Meanings(es) == Cons(ExprM(n), Nil)
    ensures es.Cons? && es.head.ExprE? && es.tail.Nil?
    ensures st.values.Cons? && st.values.head.ExprV? && Built(es.head.tree, st.values.head.expr, n)
    ensures OwnedAll(es) == Owned(es.head.tree) && MarksAll(es) == Marks([], es.head.tree)
  {
    hide Owned, Marks, Linked, Represents, Sane, Numbered;
    assert Meanings(es.tail).Nil?;
  }

  /** Parses an expression into a freshly allocated tree. Accepted: the tree stands for the tokens
      (`Roots` opens it field by field) and owns everything that the run has left allocated; its
      parameters are those of `params`, one for each `?` and numbered in order. Rejected: nothing is
      left. */
  method ParseExpression(ts: List<Token>, live: Store)
    returns (e: Memory.Expr?, after: Store, params: seq<Memory.Expr>, ghost t: Tree)
    requires Sane(live)
    ensures e != null <==> ParseNode(ts).Some?
    ensures e == null ==> after == live
    ensures e != null ==> Built(t, e, ParseNode(ts).value) && after == Owned(t) + live && Sane(after)
    ensures e != null ==> Ref(t) == e && Stands(t, ts, None)
    ensures e != null ==> forall o | o in after :: o in live || fresh(o)
    ensures e != null ==> Marks([], t) == Numbered(params) && |params| == Questions(ts)
  {
    hide Owned, OwnedAll, FeetAll, Marks, MarksAll, AllGood, Built, Sane, Numbered, ParseNode, Stands;
    EmptyHolds(live);
    var ok, st;
    ghost var es;
    ok, st, es := ParseOnto(ts, State(Nil, live, []), Nil, live);
    e, after, params, t := null, st.live, st.params, NullTree;
    if ok {
      OneValue(st, es, live, ParseNode(ts).value);
      e, t := st.values.head.expr, es.head.tree;
      BuiltStands(t, e, ts);
    }
  }
}
