/**
 The makers of `Expr` on the heap, each tied to the node it stands for.
 */
module Nodes {
  import opened Tokens
  import opened Syntax
  import opened Ast
  import opened Memory

  // ----- what a heap tree stands for -----

  /** The fields of a node that are not children. */
  datatype Head = Head(type_: ExprType, opType: OperatorType, name: Option<string>, table: Option<string>,
                       select: Option<nat>, number: string, distinct: bool)

  function BinaryCode(op: InfixOp): OperatorType {
    match op
    case Minus => KMinus
    case Plus => KPlus
    case Slash => KSlash
    case Asterisk => KAsterisk
    case Percentage => KPercentage
    case Caret => KCaret
    case Like => KLike
    case NotLike => KNotLike
    case Concatenate => KConcat
    case Equals => KEquals
    case Differs => KNotEquals
    case Less => KLess
    case Greater => KGreater
    case AtMost => KLessEq
    case AtLeast => KGreaterEq
  }

  function UnaryCode(op: UnaryOp): OperatorType {
    match op
    case UnaryMinus => KUnaryMinus
    case LogicalNot => KNot
    case IsNull => KIsNull
  }

  function Kind(type_: ExprType): Head {
    Head(type_, KNone, None, None, None, "", false)
  }

  function Operator(op: OperatorType): Head {
    Head(KOperator, op, None, None, None, "", false)
  }

  function HeadOf(n: Node): Head {
    match n
    case Star => Kind(KStar)
    case TableStar(t) => Kind(KStar).(table := Some(t))
    case ColumnRef(x) => Kind(KColumnRef).(name := Some(x))
    case TableColumn(t, x) => Kind(KColumnRef).(name := Some(x), table := Some(t))
    case StringLiteral(x) => Kind(KLiteralString).(name := Some(x))
    case IntLiteral(x) => Kind(KLiteralInt).(number := x)
    case FloatLiteral(x) => Kind(KLiteralFloat).(number := x)
    case NullLiteral => Kind(KLiteralNull)
    case Parameter => Kind(KParameter)
    case Named(x) => Kind(KNamedParameter).(name := Some(x))
    case Select(id) => Kind(KSelect).(select := Some(id))
    case FunctionRef(f, distinct, _) => Kind(KFunctionRef).(name := Some(f), distinct := distinct)
    case OpUnary(op, _) => Operator(UnaryCode(op))
    case OpBinary(_, op, _) => Operator(BinaryCode(op))
    case OpAnd(_, _) => Operator(KAnd)
    case OpOr(_, _) => Operator(KOr)
    case OpBetween(_, _, _) => Operator(KBetween)
    case OpCase(_, _, _) => Operator(KCase)
    case OpIn(_, _) => Operator(KIn)
    case OpInSelect(_, id) => Operator(KIn).(select := Some(id))
    case OpExists(id) => Operator(KExists).(select := Some(id))
  }

  function TextOf(s: CString?): Option<string> {
    if s == null then None else Some(s.text)
  }

  function IdOf(s: SelectStatement?): Option<nat> {
    if s == null then None else Some(s.id)
  }

  /** The node `e` with the leaves `own` has the head `h`. */
  ghost predicate HasHead(e: Memory.Expr, own: Leaves, h: Head)
    reads e
  {
    && e.type_ == h.type_ && e.opType == h.opType && e.number == h.number && e.distinct == h.distinct
    && TextOf(own.name) == h.name && TextOf(own.table) == h.table && IdOf(own.select) == h.select
  }

  ghost predicate Represents(t: Tree, n: Node, alias: Option<string>)
    reads Feet(t)
    decreases n, 3
  {
    t.Tree? && HasHead(t.node, t.own, HeadOf(n)) && TextOf(t.own.alias) == alias && t.escape.NullTree?
        && Children(t.expr, t.list, t.expr2, n)
  }

  /** The children of a node that stands for `n`: first expression, list, second expression. */
  ghost predicate Children(x: Tree, ts: Trees, y: Tree, n: Node)
    reads Feet(x), FeetVector(ts), Feet(y)
    decreases n, 2
  {
    match n
    case OpUnary(_, a) => Represents(x, a, None) && ts.NullVector? && y.NullTree?
    case OpBinary(l, _, r) => Represents(x, l, None) && ts.NullVector? && Represents(y, r, None)
    case OpAnd(l, r) => Represents(x, l, None) && ts.NullVector? && Represents(y, r, None)
    case OpOr(l, r) => Represents(x, l, None) && ts.NullVector? && Represents(y, r, None)
    case OpBetween(a, lo, hi) => Represents(x, a, None) && y.NullTree? && RepresentsBoundVector(ts, n)
    case OpCase(base, arms, otherwise) =>
      RepresentsOpt(x, base) && RepresentsOpt(y, otherwise) && RepresentsArmVector(ts, arms)
    case OpIn(a, items) =>
      && Represents(x, a, None) && y.NullTree?
      && if items.NoNodes? then ts.NullVector? else RepresentsVector(ts, items)
    case OpInSelect(a, _) => Represents(x, a, None) && ts.NullVector? && y.NullTree?
    case FunctionRef(_, _, args) => x.NullTree? && y.NullTree? && RepresentsVector(ts, args)
    case _ => x.NullTree? && ts.NullVector? && y.NullTree?
  }

  /** The two bounds of a BETWEEN. */
  ghost predicate RepresentsBounds(items: seq<Tree>, n: Node)
    requires n.OpBetween?
    reads FeetItems(items)
    decreases n, 0
  {
    |items| == 2 && Represents(items[0], n.low, None) && Represents(items[1], n.high, None)
  }

  ghost predicate RepresentsBoundVector(ts: Trees, n: Node)
    requires n.OpBetween?
    reads FeetVector(ts)
    decreases n, 1
  {
    ts.Vector? && RepresentsBounds(ts.items, n)
  }

  ghost predicate RepresentsVector(ts: Trees, ns: NodeList)
    reads FeetVector(ts)
    decreases ns, 1
  {
    ts.Vector? && RepresentsList(ts.items, ns)
  }

  ghost predicate RepresentsArmVector(ts: Trees, ns: NodeArms)
    reads FeetVector(ts)
    decreases ns, 2
  {
    ts.Vector? && RepresentsArms(ts.items, ns)
  }

  ghost predicate RepresentsOpt(t: Tree, n: OptNode)
    reads Feet(t)
    decreases n
  {
    match n
    case NoNode => t.NullTree?
    case SomeNode(x) => Represents(t, x, None)
  }

  ghost predicate RepresentsList(items: seq<Tree>, ns: NodeList)
    reads FeetItems(items)
    decreases ns, 0
  {
    match ns
    case NoNodes => items == []
    case Nodes(init, n, alias) =>
      && items != []
      && Represents(items[|items| - 1], n, alias)
      && RepresentsList(items[..|items| - 1], init)
  }

  ghost predicate RepresentsArms(items: seq<Tree>, ns: NodeArms)
    reads FeetItems(items)
    decreases ns, 1
  {
    match ns
    case NoNodeArms => items == []
    case NodeArm(init, w, th) =>
      && items != []
      && RepresentsArm(items[|items| - 1], ns)
      && RepresentsArms(items[..|items| - 1], init)
  }

  /** The last arm of `ns`, alone. */
  ghost predicate RepresentsArm(t: Tree, ns: NodeArms)
    requires ns.NodeArm?
    reads Feet(t)
    decreases ns, 0
  {
    && t.Tree? && HasHead(t.node, t.own, Operator(KCaseListElement)) && t.own.alias == null && t.escape.NullTree?
    && Represents(t.expr, ns.when, None) && t.list.NullVector? && Represents(t.expr2, ns.then_, None)
  }

  /** The intermediate value of a CASE: a shell around the vector of its arms. */
  ghost predicate RepresentsCaseList(t: Tree, ns: NodeArms)
    reads Feet(t)
  {
    && t.Tree? && HasHead(t.node, t.own, Operator(KCaseList)) && t.own == NO_LEAVES && t.escape.NullTree? && t.param.None?
    && t.expr.NullTree? && t.expr2.NullTree? && RepresentsArmVector(t.list, ns)
  }

  // ----- makers -----

  /** A heap tree for the node `n`. */
  ghost predicate Built(t: Tree, e: Memory.Expr?, n: Node)
    reads Feet(t)
  {
    Ref(t) == e && Linked(t) && Represents(t, n, None)
  }

  predicate Childless(n: Node) {
    !(n.OpUnary? || n.OpBinary? || n.OpAnd? || n.OpOr? || n.OpBetween? || n.OpCase? || n.OpIn? || n.OpInSelect? || n.FunctionRef?)
  }

  /** The makers of nodes without child expressions: literals, column references, stars, named
      parameters, nested selects and EXISTS. */
  method MakeAtom(live: Store, type_: ExprType, op: OperatorType, number: string,
                  name: CString?, table: CString?, select: SelectStatement?, ghost n: Node)
    returns (e: Memory.Expr, after: Store, ghost t: Tree)
    requires Childless(n) && !n.Parameter?
              && HeadOf(n) == Head(type_, op, TextOf(name), TextOf(table), IdOf(select), number, false)
    ensures fresh(e) && e !in live && after == live + One(e)
    ensures t == Tree(e, NullTree, NullVector, NullTree, NullTree, Leaves(select, name, table, null), None)
    ensures Built(t, e, n)
  {
    e := new Memory.Expr(type_, op, null, null, null, select, name, table, number, false);
    after := live + multiset{e};
    t := Tree(e, NullTree, NullVector, NullTree, NullTree, Leaves(select, name, table, null), None);
  }

  /** `makeParameter` with a provisional number, and the index in the list of parameters. */
  method MakeParameter(live: Store, id: int, index: nat) returns (e: Memory.Expr, after: Store, ghost t: Tree)
    ensures fresh(e) && e !in live && after == live + One(e) && e.ival == id && e.ival2 == index
    ensures t == Tree(e, NullTree, NullVector, NullTree, NullTree, NO_LEAVES, Some(index))
    ensures Built(t, e, Parameter)
  {
    e := new Memory.Expr(KParameter, KNone, null, null, null, null, null, null, "", false);
    e.ival := id;
    e.ival2 := index;
    after := live + multiset{e};
    t := Tree(e, NullTree, NullVector, NullTree, NullTree, NO_LEAVES, Some(index));
  }

  method MakeOpUnary(live: Store, op: UnaryOp, expr: Memory.Expr, ghost a: Tree, ghost n: Node)
    returns (e: Memory.Expr, after: Store, ghost t: Tree)
    requires Built(a, expr, n)
    ensures fresh(e) && e !in live && after == live + One(e)
    ensures t == Tree(e, a, NullVector, NullTree, NullTree, NO_LEAVES, None)
    ensures Built(t, e, OpUnary(op, n))
  {
    hide Linked, Represents;
    assert allocated(Feet(a));
    e := new Memory.Expr(KOperator, UnaryCode(op), expr, null, null, null, null, null, "", false);
    after := live + multiset{e};
    t := Tree(e, a, NullVector, NullTree, NullTree, NO_LEAVES, None);
    UnaryBuilt(t, op, n);
  }

  lemma UnaryBuilt(t: Tree, op: UnaryOp, n: Node)
    requires t.Tree? && t == Tree(t.node, t.expr, NullVector, NullTree, NullTree, NO_LEAVES, None)
              && t.node.opType == UnaryCode(op)
    requires t.node.type_ == KOperator && t.node.number == "" && !t.node.distinct
    requires t.node.expr == Ref(t.expr) && t.node.exprList == VecRef(t.list) && t.node.expr2 == Ref(t.expr2)
              && t.node.escape == null
    requires t.node.select == null && t.node.name == null && t.node.table == null && t.node.alias == null
    requires Linked(t.expr) && Represents(t.expr, n, None)
    ensures Built(t, t.node, OpUnary(op, n))
  {
    assert Children(t.expr, NullVector, NullTree, OpUnary(op, n));
  }

  /** `n` is the binary node to make; its operator code is `op`. */
  method MakeOpBinary(live: Store, l: Memory.Expr, op: OperatorType, r: Memory.Expr, ghost a: Tree,
                      ghost b: Tree, ghost n: Node)
    returns (e: Memory.Expr, after: Store, ghost t: Tree)
    requires (n.OpBinary? || n.OpAnd? || n.OpOr?) && op == HeadOf(n).opType
    requires Built(a, l, n.expr) && Built(b, r, n.expr2)
    ensures fresh(e) && e !in live && after == live + One(e)
    ensures t == Tree(e, a, NullVector, b, NullTree, NO_LEAVES, None)
    ensures Built(t, e, n)
  {
    hide Linked, Represents;
    assert allocated(Feet(a)) && allocated(Feet(b));
    e := new Memory.Expr(KOperator, op, l, null, r, null, null, null, "", false);
    after := live + multiset{e};
    t := Tree(e, a, NullVector, b, NullTree, NO_LEAVES, None);
    BinaryBuilt(t, n);
  }

  lemma BinaryBuilt(t: Tree, n: Node)
    requires (n.OpBinary? || n.OpAnd? || n.OpOr?) && t.Tree?
    requires t == Tree(t.node, t.expr, NullVector, t.expr2, NullTree, NO_LEAVES, None)
        && t.node.opType == HeadOf(n).opType
    requires t.node.type_ == KOperator && t.node.number == "" && !t.node.distinct
    requires t.node.expr == Ref(t.expr) && t.node.exprList == VecRef(t.list) && t.node.expr2 == Ref(t.expr2)
              && t.node.escape == null
    requires t.node.select == null && t.node.name == null && t.node.table == null && t.node.alias == null
    requires Linked(t.expr) && Represents(t.expr, n.expr, None) && Linked(t.expr2) && Represents(t.expr2, n.expr2, None)
    ensures Built(t, t.node, n)
  {
    assert Children(t.expr, NullVector, t.expr2, n);
  }

  /** `makeFunctionRef`, and the IN makers with a list, a nested select or neither. */
  method MakeWithList(live: Store, type_: ExprType, op: OperatorType, expr: Memory.Expr?, v: ExprVector?,
                      select: SelectStatement?, name: CString?, distinct: bool,
                      ghost a: Tree, ghost ts: Trees, ghost n: Node)
    returns (e: Memory.Expr, after: Store, ghost t: Tree)
    requires n.FunctionRef? || n.OpIn? || n.OpInSelect?
    requires HeadOf(n) == Head(type_, op, TextOf(name), None, IdOf(select), "", distinct)
    requires if n.FunctionRef? then a.NullTree? && expr == null else Built(a, expr, n.expr)
    requires VecRef(ts) == v && LinkedVector(ts)
    requires n.FunctionRef? ==> RepresentsVector(ts, n.args)
    requires n.OpIn? ==> if n.items.NoNodes? then ts.NullVector? else RepresentsVector(ts, n.items)
    requires n.OpInSelect? ==> ts.NullVector?
    ensures fresh(e) && e !in live && after == live + One(e)
    ensures t == Tree(e, a, ts, NullTree, NullTree, Leaves(select, name, null, null), None)
    ensures Built(t, e, n)
  {
    assert allocated(Feet(a)) && allocated(FeetVector(ts));
    e := new Memory.Expr(type_, op, expr, v, null, select, name, null, "", distinct);
    after := live + multiset{e};
    t := Tree(e, a, ts, NullTree, NullTree, Leaves(select, name, null, null), None);
  }

  method MakeBetween(live: Store, expr: Memory.Expr, low: Memory.Expr, high: Memory.Expr,
                     ghost a: Tree, ghost b: Tree, ghost c: Tree, ghost n: Node)
    returns (e: Memory.Expr, after: Store, ghost t: Tree)
    requires n.OpBetween? && Built(a, expr, n.expr) && Built(b, low, n.low) && Built(c, high, n.high)
    ensures fresh(e) && e !in live && fresh(e.exprList) && e.exprList !in live
    ensures after == live + One(e.exprList) + One(e)
    ensures t == Tree(e, a, Vector(e.exprList, [b, c]), NullTree, NullTree, NO_LEAVES, None)
    ensures Built(t, e, n)
  {
    hide Represents, Linked;
    var v;
    assert allocated(Feet(a)) && allocated(Feet(b)) && allocated(Feet(c));
    v, after := NewVector(live, [low, high]);
    e, after, t := MakeBetweenNode(after, expr, v, a, Vector(v, [b, c]), n);
  }

  method MakeBetweenNode(live: Store, expr: Memory.Expr, v: ExprVector, ghost a: Tree, ghost ts: Trees, ghost n: Node)
    returns (e: Memory.Expr, after: Store, ghost t: Tree)
    requires n.OpBetween? && Built(a, expr, n.expr)
    requires VecRef(ts) == v && LinkedVector(ts) && RepresentsBoundVector(ts, n)
    ensures fresh(e) && e !in live && e.exprList == v && after == live + One(e)
    ensures t == Tree(e, a, ts, NullTree, NullTree, NO_LEAVES, None)
    ensures Built(t, e, n)
  {
    hide Linked, LinkedVector, Represents, RepresentsBoundVector;
    assert allocated(Feet(a)) && allocated(FeetVector(ts));
    e := new Memory.Expr(KOperator, KBetween, expr, v, null, null, null, null, "", false);
    after := live + multiset{e};
    t := Tree(e, a, ts, NullTree, NullTree, NO_LEAVES, None);
    BetweenBuilt(t, n);
  }

  lemma BetweenBuilt(t: Tree, n: Node)
    requires n.OpBetween? && t.Tree?
    requires t == Tree(t.node, t.expr, t.list, NullTree, NullTree, NO_LEAVES, None) && t.node.opType == KBetween
    requires t.node.type_ == KOperator && t.node.number == "" && !t.node.distinct
    requires t.node.expr == Ref(t.expr) && t.node.exprList == VecRef(t.list) && t.node.expr2 == Ref(t.expr2)
              && t.node.escape == null
    requires t.node.select == null && t.node.name == null && t.node.table == null && t.node.alias == null
    requires Linked(t.expr) && Represents(t.expr, n.expr, None)
    requires LinkedVector(t.list) && RepresentsBoundVector(t.list, n)
    ensures Built(t, t.node, n)
  {
    assert Children(t.expr, t.list, NullTree, n);
  }

  // ----- lists -----

  /** `new std::vector<Expr*>()` with its first elements pushed. */
  method NewVector(live: Store, elements: seq<Memory.Expr>) returns (v: ExprVector, after: Store)
    ensures fresh(v) && v !in live && after == live + One(v) && v.items == elements
  {
    v := new ExprVector(elements);
    after := live + multiset{v};
  }

  /** `push_back` of a list element that stands for `n` with an alias. */
  method PushBack(v: ExprVector, e: Memory.Expr, ghost ts: Trees, ghost t: Tree, ghost ns: NodeList,
                  ghost n: Node, ghost alias: Option<string>)
    requires VecRef(ts) == v && LinkedVector(ts) && RepresentsVector(ts, ns)
    requires Ref(t) == e && Linked(t) && Represents(t, n, alias)
    requires v !in FeetItems(ts.items) && v !in Feet(t)
    modifies v
    ensures LinkedVector(Vector(v, ts.items + [t])) && RepresentsVector(Vector(v, ts.items + [t]), Nodes(ns, n, alias))
  {
    hide Represents, Linked;
    v.items := v.items + [e];
    assert (ts.items + [t])[..|ts.items|] == ts.items;
  }

  /** Sets the alias of a list element. */
  method SetAlias(e: Memory.Expr, alias: CString?, ghost t: Tree, ghost n: Node)
    requires Built(t, e, n) && e !in Feet(t.expr) && e !in FeetVector(t.list) && e !in Feet(t.expr2)
    modifies e
    ensures var t' := t.(own := t.own.(alias := alias));
            Ref(t') == e && Linked(t') && Represents(t', n, TextOf(alias))
  {
    hide Children, HeadOf;
    assert Children(t.expr, t.list, t.expr2, n);
    e.alias := alias;
    assert Children(t.expr, t.list, t.expr2, n);
  }

  // ----- CASE -----

  /** The element of an arm. */
  method MakeCaseListElement(live: Store, when: Memory.Expr, then_: Memory.Expr, ghost a: Tree, ghost b: Tree,
                             ghost w: Node, ghost th: Node)
    returns (e: Memory.Expr, after: Store, ghost t: Tree)
    requires Built(a, when, w) && Built(b, then_, th)
    ensures fresh(e) && e !in live && after == live + One(e)
    ensures t == Tree(e, a, NullVector, b, NullTree, NO_LEAVES, None)
    ensures Linked(t) && forall init :: RepresentsArm(t, NodeArm(init, w, th))
  {
    hide Represents, HeadOf;
    assert allocated(Feet(a)) && allocated(Feet(b));
    e := new Memory.Expr(KOperator, KCaseListElement, when, null, then_, null, null, null, "", false);
    after := live + multiset{e};
    t := Tree(e, a, NullVector, b, NullTree, NO_LEAVES, None);
  }

  method MakeCaseList(live: Store, element: Memory.Expr, ghost c: Tree, ghost w: Node, ghost th: Node)
    returns (e: Memory.Expr, after: Store, ghost t: Tree)
    requires Ref(c) == element && Linked(c) && RepresentsArm(c, NodeArm(NoNodeArms, w, th))
    ensures fresh(e) && e !in live && fresh(e.exprList) && e.exprList !in live
    ensures t == Tree(e, NullTree, Vector(e.exprList, [c]), NullTree, NullTree, NO_LEAVES, None)
    ensures after == live + One(e) + One(e.exprList)
    ensures Linked(t) && RepresentsCaseList(t, NodeArm(NoNodeArms, w, th))
  {
    hide RepresentsArm, LinkedVector, RepresentsArmVector;
    assert allocated(Feet(c));
    var v := new ExprVector([element]);
    SingleArm(v, element, c, w, th);
    assert allocated(FeetVector(Vector(v, [c])));
    e := new Memory.Expr(KOperator, KCaseList, null, v, null, null, null, null, "", false);
    after := live + multiset{e} + multiset{v};
    t := Tree(e, NullTree, Vector(v, [c]), NullTree, NullTree, NO_LEAVES, None);
  }

  lemma SingleArm(v: ExprVector, element: Memory.Expr, c: Tree, w: Node, th: Node)
    requires v.items == [element] && Ref(c) == element && Linked(c) && RepresentsArm(c, NodeArm(NoNodeArms, w, th))
    ensures LinkedVector(Vector(v, [c])) && RepresentsArmVector(Vector(v, [c]), NodeArm(NoNodeArms, w, th))
  {
    assert [c][..0] == [];
  }

  /** `caseListAppend`. */
  method CaseListAppend(caseList: Memory.Expr, element: Memory.Expr, ghost l: Tree, ghost c: Tree,
                        ghost ns: NodeArms, ghost w: Node, ghost th: Node)
    returns (ghost t: Tree)
    requires Ref(l) == caseList && Linked(l) && RepresentsCaseList(l, ns)
    requires Ref(c) == element && Linked(c) && RepresentsArm(c, NodeArm(ns, w, th))
    requires l.list.vec !in FeetItems(l.list.items) && l.list.vec !in Feet(c) && l.list.vec as object != caseList
    modifies l.list.vec
    ensures t == l.(list := Vector(l.list.vec, l.list.items + [c]))
    ensures Linked(t) && RepresentsCaseList(t, NodeArm(ns, w, th))
  {
    ghost var items := l.list.items;
    var v := caseList.exprList;
    assert LinkedVector(l.list) && LinkedItems(items, v.items);
    t := l.(list := Vector(l.list.vec, items + [c]));
    v.items := v.items + [element];
    assert (items + [c])[..|items|] == items;
  }

  /** `makeCase`: the vector of arms moves to the new node, and the emptied shell is deleted. */
  method MakeCase(live: Store, base: Memory.Expr?, caseList: Memory.Expr, otherwise: Memory.Expr?,
                  ghost a: Tree, ghost l: Tree, ghost b: Tree, ghost n: Node, ghost rest: Store)
    returns (e: Memory.Expr, after: Store, ghost t: Tree)
    requires n.OpCase?
    requires Ref(a) == base && Linked(a) && RepresentsOpt(a, n.base)
    requires Ref(l) == caseList && Linked(l) && RepresentsCaseList(l, n.arms)
    requires Ref(b) == otherwise && Linked(b) && RepresentsOpt(b, n.otherwise)
    requires live == Owned(l) + rest
    requires caseList !in Feet(a) && caseList !in FeetVector(l.list) && caseList !in Feet(b)
    modifies caseList
    ensures fresh(e) && e !in live && after == OwnedVector(l.list) + rest + One(e)
    ensures t == Tree(e, a, l.list, b, NullTree, NO_LEAVES, None)
    ensures Built(t, e, n)
  {
    assert allocated(FeetVector(l.list));
    e, after, t := MakeCaseNode(live, base, caseList.exprList, otherwise, a, l.list, b, n);
    ghost var shell := EmptyShell(caseList, l, t, e, n);
    assert allocated(Feet(t));
    after := DeleteExpr(after, caseList, shell, OwnedVector(l.list) + rest + One(e));
  }

  method MakeCaseNode(live: Store, base: Memory.Expr?, v: ExprVector?, otherwise: Memory.Expr?,
                      ghost a: Tree, ghost ts: Trees, ghost b: Tree, ghost n: Node)
    returns (e: Memory.Expr, after: Store, ghost t: Tree)
    requires n.OpCase?
    requires Ref(a) == base && Linked(a) && RepresentsOpt(a, n.base)
    requires VecRef(ts) == v && LinkedVector(ts) && RepresentsArmVector(ts, n.arms)
    requires Ref(b) == otherwise && Linked(b) && RepresentsOpt(b, n.otherwise)
    ensures fresh(e) && e !in live && after == live + One(e)
    ensures t == Tree(e, a, ts, b, NullTree, NO_LEAVES, None)
    ensures Built(t, e, n)
  {
    hide Linked, LinkedVector, RepresentsOpt, RepresentsArmVector;
    assert allocated(Feet(a)) && allocated(FeetVector(ts)) && allocated(Feet(b));
    e := new Memory.Expr(KOperator, KCase, base, v, otherwise, null, null, null, "", false);
    after := live + multiset{e};
    t := Tree(e, a, ts, b, NullTree, NO_LEAVES, None);
    CaseBuilt(t, n);
  }

  lemma CaseBuilt(t: Tree, n: Node)
    requires n.OpCase? && t.Tree? && t == Tree(t.node, t.expr, t.list, t.expr2, NullTree, NO_LEAVES, None)
    requires t.node.type_ == KOperator && t.node.opType == KCase && t.node.number == "" && !t.node.distinct
    requires t.node.expr == Ref(t.expr) && t.node.exprList == VecRef(t.list) && t.node.expr2 == Ref(t.expr2)
              && t.node.escape == null
    requires t.node.select == null && t.node.name == null && t.node.table == null && t.node.alias == null
    requires Linked(t.expr) && RepresentsOpt(t.expr, n.base)
    requires LinkedVector(t.list) && RepresentsArmVector(t.list, n.arms)
    requires Linked(t.expr2) && RepresentsOpt(t.expr2, n.otherwise)
    ensures Built(t, t.node, n)
  {
    assert Children(t.expr, t.list, t.expr2, n);
  }

  /** Takes the vector away from the shell. */
  method EmptyShell(caseList: Memory.Expr, ghost l: Tree, ghost t: Tree, ghost e: Memory.Expr, ghost n: Node)
    returns (ghost shell: Tree)
    requires Ref(l) == caseList && Linked(l) && l.expr.NullTree? && l.expr2.NullTree? && l.escape.NullTree?
    requires l.own == NO_LEAVES && l.param.None?
    requires Built(t, e, n) && caseList !in Feet(t)
    modifies caseList
    ensures shell == Tree(caseList, NullTree, NullVector, NullTree, NullTree, NO_LEAVES, None)
    ensures Linked(shell) && Built(t, e, n)
  {
    caseList.exprList := null;
    shell := Tree(caseList, NullTree, NullVector, NullTree, NullTree, NO_LEAVES, None);
  }
}
