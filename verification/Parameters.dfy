/**
 The `?` markers on the heap: the parameter nodes of the values on the stack are distinct, carry their
 index, and stand in the order of their tokens.
 */
module Parameters {
  import opened Tokens
  import opened Ast
  import opened Rendering
  import opened Binding
  import opened Memory
  import opened Nodes
  import opened Actions
  import opened Schedule
  import opened Values
  import opened Result

  // ----- the parameters are distinct nodes -----

  function NodesOf(ms: seq<Mark>): seq<Memory.Expr> {
    seq(|ms|, i requires 0 <= i < |ms| => ms[i].node)
  }

  /** The nodes of some marks. */
  ghost function MarkedNodes(ms: seq<Mark>): Store {
    multiset(NodesOf(ms))
  }

  lemma MarkedSnoc(ms: seq<Mark>, m: Mark)
    ensures MarkedNodes(ms + [m]) == MarkedNodes(ms) + One(m.node)
  {
    assert NodesOf(ms + [m]) == NodesOf(ms) + [m.node];
  }

  lemma NumberedNodes(params: seq<Memory.Expr>)
    ensures MarkedNodes(Numbered(params)) == multiset(params)
  {
    assert NodesOf(Numbered(params)) == params;
  }

  /** The parameters in a tree are nodes of the tree. */
  lemma {:induction false} MarksAreOwned(before: seq<Mark>, t: Tree)
    ensures MarkedNodes(Marks(before, t)) <= MarkedNodes(before) + Owned(t)
    decreases t, 1
  {
    match t
    case NullTree =>
    case Tree(node, e, list, e2, escape, own, param) =>
      var m0 := if param.Some? then before + [Mark(node, param.value)] else before;
      var m1 := Marks(m0, e);
      var m2 := MarksVector(m1, list);
      var m3 := Marks(m2, e2);
      if param.Some? {
        MarkedSnoc(before, Mark(node, param.value));
      }
      MarksAreOwned(m0, e);
      MarksVectorAreOwned(m1, list);
      MarksAreOwned(m2, e2);
      MarksAreOwned(m3, escape);
      assert Marks(before, t) == Marks(m3, escape);
      assert Owned(t) == One(node) + OwnedLeaves(own) + Owned(e) + OwnedVector(list) + Owned(e2) + Owned(escape);
      Chain(MarkedNodes(before), MarkedNodes(m0), MarkedNodes(m1), MarkedNodes(m2), MarkedNodes(m3),
          MarkedNodes(Marks(m3, escape)), One(node), OwnedLeaves(own),
            Owned(e), OwnedVector(list), Owned(e2), Owned(escape));
  }

  lemma Chain(n: Store, n0: Store, n1: Store, n2: Store, n3: Store, n4: Store,
              own: Store, leaves: Store, a: Store, b: Store, c: Store, d: Store)
    requires n0 <= n + own && n1 <= n0 + a && n2 <= n1 + b && n3 <= n2 + c && n4 <= n3 + d
    ensures n4 <= n + (own + leaves + a + b + c + d)
  {}

  lemma {:induction false} MarksVectorAreOwned(before: seq<Mark>, ts: Trees)
    ensures MarkedNodes(MarksVector(before, ts)) <= MarkedNodes(before) + OwnedVector(ts)
    decreases ts, 2
  {
    match ts
    case NullVector =>
    case Vector(v, items) =>
      MarksItemsAreOwned(before, items);
      assert OwnedVector(ts) == One(v) + OwnedItems(items);
  }

  lemma {:induction false} MarksItemsAreOwned(before: seq<Mark>, items: seq<Tree>)
    ensures MarkedNodes(MarksItems(before, items)) <= MarkedNodes(before) + OwnedItems(items)
    decreases items, 0
  {
    if items != [] {
      hide Owned, OwnedItems, Marks, MarkedNodes;
      var n := |items| - 1;
      var m0, m1 := MarksItems(before, items[..n]), MarksItems(before, items);
      assert OwnedItems(items) == OwnedItems(items[..n]) + Owned(items[n]) by {
        OwnedSnoc(items[..n], items[n]);
        assert items == items[..n] + [items[n]];
      }
      assert MarkedNodes(m0) <= MarkedNodes(before) + OwnedItems(items[..n]) by {
        MarksItemsAreOwned(before, items[..n]);
      }
      assert MarkedNodes(m1) <= MarkedNodes(m0) + Owned(items[n]) by {
        MarksAreOwned(m0, items[n]);
      }
      assert MarkedNodes(m1) <= MarkedNodes(before) + OwnedItems(items) by {
        Link(MarkedNodes(before), MarkedNodes(m0), MarkedNodes(m1), OwnedItems(items[..n]), Owned(items[n]));
      }
    }
  }

  lemma Link(n: Store, n0: Store, n1: Store, a: Store, b: Store)
    requires n0 <= n + a && n1 <= n0 + b
    ensures n1 <= n + (a + b)
  {}

  lemma EntryMarksAreOwned(before: seq<Mark>, en: Entry)
    ensures MarkedNodes(EntryMarks(before, en)) <= MarkedNodes(before) + OwnedEntry(en)
  {
    match en
    case StringE(_) =>
    case ExprE(t, _) => MarksAreOwned(before, t);
    case ListE(ts, _) => MarksVectorAreOwned(before, ts);
    case ArmsE(t, _) => MarksAreOwned(before, t);
  }

  lemma {:induction false} AllMarksAreOwned(es: List<Entry>)
    ensures MarkedNodes(MarksAll(es)) <= OwnedAll(es)
  {
    match es
    case Nil =>
    case Cons(en, rest) =>
      AllMarksAreOwned(rest);
      EntryMarksAreOwned(MarksAll(rest), en);
  }

  lemma OnceMeansDistinct(params: seq<Memory.Expr>)
    requires forall x :: x in params ==> multiset(params)[x] == 1
    ensures Distinct(params)
  {
    forall i, j | 0 <= i < j < |params| ensures params[i] != params[j] {
      assert params == params[..i] + [params[i]] + params[i + 1..];
      assert params[j] == params[i + 1..][j - i - 1];
      assert multiset(params)[params[i]] == multiset(params[..i])[params[i]] + 1 + multiset(params[i + 1..])[params[i]];
      assert params[j] in multiset(params[i + 1..]);
    }
  }

  /** The parameters of all values on the stack are distinct nodes that the values own. */
  lemma ParametersAreDistinct(es: List<Entry>, params: seq<Memory.Expr>, base: Store)
    requires Sane(OwnedAll(es) + base) && MarksAll(es) == Numbered(params)
    ensures Distinct(params) && forall x | x in params :: x in OwnedAll(es) && x !in base
  {
    AllMarksAreOwned(es);
    NumberedNodes(params);
    hide OwnedAll, MarksAll, MarkedNodes, Numbered;
    forall x | x in params ensures multiset(params)[x] == 1 && x in OwnedAll(es) && x !in base {
      assert x in multiset(params);
      assert (OwnedAll(es) + base)[x as object] == OwnedAll(es)[x as object] + base[x as object];
    }
    OnceMeansDistinct(params);
  }

  // ----- the parameters carry their index -----

  /** What the marks say is written in the nodes. */
  ghost predicate Written(ms: seq<Mark>)
    reads set i | 0 <= i < |ms| :: ms[i].node
  {
    forall i | 0 <= i < |ms| :: ms[i].node.type_ == KParameter && ms[i].node.ival2 == ms[i].index
  }

  lemma {:induction false} MarksAreWritten(before: seq<Mark>, t: Tree)
    requires Linked(t) && Written(before)
    ensures Written(Marks(before, t))
    decreases t, 1
  {
    match t
    case NullTree =>
    case Tree(node, e, list, e2, escape, own, param) =>
      var m0 := if param.Some? then before + [Mark(node, param.value)] else before;
      var m1 := Marks(m0, e);
      var m2 := MarksVector(m1, list);
      MarksAreWritten(m0, e);
      if list.Vector? {
        MarksItemsAreWritten(m1, list.items, list.vec.items);
      }
      MarksAreWritten(m2, e2);
      MarksAreWritten(Marks(m2, e2), escape);
  }

  lemma {:induction false} MarksItemsAreWritten(before: seq<Mark>, items: seq<Tree>, refs: seq<Memory.Expr>)
    requires LinkedItems(items, refs) && Written(before)
    ensures Written(MarksItems(before, items))
    decreases items, 0
  {
    if items != [] {
      var n := |items| - 1;
      MarksItemsAreWritten(before, items[..n], refs[..n]);
      MarksAreWritten(MarksItems(before, items[..n]), items[n]);
    }
  }

  lemma {:induction false} AllMarksAreWritten(vs: List<Value>, es: List<Entry>)
    requires AllGood(vs, es)
    ensures Written(MarksAll(es))
  {
    if es.Cons? {
      hide Marks, Linked, Represents, MarksAll;
      AllMarksAreWritten(vs.tail, es.tail);
      EntryMarksAreWritten(MarksAll(es.tail), vs.head, es.head);
      assert MarksAll(es) == EntryMarks(MarksAll(es.tail), es.head);
    }
  }

  lemma EntryMarksAreWritten(before: seq<Mark>, v: Value, en: Entry)
    requires Good(v, en) && Written(before)
    ensures Written(EntryMarks(before, en))
  {
    match en
    case StringE(_) =>
    case ExprE(t, _) => MarksAreWritten(before, t);
    case ListE(ts, _) => MarksItemsAreWritten(before, ts.items, ts.vec.items);
    case ArmsE(t, _) => MarksAreWritten(before, t);
  }

  // ----- the order of the parameters -----

  /** From the `from`-th mark on every mark has its own place as its index. */
  ghost predicate InOrder(ms: seq<Mark>, from: nat) {
    forall i | from <= i < |ms| :: ms[i].index == i
  }

  lemma {:induction false} MarksExtend(before: seq<Mark>, t: Tree)
    ensures before <= Marks(before, t)
    decreases t, 1
  {
    match t
    case NullTree =>
    case Tree(node, e, list, e2, escape, _, param) =>
      var m0 := if param.Some? then before + [Mark(node, param.value)] else before;
      var m1 := Marks(m0, e);
      var m2 := MarksVector(m1, list);
      MarksExtend(m0, e);
      if list.Vector? {
        MarksItemsExtend(m1, list.items);
      }
      MarksExtend(m2, e2);
      MarksExtend(Marks(m2, e2), escape);
  }

  lemma {:induction false} MarksItemsExtend(before: seq<Mark>, items: seq<Tree>)
    ensures before <= MarksItems(before, items)
    decreases items, 0
  {
    if items != [] {
      var n := |items| - 1;
      MarksItemsExtend(before, items[..n]);
      MarksExtend(MarksItems(before, items[..n]), items[n]);
    }
  }

  ghost function First(t: Tree): Tree {
    if t.Tree? then t.expr else NullTree
  }

  ghost function Second(t: Tree): Tree {
    if t.Tree? then t.expr2 else NullTree
  }

  ghost function ItemsOf(t: Tree): seq<Tree> {
    if t.Tree? && t.list.Vector? then t.list.items else []
  }

  ghost function Item(t: Tree, i: nat): Tree {
    if i < |ItemsOf(t)| then ItemsOf(t)[i] else NullTree
  }

  /** A heap tree for `n`, read with numbers for its parameters: each parameter node takes the number
      that its own index points to. */
  ghost function Fill(t: Tree, n: Node, v: Texts): Node
    decreases n
  {
    match n
    case Parameter => if t.Tree? && t.param.Some? && t.param.value < |v| then IntLiteral(v[t.param.value]) else n
    case FunctionRef(f, distinct, args) => FunctionRef(f, distinct, FillList(ItemsOf(t), args, v))
    case OpUnary(op, a) => OpUnary(op, Fill(First(t), a, v))
    case OpBinary(l, op, r) => OpBinary(Fill(First(t), l, v), op, Fill(Second(t), r, v))
    case OpAnd(l, r) => OpAnd(Fill(First(t), l, v), Fill(Second(t), r, v))
    case OpOr(l, r) => OpOr(Fill(First(t), l, v), Fill(Second(t), r, v))
    case OpBetween(a, lo, hi) => OpBetween(Fill(First(t), a, v), Fill(Item(t, 0), lo, v), Fill(Item(t, 1), hi, v))
    case OpCase(base, arms, otherwise) =>
      OpCase(FillOpt(First(t), base, v), FillArms(ItemsOf(t), arms, v), FillOpt(Second(t), otherwise, v))
    case OpIn(a, items) => OpIn(Fill(First(t), a, v), FillList(ItemsOf(t), items, v))
    case OpInSelect(a, id) => OpInSelect(Fill(First(t), a, v), id)
    case _ => n
  }

  ghost function FillOpt(t: Tree, n: OptNode, v: Texts): OptNode
    decreases n
  {
    if n.NoNode? then n else SomeNode(Fill(t, n.node, v))
  }

  ghost function FillList(items: seq<Tree>, ns: NodeList, v: Texts): NodeList
    decreases ns
  {
    if ns.NoNodes? || items == [] then ns
    else
      var n := |items| - 1;
      Nodes(FillList(items[..n], ns.init, v), Fill(items[n], ns.last, v), ns.alias)
  }

  ghost function FillArms(items: seq<Tree>, ns: NodeArms, v: Texts): NodeArms
    decreases ns
  {
    if ns.NoNodeArms? || items == [] then ns
    else
      var n := |items| - 1;
      NodeArm(FillArms(items[..n], ns.init, v), Fill(First(items[n]), ns.when, v), Fill(Second(items[n]), ns.then_, v))
  }

  /** Marks that stand in order up to `later` stand in order up to any place in between. */
  lemma OrderSplits(before: seq<Mark>, between: seq<Mark>, later: seq<Mark>)
    requires before <= between <= later && InOrder(later, |before|)
    ensures InOrder(between, |before|) && InOrder(later, |between|)
  {
    forall i | |before| <= i < |between| ensures between[i].index == i {
      assert between[i] == later[i];
    }
  }

  lemma MarksByParts(before: seq<Mark>, t: Tree, n: Node, alias: Option<string>)
    requires Linked(t) && Represents(t, n, alias) && !n.Parameter?
    ensures Marks(before, t) == Marks(MarksVector(Marks(before, t.expr), t.list), t.expr2)
    ensures Linked(t.expr) && LinkedVector(t.list) && Linked(t.expr2) && Children(t.expr, t.list, t.expr2, n)
  {
  }

  /** Filling a tree by the indices in its parameter nodes is binding its node from left to right, if the
      marks are numbered in their order. */
  lemma {:induction false} FillIsBind(before: seq<Mark>, t: Tree, n: Node, alias: Option<string>, v: Texts)
    requires Linked(t) && Represents(t, n, alias) && InOrder(Marks(before, t), |before|)
    ensures |Marks(before, t)| == |before| + Slots(n) && Fill(t, n, v) == BindNode(n, v, |before|)
    decreases n, 3
  {
    if n.Parameter? {
      assert Marks(before, t) == before + [Mark(t.node, t.param.value)];
      assert Marks(before, t)[|before|].index == |before|;
    } else {
      MarksByParts(before, t, n, alias);
      ChildrenFill(before, t, n, v);
    }
  }

  /** The marks behind the children of a node. */
  ghost function ChildMarks(before: seq<Mark>, t: Tree): seq<Mark>
    requires t.Tree?
  {
    Marks(MarksVector(Marks(before, t.expr), t.list), t.expr2)
  }

  lemma ChildrenInOrder(before: seq<Mark>, t: Tree)
    requires t.Tree? && InOrder(ChildMarks(before, t), |before|)
    ensures var m1 := Marks(before, t.expr);
            var m2 := MarksVector(m1, t.list);
            InOrder(m1, |before|) && InOrder(m2, |m1|) && InOrder(Marks(m2, t.expr2), |m2|)
  {
    hide InOrder;
    var m1 := Marks(before, t.expr);
    var m2 := MarksVector(m1, t.list);
    var m3 := Marks(m2, t.expr2);
    MarksExtend(before, t.expr);
    VectorExtends(m1, t.list);
    MarksExtend(m2, t.expr2);
    hide Marks, MarksVector;
    OrderSplits(before, m1, m3);
    OrderSplits(m1, m2, m3);
  }

  lemma NoMarks(before: seq<Mark>)
    ensures Marks(before, NullTree) == before
  {}

  ghost predicate Filled(before: seq<Mark>, t: Tree, n: Node, v: Texts)
    requires t.Tree?
  {
    |ChildMarks(before, t)| == |before| + Slots(n) && Fill(t, n, v) == BindNode(n, v, |before|)
  }

  lemma {:induction false} ChildrenFill(before: seq<Mark>, t: Tree, n: Node, v: Texts)
    requires t.Tree? && Linked(t.expr) && LinkedVector(t.list) && Linked(t.expr2)
    requires Children(t.expr, t.list, t.expr2, n) && !n.Parameter? && InOrder(ChildMarks(before, t), |before|)
    ensures Filled(before, t, n, v)
    decreases n, 2
  {
    if n.OpBinary? || n.OpAnd? || n.OpOr? {
      PairFills(before, t, n, n.expr, n.expr2, v);
    } else if n.OpUnary? || n.OpInSelect? {
      FillIsBind(before, t.expr, n.expr, None, v);
    } else if n.OpBetween? {
      BetweenFills(before, t, n, v);
    } else if n.OpCase? {
      CaseFills(before, t, n, v);
    } else if n.OpIn? {
      InFills(before, t, n, v);
    } else if n.FunctionRef? {
      CallFills(before, t, n, v);
    }
  }

  lemma {:induction false} PairFills(before: seq<Mark>, t: Tree, n: Node, l: Node, r: Node, v: Texts)
    requires t.Tree? && Linked(t.expr) && LinkedVector(t.list) && Linked(t.expr2)
    requires Children(t.expr, t.list, t.expr2, n) && InOrder(ChildMarks(before, t), |before|)
    requires n == OpAnd(l, r) || n == OpOr(l, r) || (n.OpBinary? && n.expr == l && n.expr2 == r)
    ensures Filled(before, t, n, v)
    decreases n, 1
  {
    hide Marks, Linked, Represents;
    ChildrenInOrder(before, t);
    hide InOrder;
    FillIsBind(before, t.expr, l, None, v);
    FillIsBind(MarksVector(Marks(before, t.expr), t.list), t.expr2, r, None, v);
    PairNode(t, n, l, r, v, |before|);
  }

  lemma PairNode(t: Tree, n: Node, l: Node, r: Node, v: Texts, k: nat)
    requires t.Tree? && (n == OpAnd(l, r) || n == OpOr(l, r) || (n.OpBinary? && n.expr == l && n.expr2 == r))
    requires Fill(t.expr, l, v) == BindNode(l, v, k) && Fill(t.expr2, r, v) == BindNode(r, v, k + Slots(l))
    ensures Fill(t, n, v) == BindNode(n, v, k) && Slots(n) == Slots(l) + Slots(r)
  {}

  lemma {:induction false} BetweenFills(before: seq<Mark>, t: Tree, n: Node, v: Texts)
    requires t.Tree? && Linked(t.expr) && LinkedVector(t.list) && Linked(t.expr2)
    requires Children(t.expr, t.list, t.expr2, n) && InOrder(ChildMarks(before, t), |before|)
    requires n.OpBetween?
    ensures Filled(before, t, n, v)
    decreases n, 1
  {
    hide Marks, Linked, Represents, HasHead, RepresentsOpt, BindList;
    ChildrenInOrder(before, t);
    hide InOrder;
    FillIsBind(before, t.expr, n.expr, None, v);
    BoundsFill(Marks(before, t.expr), t, n, v);
    NoMarks(MarksVector(Marks(before, t.expr), t.list));
  }

  lemma {:induction false} CaseFills(before: seq<Mark>, t: Tree, n: Node, v: Texts)
    requires t.Tree? && Linked(t.expr) && LinkedVector(t.list) && Linked(t.expr2)
    requires Children(t.expr, t.list, t.expr2, n) && InOrder(ChildMarks(before, t), |before|)
    requires n.OpCase?
    ensures Filled(before, t, n, v)
    decreases n, 1
  {
    hide Marks, Linked, Represents;
    ChildrenInOrder(before, t);
    hide InOrder;
    var m1 := Marks(before, t.expr);
    OptFills(before, t.expr, n.base, v);
    ArmsFill(m1, t.list.items, t.list.vec.items, n.arms, v);
    OptFills(MarksVector(m1, t.list), t.expr2, n.otherwise, v);
  }

  lemma {:induction false} InFills(before: seq<Mark>, t: Tree, n: Node, v: Texts)
    requires t.Tree? && Linked(t.expr) && LinkedVector(t.list) && Linked(t.expr2)
    requires Children(t.expr, t.list, t.expr2, n) && InOrder(ChildMarks(before, t), |before|)
    requires n.OpIn?
    ensures Filled(before, t, n, v)
    decreases n, 1
  {
    hide Marks, Linked, Represents, Fill, BindNode, Slots, FillList, BindList;
    ChildrenInOrder(before, t);
    hide InOrder;
    var m1 := Marks(before, t.expr);
    FillIsBind(before, t.expr, n.expr, None, v);
    if n.items.Nodes? {
      ListFills(m1, t.list.items, t.list.vec.items, n.items, v);
    }
    NoMarks(MarksVector(m1, t.list));
    InNode(t, n, v, |before|);
  }

  lemma InNode(t: Tree, n: Node, v: Texts, k: nat)
    requires t.Tree? && n.OpIn? && Fill(t.expr, n.expr, v) == BindNode(n.expr, v, k)
    requires n.items.Nodes? ==> FillList(ItemsOf(t), n.items, v) == BindList(n.items, v, k + Slots(n.expr))
    ensures Fill(t, n, v) == BindNode(n, v, k) && Slots(n) == Slots(n.expr) + SlotsList(n.items)
  {}

  lemma {:induction false} CallFills(before: seq<Mark>, t: Tree, n: Node, v: Texts)
    requires t.Tree? && Linked(t.expr) && LinkedVector(t.list) && Linked(t.expr2)
    requires Children(t.expr, t.list, t.expr2, n) && InOrder(ChildMarks(before, t), |before|)
    requires n.FunctionRef?
    ensures Filled(before, t, n, v)
    decreases n, 1
  {
    ChildrenInOrder(before, t);
    hide InOrder, Linked, Represents;
    ListFills(before, t.list.items, t.list.vec.items, n.args, v);
  }

  lemma VectorExtends(before: seq<Mark>, ts: Trees)
    ensures before <= MarksVector(before, ts)
  {
    if ts.Vector? {
      MarksItemsExtend(before, ts.items);
    }
  }

  lemma {:induction false} BoundsFill(before: seq<Mark>, t: Tree, n: Node, v: Texts)
    requires t.Tree? && n.OpBetween? && LinkedVector(t.list) && RepresentsBoundVector(t.list, n)
    requires InOrder(MarksVector(before, t.list), |before|)
    ensures |MarksVector(before, t.list)| == |before| + Slots(n.low) + Slots(n.high)
    ensures Fill(Item(t, 0), n.low, v) == BindNode(n.low, v, |before|)
    ensures Fill(Item(t, 1), n.high, v) == BindNode(n.high, v, |before| + Slots(n.low))
    decreases n, 0
  {
    hide Linked, Fill, BindNode, Slots, Represents;
    var items := t.list.items;
    var m1 := Marks(before, items[0]);
    var m2 := Marks(m1, items[1]);
    assert items[..1] == [items[0]] && items[..1][..0] == [];
    assert MarksItems(before, items[..1]) == m1;
    assert MarksVector(before, t.list) == MarksItems(before, items) == m2;
    MarksExtend(before, items[0]);
    MarksExtend(m1, items[1]);
    OrderSplits(before, m1, m2);
    FillIsBind(before, items[0], n.low, None, v);
    FillIsBind(m1, items[1], n.high, None, v);
  }

  lemma {:induction false} OptFills(before: seq<Mark>, t: Tree, n: OptNode, v: Texts)
    requires Linked(t) && RepresentsOpt(t, n) && InOrder(Marks(before, t), |before|)
    ensures |Marks(before, t)| == |before| + SlotsOpt(n) && FillOpt(t, n, v) == BindOptNode(n, v, |before|)
    decreases n, 4
  {
    if n.SomeNode? {
      FillIsBind(before, t, n.node, None, v);
    }
  }

  lemma {:induction false} ListFills(before: seq<Mark>, items: seq<Tree>, refs: seq<Memory.Expr>, ns: NodeList,
                                     v: Texts)
    requires LinkedItems(items, refs) && RepresentsList(items, ns) && InOrder(MarksItems(before, items), |before|)
    ensures |MarksItems(before, items)| == |before| + SlotsList(ns)
    ensures FillList(items, ns, v) == BindList(ns, v, |before|)
    decreases ns, 0
  {
    hide Linked, Represents, Fill, BindNode, Slots;
    if ns.Nodes? {
      var k := |items| - 1;
      var m1 := MarksItems(before, items[..k]);
      MarksItemsExtend(before, items[..k]);
      MarksExtend(m1, items[k]);
      OrderSplits(before, m1, Marks(m1, items[k]));
      ListFills(before, items[..k], refs[..k], ns.init, v);
      FillIsBind(m1, items[k], ns.last, ns.alias, v);
    }
  }

  lemma {:induction false} ArmsFill(before: seq<Mark>, items: seq<Tree>, refs: seq<Memory.Expr>, ns: NodeArms,
                                    v: Texts)
    requires LinkedItems(items, refs) && RepresentsArms(items, ns) && InOrder(MarksItems(before, items), |before|)
    ensures |MarksItems(before, items)| == |before| + SlotsArms(ns)
    ensures FillArms(items, ns, v) == BindNodeArms(ns, v, |before|)
    decreases ns, 1
  {
    hide Linked, Represents, Fill, BindNode, Slots, Marks, RepresentsArm;
    if ns.NodeArm? {
      var k := |items| - 1;
      var m1 := MarksItems(before, items[..k]);
      MarksItemsExtend(before, items[..k]);
      MarksExtend(m1, items[k]);
      OrderSplits(before, m1, Marks(m1, items[k]));
      ArmsFill(before, items[..k], refs[..k], ns.init, v);
      ArmFills(m1, items[k], ns, v);
    }
  }

  lemma {:induction false} ArmFills(before: seq<Mark>, t: Tree, ns: NodeArms, v: Texts)
    requires ns.NodeArm? && Linked(t) && RepresentsArm(t, ns) && InOrder(Marks(before, t), |before|)
    ensures |Marks(before, t)| == |before| + Slots(ns.when) + Slots(ns.then_)
    ensures Fill(First(t), ns.when, v) == BindNode(ns.when, v, |before|)
    ensures Fill(Second(t), ns.then_, v) == BindNode(ns.then_, v, |before| + Slots(ns.when))
    decreases ns, 0
  {
    hide Represents, Fill, BindNode, Slots;
    var m1 := Marks(before, t.expr);
    assert MarksVector(m1, t.list) == m1;
    assert Marks(before, t) == Marks(m1, t.expr2);
    MarksExtend(before, t.expr);
    MarksExtend(m1, t.expr2);
    OrderSplits(before, m1, Marks(m1, t.expr2));
    FillIsBind(before, t.expr, ns.when, None, v);
    FillIsBind(m1, t.expr2, ns.then_, None, v);
  }
}
