/**
 Each semantic action on the heap: what it does to the value stack is what `Actions.Perform` says, it
 keeps the ownership invariant, and it touches only objects that the stack owns.
 */
module HeapActions {
  import opened Tokens
  import opened Ast
  import opened Memory
  import opened Nodes
  import opened Actions
  import opened Values
  import opened Shapes

  method NewString(live: Store, text: Option<string>) returns (s: CString?, after: Store)
    requires Sane(live)
    ensures TextOf(s) == text && after == live + One(s)
    ensures Sane(after)
    ensures forall o | o in after :: o in live || fresh(o)
  {
    s, after := null, live;
    if text.Some? {
      s := new CString(text.value);
      SaneNew(live, s);
      after := live + multiset{s};
    }
  }

  method NewSelect(live: Store, id: Option<nat>) returns (s: SelectStatement?, after: Store)
    requires Sane(live)
    ensures IdOf(s) == id && after == live + One(s)
    ensures Sane(after)
    ensures forall o | o in after :: o in live || fresh(o)
  {
    s, after := null, live;
    if id.Some? {
      s := new SelectStatement(id.value);
      SaneNew(live, s);
      after := live + multiset{s};
    }
  }

  /** The string of a name token. */
  method DoName(st: State, text: string, ghost es: List<Entry>, ghost base: Store)
    returns (after: State, ghost es': List<Entry>)
    requires Holds(st, es, base)
    ensures Holds(after, es', base) && after.params == st.params
    ensures forall o | o in after.live :: o in st.live || fresh(o)
    ensures Does(Name(text), Meanings(es), Meanings(es'))
  {
    assert allocated(FeetAll(es));
    var s := new CString(text);
    SaneNew(st.live, s);
    after := State(Cons(StringV(s), st.values), st.live + multiset{s}, st.params);
    es' := Cons(StringE(s), es);
  }

  lemma AtomHead(n: Node)
    requires IsAtom(n)
    ensures Childless(n) && !HeadOf(n).distinct
  {}

  lemma LeavesOwn(own: Leaves)
    ensures own.alias == null ==> OwnedLeaves(own) == One(own.select) + One(own.name) + One(own.table)
  {}

  /** The strings and the nested select that a node takes over. */
  method NewLeaves(live: Store, h: Head)
    returns (name: CString?, table: CString?, select: SelectStatement?, after: Store, ghost own: Leaves)
    requires Sane(live)
    ensures own == Leaves(select, name, table, null)
    ensures TextOf(name) == h.name && TextOf(table) == h.table && IdOf(select) == h.select
    ensures after == live + OwnedLeaves(own) && Sane(after)
    ensures forall o | o in after :: o in live || fresh(o)
  {
    hide One, Sane;
    select, after := NewSelect(live, h.select);
    name, after := NewString(after, h.name);
    table, after := NewString(after, h.table);
    own := Leaves(select, name, table, null);
    LeavesOwn(own);
  }

  method DoAtom(st: State, n: Node, ghost es: List<Entry>, ghost base: Store)
    returns (after: State, ghost es': List<Entry>)
    requires Holds(st, es, base) && Applies(Atom(n), Meanings(es)) && !n.Parameter?
    ensures Holds(after, es', base) && after.params == st.params
    ensures forall o | o in after.live :: o in st.live || fresh(o)
    ensures Does(Atom(n), Meanings(es), Meanings(es'))
  {
    hide Accounts, Owned, OwnedLeaves, Marks, Linked, Represents, OwnedAll, MarksAll, IsAtom, HeadOf, Childless,
        HasHead;
    AtomHead(n);
    assert allocated(FeetAll(es));
    var h := HeadOf(n);
    ghost var t, own;
    var e, name, table, select, live;
    name, table, select, live, own := NewLeaves(st.live, h);
    ghost var before := live;
    e, live, t := MakeAtom(live, h.type_, h.opType, h.number, name, table, select, n);
    SaneNew(before, e);
    AtomAccounts(e, own, n, es);
    after := State(Cons(ExprV(e), st.values), live, st.params);
    es' := Cons(ExprE(t, n), es);
    Replaced(st, es, base, OwnedLeaves(own) + One(e), live, ExprV(e), st.values, es'.head, es);
  }

  lemma ParameterAccounts(e: Memory.Expr, params: seq<Memory.Expr>, es: List<Entry>)
    requires MarksAll(es) == Numbered(params)
    ensures var t := Tree(e, NullTree, NullVector, NullTree, NullTree, NO_LEAVES, Some(|params|));
            && OwnedAll(Cons(ExprE(t, Parameter), es)) == OwnedAll(es) + One(e)
            && MarksAll(Cons(ExprE(t, Parameter), es)) == Numbered(params + [e])
  {
    var t := Tree(e, NullTree, NullVector, NullTree, NullTree, NO_LEAVES, Some(|params|));
    assert Owned(t) == One(e);
    assert Marks(MarksAll(es), t) == MarksAll(es) + [Mark(e, |params|)];
    assert Numbered(params + [e]) == Numbered(params) + [Mark(e, |params|)];
  }

  /** `param_expr`: the new parameter takes the next index and is appended to `param_list`. Its
      provisional number is a column, which the tokens here do not carry. */
  method DoParameter(st: State, ghost es: List<Entry>, ghost base: Store) returns (after: State, ghost es': List<Entry>)
    requires Holds(st, es, base)
    ensures Holds(after, es', base) && |after.params| == |st.params| + 1
    ensures forall o | o in after.live :: o in st.live || fresh(o)
    ensures Does(Atom(Parameter), Meanings(es), Meanings(es'))
  {
    hide Owned, OwnedLeaves, Marks, Linked, Represents, OwnedAll, MarksAll, Numbered;
    assert allocated(FeetAll(es));
    ghost var t;
    var e, live;
    var totalColumn: int := *;
    e, live, t := MakeParameter(st.live, totalColumn, |st.params|);
    ParameterAccounts(e, st.params, es);
    SaneNew(st.live, e);
    after := State(Cons(ExprV(e), st.values), live, st.params + [e]);
    es' := Cons(ExprE(t, Parameter), es);
    Pushed(ExprV(e), es'.head, st.values, es, live, base, after.params);
  }

  method DoUnary(st: State, op: UnaryOp, ghost es: List<Entry>, ghost base: Store)
    returns (after: State, ghost es': List<Entry>)
    requires Holds(st, es, base) && Applies(Unary(op), Meanings(es))
    ensures Holds(after, es', base) && after.params == st.params
    ensures forall o | o in after.live :: o in st.live || fresh(o)
    ensures Does(Unary(op), Meanings(es), Meanings(es'))
  {
    hide Accounts, Owned, OwnedLeaves, Marks, Linked, Represents, OwnedAll, MarksAll;
    Popped(st, es, base);
    ghost var a, n := es.head.tree, es.head.node;
    assert allocated(FeetAll(es.tail));
    ghost var t;
    var e, live;
    e, live, t := MakeOpUnary(st.live, op, st.values.head.expr, a, n);
    NothingOwned();
    UnaryAccounts(e, a, NO_LEAVES, n, OpUnary(op, n), es.tail);
    SaneNew(st.live, e);
    after := State(Cons(ExprV(e), st.values.tail), live, st.params);
    es' := Cons(ExprE(t, OpUnary(op, n)), es.tail);
    Replaced(st, es, base, OwnedLeaves(NO_LEAVES) + One(e), live, ExprV(e), st.values.tail, es'.head, es.tail);
  }

  /** The binary makers; `n` is the node to make of the two expressions on top. */
  method DoBinary(st: State, op: OperatorType, ghost n: Node, ghost es: List<Entry>, ghost base: Store)
    returns (after: State, ghost es': List<Entry>)
    requires Holds(st, es, base) && TwoExprs(Meanings(es))
    requires (n.OpBinary? || n.OpAnd? || n.OpOr?) && op == HeadOf(n).opType
    requires Meanings(es).head == ExprM(n.expr2) && Meanings(es).tail.head == ExprM(n.expr)
    ensures Holds(after, es', base) && after.params == st.params
    ensures forall o | o in after.live :: o in st.live || fresh(o)
    ensures Meanings(es') == Cons(ExprM(n), Meanings(es).tail.tail)
  {
    hide Accounts, Owned, OwnedLeaves, Marks, Linked, Represents, OwnedAll, MarksAll, Numbered;
    PoppedTwo(st, es, base);
    ghost var a, b, rest := es.tail.head.tree, es.head.tree, es.tail.tail;
    assert allocated(FeetAll(rest));
    ghost var t;
    var e, live;
    e, live, t := MakeOpBinary(st.live, st.values.tail.head.expr, op, st.values.head.expr, a, b, n);
    BinaryAccounts(e, a, b, n.expr, n.expr2, n, rest);
    SaneNew(st.live, e);
    after := State(Cons(ExprV(e), st.values.tail.tail), live, st.params);
    es' := Cons(ExprE(t, n), rest);
    Replaced(st, es, base, One(e), live, ExprV(e), st.values.tail.tail, es'.head, rest);
  }

  method DoBetween(st: State, ghost es: List<Entry>, ghost base: Store) returns (after: State, ghost es': List<Entry>)
    requires Holds(st, es, base) && Applies(BetweenAction, Meanings(es))
    ensures Holds(after, es', base) && after.params == st.params
    ensures forall o | o in after.live :: o in st.live || fresh(o)
    ensures Does(BetweenAction, Meanings(es), Meanings(es'))
  {
    hide Accounts, Owned, OwnedLeaves, Marks, Linked, Represents, OwnedAll, MarksAll, Numbered;
    PoppedThree(st, es, base);
    ghost var a, b, c, rest := es.tail.tail.head.tree, es.tail.head.tree, es.head.tree, es.tail.tail.tail;
    ghost var n := OpBetween(es.tail.tail.head.node, es.tail.head.node, es.head.node);
    var vs := st.values;
    assert allocated(FeetAll(rest));
    ghost var t;
    var e, live;
    e, live, t := MakeBetween(st.live, vs.tail.tail.head.expr, vs.tail.head.expr, vs.head.expr, a, b, c, n);
    BetweenAccounts(e, e.exprList, a, b, c, n.expr, n.low, n.high, n, rest);
    SaneNew(st.live, e.exprList);
    SaneNew(st.live + One(e.exprList), e);
    after := State(Cons(ExprV(e), vs.tail.tail.tail), live, st.params);
    es' := Cons(ExprE(t, n), rest);
    Replaced(st, es, base, One(e.exprList) + One(e), live, ExprV(e), vs.tail.tail.tail, es'.head, rest);
  }

  // ----- expression lists -----

  /** The string of the alias becomes a child of the list element. */
  method AliasElement(live: Store, e: Memory.Expr, alias: Option<string>, ghost t: Tree, ghost n: Node,
                      ghost rest: Store)
    returns (s: CString?, after: Store, ghost t': Tree)
    requires Built(t, e, n) && Sane(live) && live == Owned(t) + rest
    modifies e
    ensures t.own.alias == null && t' == Aliased(t, s) && Ref(t') == e && Linked(t') && Represents(t', n, alias)
    ensures after == live + One(s) && Sane(after)
    ensures forall o | o in after :: o in live || fresh(o)
  {
    hide Owned, Linked;
    NodeApart(t, rest);
    assert allocated(Feet(t));
    s, after := NewString(live, alias);
    SetAlias(e, s, t, n);
    t' := Aliased(t, s);
  }

  /** Gives the expression on top its alias; the values below it stay as they are. */
  method AliasTop(st: State, alias: Option<string>, ghost es: List<Entry>, ghost base: Store)
    returns (s: CString?, live: Store, ghost t': Tree)
    requires Holds(st, es, base) && Meanings(es).Cons? && Meanings(es).head.ExprM?
    modifies FeetAll(es)
    ensures es.Cons? && es.head.ExprE? && es.head.tree.Tree? && es.head.tree.own.alias == null
    ensures st.values.Cons? && st.values.head.ExprV? && AllGood(st.values.tail, es.tail)
    ensures t' == Aliased(es.head.tree, s) && Ref(t') == st.values.head.expr && Linked(t')
              && Represents(t', es.head.node, alias)
    ensures live == st.live + One(s) && Sane(live)
    ensures forall o | o in live :: o in st.live || fresh(o)
  {
    hide Owned, OwnedVector, Marks, Linked, Represents, OwnedAll, MarksAll, Numbered;
    Popped(st, es, base);
    BelowApart(es, base);
    assert allocated(FeetAll(es.tail));
    s, live, t' := AliasElement(st.live, st.values.head.expr, alias, es.head.tree, es.head.node,
                                OwnedAll(es.tail) + base);
  }

  /** `expr_list` with one element. */
  method DoFirstItem(st: State, alias: Option<string>, ghost es: List<Entry>, ghost base: Store)
    returns (after: State, ghost es': List<Entry>)
    requires Holds(st, es, base) && Applies(FirstItem(alias), Meanings(es))
    modifies FeetAll(es)
    ensures Holds(after, es', base) && after.params == st.params
    ensures forall o | o in after.live :: o in st.live || fresh(o)
    ensures Does(FirstItem(alias), Meanings(es), Meanings(es'))
  {
    hide Accounts, Owned, OwnedVector, Marks, Linked, Represents, LinkedVector, RepresentsVector, OwnedAll,
        MarksAll, Numbered;
    Popped(st, es, base);
    ghost var t';
    var s, live, v;
    s, live, t' := AliasTop(st, alias, es, base);
    assert allocated(FeetAll(es.tail));
    ghost var n := es.head.node;
    v, live := NewList(live, st.values.head.expr, t', n, alias);
    FirstItemAccounts(v, s, es.head.tree, n, Nodes(NoNodes, n, alias), es.tail);
    after := State(Cons(ListV(v), st.values.tail), live, st.params);
    es' := Cons(ListE(Vector(v, [t']), Nodes(NoNodes, n, alias)), es.tail);
    Replaced(st, es, base, One(s) + One(v), live, ListV(v), st.values.tail, es'.head, es.tail);
  }

  /** A new vector with one element. */
  method NewList(live: Store, e: Memory.Expr, ghost t: Tree, ghost n: Node, ghost alias: Option<string>)
    returns (v: ExprVector, after: Store)
    requires Ref(t) == e && Linked(t) && Represents(t, n, alias) && Sane(live)
    ensures LinkedVector(Vector(v, [t])) && RepresentsVector(Vector(v, [t]), Nodes(NoNodes, n, alias))
    ensures fresh(v) && after == live + One(v) && Sane(after)
    ensures forall o | o in after :: o in live || fresh(o)
  {
    hide Linked, Represents, LinkedVector, RepresentsVector;
    assert allocated(Feet(t));
    v, after := NewVector(live, [e]);
    SingleList(v, e, t, n, alias);
    SaneNew(live, v);
  }

  lemma SingleList(v: ExprVector, e: Memory.Expr, t: Tree, n: Node, alias: Option<string>)
    requires v.items == [e] && Ref(t) == e && Linked(t) && Represents(t, n, alias)
    ensures LinkedVector(Vector(v, [t])) && RepresentsVector(Vector(v, [t]), Nodes(NoNodes, n, alias))
  {
    assert [t][..0] == [];
  }

  /** The vector below the top of the stack belongs to one value only. */
  lemma ListApart(es: List<Entry>, base: Store)
    requires es.Cons? && es.tail.Cons? && es.tail.head.ListE? && es.tail.head.trees.Vector? && Sane(OwnedAll(es) + base)
    ensures var ts := es.tail.head.trees;
            ts.vec !in FeetItems(ts.items) && ts.vec !in FeetEntry(es.head) && ts.vec !in FeetAll(es.tail.tail)
  {
    var ts := es.tail.head.trees;
    BelowApart(es, base);
    assert ts.vec in FeetAll(es.tail);
    var rest := OwnedEntry(es.head) + OwnedAll(es.tail.tail) + base;
    assert OwnedAll(es) + base == OwnedVector(ts) + rest;
    VectorApart(ts, rest);
    FeetAllAreOwned(es.tail.tail);
    assert ts.vec in FeetVector(ts);
  }

  /** `expr_list` with one more element. */
  method DoNextItem(st: State, alias: Option<string>, ghost es: List<Entry>, ghost base: Store)
    returns (after: State, ghost es': List<Entry>)
    requires Holds(st, es, base) && Applies(NextItem(alias), Meanings(es))
    modifies FeetAll(es)
    ensures Holds(after, es', base) && after.params == st.params
    ensures forall o | o in after.live :: o in st.live || fresh(o)
    ensures Does(NextItem(alias), Meanings(es), Meanings(es'))
  {
    hide Accounts, Owned, OwnedVector, Marks, Linked, Represents, LinkedVector, RepresentsVector, OwnedAll,
        MarksAll, Numbered;
    PoppedTwo(st, es, base);
    ListApart(es, base);
    assert FeetAll(es) == FeetEntry(es.head) + (FeetEntry(es.tail.head) + FeetAll(es.tail.tail));
    ghost var n, ts, ns, rest := es.head.node, es.tail.head.trees, es.tail.head.nodes, es.tail.tail;
    var v := st.values.tail.head.list;
    ghost var t';
    var s, live;
    s, live, t' := AliasTop(st, alias, es, base);
    assert AllGood(st.values.tail.tail, rest) && Good(st.values.tail.head, es.tail.head);
    assert allocated(FeetAll(rest));
    PushBack(v, st.values.head.expr, ts, t', ns, n, alias);
    NextItemAccounts(v, ts.items, s, es.head.tree, n, ns, Nodes(ns, n, alias), rest);
    after := State(Cons(ListV(v), st.values.tail.tail), live, st.params);
    es' := Cons(ListE(Vector(v, ts.items + [t']), Nodes(ns, n, alias)), rest);
    Replaced(st, es, base, One(s), live, ListV(v), st.values.tail.tail, es'.head, rest);
  }

  // ----- function calls and IN -----

  lemma EmptyList(v: ExprVector)
    requires v.items == []
    ensures LinkedVector(Vector(v, [])) && RepresentsVector(Vector(v, []), NoNodes)
  {}

  /** A call without arguments. */
  method DoEmptyCall(st: State, ghost es: List<Entry>, ghost base: Store)
    returns (after: State, ghost es': List<Entry>)
    requires Holds(st, es, base) && Applies(EmptyCall, Meanings(es))
    ensures Holds(after, es', base) && after.params == st.params
    ensures forall o | o in after.live :: o in st.live || fresh(o)
    ensures Does(EmptyCall, Meanings(es), Meanings(es'))
  {
    hide Accounts, Owned, OwnedVector, OwnedLeaves, Marks, Linked, Represents, LinkedVector, RepresentsVector,
        OwnedAll, MarksAll, Numbered;
    Popped(st, es, base);
    ghost var rest := es.tail;
    var name := st.values.head.text;
    assert allocated(FeetAll(rest));
    ghost var n := FunctionRef(name.text, false, NoNodes);
    var v, live := NewVector(st.live, []);
    EmptyList(v);
    assert allocated(FeetVector(Vector(v, [])));
    var e; ghost var t;
    e, live, t := MakeWithList(live, KFunctionRef, KNone, null, v, null, name, false, NullTree, Vector(v, []), n);
    EmptyCallAccounts(e, v, name, n, rest);
    SaneNew(st.live, v);
    SaneNew(st.live + One(v), e);
    after := State(Cons(ExprV(e), st.values.tail), live, st.params);
    es' := Cons(ExprE(t, n), rest);
    Replaced(st, es, base, One(v) + One(e), live, ExprV(e), st.values.tail, es'.head, rest);
  }

  /** A call: the node takes over the name and the list. */
  method DoCall(st: State, distinct: bool, ghost es: List<Entry>, ghost base: Store)
    returns (after: State, ghost es': List<Entry>)
    requires Holds(st, es, base) && Applies(CallAction(distinct), Meanings(es))
    ensures Holds(after, es', base) && after.params == st.params
    ensures forall o | o in after.live :: o in st.live || fresh(o)
    ensures Does(CallAction(distinct), Meanings(es), Meanings(es'))
  {
    hide Accounts, Owned, OwnedVector, OwnedLeaves, Marks, Linked, Represents, LinkedVector, RepresentsVector,
        OwnedAll, MarksAll, Numbered;
    PoppedTwo(st, es, base);
    ghost var ts, ns, rest := es.head.trees, es.head.nodes, es.tail.tail;
    var name := st.values.tail.head.text;
    assert allocated(FeetAll(rest));
    ghost var n := FunctionRef(name.text, distinct, ns);
    var e, live; ghost var t;
    e, live, t := MakeWithList(st.live, KFunctionRef, KNone, null, st.values.head.list, null, name, distinct,
        NullTree, ts, n);
    CallAccounts(e, ts, name, ns, n, rest);
    SaneNew(st.live, e);
    after := State(Cons(ExprV(e), st.values.tail.tail), live, st.params);
    es' := Cons(ExprE(t, n), rest);
    Replaced(st, es, base, One(e), live, ExprV(e), st.values.tail.tail, es'.head, rest);
  }

  /** The node of an IN without a list: `n` is `IN ()` or `IN (select)`. */
  method NewIn(live: Store, expr: Memory.Expr, id: Option<nat>, ghost a: Tree, ghost n: Node)
    returns (e: Memory.Expr, after: Store, ghost t: Tree, ghost own: Leaves)
    requires (n.OpIn? && n.items.NoNodes? && id.None?) || (n.OpInSelect? && id == Some(n.id))
    requires Built(a, expr, n.expr) && Sane(live)
    ensures t == Branch(e, a, NullVector, NullTree, own) && Built(t, e, n)
    ensures after == live + (OwnedLeaves(own) + One(e)) && Sane(after)
    ensures forall o | o in after :: o in live || fresh(o)
  {
    hide Owned, Linked, Represents, LinkedVector, RepresentsVector;
    LinkedNothing();
    assert allocated(Feet(a));
    var select;
    select, after := NewSelect(live, id);
    ghost var before := after;
    e, after, t := MakeWithList(after, KOperator, KIn, expr, null, select, null, false, a, NullVector, n);
    own := Leaves(select, null, null, null);
    LeavesOwn(own);
    SaneNew(before, e);
  }

  /** `operand IN ()`. */
  method DoEmptyIn(st: State, ghost es: List<Entry>, ghost base: Store)
    returns (after: State, ghost es': List<Entry>)
    requires Holds(st, es, base) && Applies(EmptyIn, Meanings(es))
    ensures Holds(after, es', base) && after.params == st.params
    ensures forall o | o in after.live :: o in st.live || fresh(o)
    ensures Does(EmptyIn, Meanings(es), Meanings(es'))
  {
    hide Accounts, Owned, OwnedVector, OwnedLeaves, Marks, Linked, Represents, LinkedVector, RepresentsVector,
        OwnedAll, MarksAll, Numbered;
    Popped(st, es, base);
    ghost var a, rest := es.head.tree, es.tail;
    assert allocated(FeetAll(rest));
    ghost var n := OpIn(es.head.node, NoNodes);
    var e, live; ghost var t, own;
    e, live, t, own := NewIn(st.live, st.values.head.expr, None, a, n);
    UnaryAccounts(e, a, own, n.expr, n, rest);
    after := State(Cons(ExprV(e), st.values.tail), live, st.params);
    es' := Cons(ExprE(t, n), rest);
    Replaced(st, es, base, OwnedLeaves(own) + One(e), live, ExprV(e), st.values.tail, es'.head, rest);
  }

  /** `operand IN (select)`: the node takes over the nested select. */
  method DoSelectIn(st: State, id: nat, ghost es: List<Entry>, ghost base: Store)
    returns (after: State, ghost es': List<Entry>)
    requires Holds(st, es, base) && Applies(SelectIn(id), Meanings(es))
    ensures Holds(after, es', base) && after.params == st.params
    ensures forall o | o in after.live :: o in st.live || fresh(o)
    ensures Does(SelectIn(id), Meanings(es), Meanings(es'))
  {
    hide Accounts, Owned, OwnedVector, OwnedLeaves, Marks, Linked, Represents, LinkedVector, RepresentsVector,
        OwnedAll, MarksAll, Numbered;
    Popped(st, es, base);
    ghost var a, rest := es.head.tree, es.tail;
    assert allocated(FeetAll(rest));
    ghost var n := OpInSelect(es.head.node, id);
    var e, live; ghost var t, own;
    e, live, t, own := NewIn(st.live, st.values.head.expr, Some(id), a, n);
    UnaryAccounts(e, a, own, n.expr, n, rest);
    after := State(Cons(ExprV(e), st.values.tail), live, st.params);
    es' := Cons(ExprE(t, n), rest);
    Replaced(st, es, base, OwnedLeaves(own) + One(e), live, ExprV(e), st.values.tail, es'.head, rest);
  }

  /** `operand IN (expr_list)`. */
  method DoListIn(st: State, ghost es: List<Entry>, ghost base: Store)
    returns (after: State, ghost es': List<Entry>)
    requires Holds(st, es, base) && Applies(ListIn, Meanings(es))
    ensures Holds(after, es', base) && after.params == st.params
    ensures forall o | o in after.live :: o in st.live || fresh(o)
    ensures Does(ListIn, Meanings(es), Meanings(es'))
  {
    hide Accounts, Owned, OwnedVector, OwnedLeaves, Marks, Linked, Represents, LinkedVector, RepresentsVector,
        OwnedAll, MarksAll, Numbered;
    PoppedTwo(st, es, base);
    ghost var a, ts, ns, rest := es.tail.head.tree, es.head.trees, es.head.nodes, es.tail.tail;
    assert allocated(FeetAll(rest));
    ghost var n := OpIn(es.tail.head.node, ns);
    var e, live; ghost var t;
    e, live, t := MakeWithList(st.live, KOperator, KIn, st.values.tail.head.expr, st.values.head.list, null, null,
        false, a, ts, n);
    ListInAccounts(e, ts, a, n.expr, ns, n, rest);
    SaneNew(st.live, e);
    after := State(Cons(ExprV(e), st.values.tail.tail), live, st.params);
    es' := Cons(ExprE(t, n), rest);
    Replaced(st, es, base, One(e), live, ExprV(e), st.values.tail.tail, es'.head, rest);
  }

  lemma LinkedNothing()
    ensures LinkedVector(NullVector)
  {}

  // ----- CASE -----

  /** A shell around a vector with the first arm. */
  method NewShell(live: Store, element: Memory.Expr, ghost c: Tree, ghost w: Node, ghost th: Node)
    returns (l: Memory.Expr, v: ExprVector, after: Store, ghost t: Tree)
    requires Ref(c) == element && Linked(c) && RepresentsArm(c, NodeArm(NoNodeArms, w, th)) && Sane(live)
    ensures t == CaseList(l, v, [c]) && Ref(t) == l && Linked(t) && RepresentsCaseList(t, NodeArm(NoNodeArms, w, th))
    ensures after == live + (One(l) + One(v)) && Sane(after)
    ensures forall o | o in after :: o in live || fresh(o)
  {
    hide Owned, Linked, RepresentsCaseList, RepresentsArm;
    assert allocated(Feet(c));
    l, after, t := MakeCaseList(live, element, c, w, th);
    v := l.exprList;
    SaneNew(live, l);
    SaneNew(live + One(l), v);
  }

  /** The element of an arm takes the two expressions on top. */
  method NewElement(st: State, ghost es: List<Entry>, ghost base: Store)
    returns (e: Memory.Expr, live: Store, ghost t: Tree)
    requires Holds(st, es, base) && TwoExprs(Meanings(es))
    ensures es.Cons? && es.tail.Cons? && es.head.ExprE? && es.tail.head.ExprE?
    ensures st.values.Cons? && st.values.tail.Cons? && AllGood(st.values.tail.tail, es.tail.tail)
    ensures t == Branch(e, es.tail.head.tree, NullVector, es.head.tree, NO_LEAVES) && Ref(t) == e && Linked(t)
    ensures forall init :: RepresentsArm(t, NodeArm(init, es.tail.head.node, es.head.node))
    ensures fresh(e) && live == st.live + One(e) && Sane(live)
    ensures forall o | o in live :: o in st.live || fresh(o)
  {
    hide Owned, OwnedLeaves, Marks, Linked, Represents, RepresentsArm, OwnedAll, MarksAll, Numbered;
    PoppedTwo(st, es, base);
    assert allocated(FeetAll(es.tail.tail));
    e, live, t := MakeCaseListElement(st.live, st.values.tail.head.expr, st.values.head.expr,
                                      es.tail.head.tree, es.head.tree, es.tail.head.node, es.head.node);
    SaneNew(st.live, e);
  }

  method DoFirstArm(st: State, ghost es: List<Entry>, ghost base: Store) returns (after: State, ghost es': List<Entry>)
    requires Holds(st, es, base) && Applies(FirstArm, Meanings(es))
    ensures Holds(after, es', base) && after.params == st.params
    ensures forall o | o in after.live :: o in st.live || fresh(o)
    ensures Does(FirstArm, Meanings(es), Meanings(es'))
  {
    hide Accounts, Owned, OwnedLeaves, Marks, Linked, Represents, RepresentsArm, RepresentsCaseList, OwnedAll,
        MarksAll, Numbered;
    PoppedTwo(st, es, base);
    ghost var a, b, rest, w, th := es.tail.head.tree, es.head.tree, es.tail.tail, es.tail.head.node, es.head.node;
    ghost var c, t;
    var e, l, v, live;
    e, live, c := NewElement(st, es, base);
    ghost var before := live;
    assert allocated(FeetAll(rest));
    l, v, live, t := NewShell(live, e, c, w, th);
    ghost var ns := NodeArm(NoNodeArms, w, th);
    ghost var m := OpAnd(w, th);
    BinaryAccounts(e, a, b, w, th, m, rest);
    FirstArmAccounts(l, v, c, m, ns, rest);
    Chained(es, One(e), Cons(ExprE(c, m), rest), One(l) + One(v), Cons(ArmsE(t, ns), rest));
    after := State(Cons(ArmsV(l), st.values.tail.tail), live, st.params);
    es' := Cons(ArmsE(t, ns), rest);
    Replaced(st, es, base, One(e) + (One(l) + One(v)), live, ArmsV(l), st.values.tail.tail, es'.head, rest);
  }

  /** An object of the third value is in no other value. */
  lemma ThirdApart(o: object, es: List<Entry>, base: Store)
    requires es.Cons? && es.tail.Cons? && es.tail.tail.Cons? && Sane(OwnedAll(es) + base)
    requires o in OwnedEntry(es.tail.tail.head)
    ensures o !in FeetEntry(es.head) && o !in FeetEntry(es.tail.head) && o !in FeetAll(es.tail.tail.tail)
    ensures OwnedEntry(es.tail.tail.head)[o] == 1
  {
    var rest := es.tail.tail.tail;
    FeetAllAreOwned(rest);
    FeetEntryAreOwned(es.head);
    FeetEntryAreOwned(es.tail.head);
    hide OwnedEntry, FeetEntry;
    assert OwnedAll(es.tail) == OwnedEntry(es.tail.head) + (OwnedEntry(es.tail.tail.head) + OwnedAll(rest));
    assert (OwnedAll(es) + base)[o] == OwnedEntry(es.head)[o] + OwnedEntry(es.tail.head)[o]
                                       + OwnedEntry(es.tail.tail.head)[o] + OwnedAll(rest)[o] + base[o];
  }

  lemma ArmsFeet(l: Memory.Expr, v: ExprVector, items: seq<Tree>)
    ensures v in Feet(CaseList(l, v, items))
  {
    assert v in FeetVector(Vector(v, items));
  }

  lemma ThirdFeet(es: List<Entry>)
    requires es.Cons? && es.tail.Cons? && es.tail.tail.Cons?
    ensures FeetEntry(es.tail.tail.head) <= FeetAll(es)
  {
    hide FeetEntry;
    assert FeetAll(es.tail) == FeetEntry(es.tail.head) + (FeetEntry(es.tail.tail.head) + FeetAll(es.tail.tail.tail));
  }

  lemma ShellOwns(l: Memory.Expr, v: ExprVector, items: seq<Tree>)
    ensures Owned(CaseList(l, v, items)) == One(l) + (One(v) + OwnedItems(items))
  {
    CaseListOwns(l, v, items, []);
    assert OwnedVector(Vector(v, items)) == One(v) + OwnedItems(items);
  }

  /** The vector of the arms belongs to the shell only. */
  lemma ArmsApart(l: Memory.Expr, v: ExprVector, items: seq<Tree>, es: List<Entry>, base: Store)
    requires es.Cons? && es.tail.Cons? && es.tail.tail.Cons? && es.tail.tail.head.ArmsE?
    requires es.tail.tail.head.tree == CaseList(l, v, items) && Sane(OwnedAll(es) + base)
    ensures v !in FeetItems(items) && v !in FeetEntry(es.head) && v !in FeetEntry(es.tail.head)
              && v !in FeetAll(es.tail.tail.tail)
    ensures v in FeetAll(es)
  {
    hide Owned, OwnedItems, OwnedAll, Feet, FeetItems, CaseList, Sane;
    ShellOwns(l, v, items);
    FeetItemsAreOwned(items);
    ArmsFeet(l, v, items);
    ThirdFeet(es);
    ThirdApart(v, es, base);
  }

  /** A shell is the tree of its node, its vector and its elements. */
  lemma ShellShape(t: Tree, ns: NodeArms)
    requires RepresentsCaseList(t, ns)
    ensures t.Tree? && t.list.Vector? && t == CaseList(t.node, t.list.vec, t.list.items)
  {}

  method DoNextArm(st: State, ghost es: List<Entry>, ghost base: Store) returns (after: State, ghost es': List<Entry>)
    requires Holds(st, es, base) && Applies(NextArm, Meanings(es))
    modifies FeetAll(es)
    ensures Holds(after, es', base) && after.params == st.params
    ensures forall o | o in after.live :: o in st.live || fresh(o)
    ensures Does(NextArm, Meanings(es), Meanings(es'))
  {
    hide Accounts, Owned, OwnedLeaves, Marks, Linked, Represents, RepresentsArm, RepresentsCaseList, OwnedAll,
        MarksAll, Numbered;
    hide CaseList;
    PoppedThree(st, es, base);
    ghost var l, ns, rest := es.tail.tail.head.tree, es.tail.tail.head.arms, es.tail.tail.tail;
    ghost var a, b, w, th := es.tail.head.tree, es.head.tree, es.tail.head.node, es.head.node;
    var shell := st.values.tail.tail.head.shell;
    ShellShape(l, ns);
    ghost var v, items := l.list.vec, l.list.items;
    ArmsApart(shell, v, items, es, base);
    ghost var c, t;
    var e, live;
    e, live, c := NewElement(st, es, base);
    assert Good(st.values.tail.tail.head, es.tail.tail.head) && AllGood(st.values.tail.tail.tail, rest);
    assert allocated(FeetAll(rest));
    t := CaseListAppend(shell, e, l, c, ns, w, th);
    ghost var ns' := NodeArm(ns, w, th);
    ghost var m := OpAnd(w, th);
    BinaryAccounts(e, a, b, w, th, m, es.tail.tail);
    NextArmAccounts(shell, v, items, c, m, ns, ns', rest);
    ShellGrows(shell, v, items, c);
    es' := Cons(ArmsE(t, ns'), rest);
    Chained(es, One(e), Cons(ExprE(c, m), es.tail.tail), multiset{}, es');
    after := State(Cons(ArmsV(shell), st.values.tail.tail.tail), live, st.params);
    Replaced(st, es, base, One(e) + multiset{}, live, ArmsV(shell), st.values.tail.tail.tail, es'.head, rest);
  }

  lemma ShellGrows(l: Memory.Expr, v: ExprVector, items: seq<Tree>, c: Tree)
    ensures var t := CaseList(l, v, items);
            t.(list := Vector(t.list.vec, t.list.items + [c])) == CaseList(l, v, items + [c])
  {}

  /** The optional operand of a CASE that a value stack starts with. */
  method TakeOptional(vs: List<Value>, some: bool, ghost es: List<Entry>)
    returns (e: Memory.Expr?, rest: List<Value>, ghost t: Tree, ghost n: OptNode, ghost below: List<Entry>)
    requires AllGood(vs, es) && (some ==> es.Cons? && es.head.ExprE?)
    ensures n.SomeNode? <==> some
    ensures n.NoNode? ==> t.NullTree?
    ensures es == Optional(t, n, below) && AllGood(rest, below)
    ensures Ref(t) == e && Linked(t) && RepresentsOpt(t, n)
  {
    hide Represents, Linked;
    LinkedNull();
    e, rest, t, n, below := null, vs, NullTree, NoNode, es;
    if some {
      assert Good(vs.head, es.head) && AllGood(vs.tail, es.tail);
      e, rest := vs.head.expr, vs.tail;
      t, n, below := es.head.tree, SomeNode(es.head.node), es.tail;
    }
  }

  lemma LinkedNull()
    ensures Linked(NullTree)
  {}

  /** The shell of a CASE is none of the objects that stay. */
  lemma ShellApart(l: Tree, a: Tree, b: Tree, rest: List<Entry>, base: Store)
    requires l.Tree? && Sane(Owned(l) + (Owned(b) + (Owned(a) + (OwnedAll(rest) + base))))
    ensures l.node !in Feet(a) && l.node !in FeetVector(l.list) && l.node !in Feet(b) && l.node !in FeetAll(rest)
    ensures l.node in Feet(l)
  {
    var others := Owned(b) + (Owned(a) + (OwnedAll(rest) + base));
    NodeApart(l, others);
    FeetAreOwned(a);
    FeetAreOwned(b);
    FeetAllAreOwned(rest);
    assert l.node in Feet(l);
    hide Owned, OwnedAll, Feet, FeetAll;
    assert others[l.node as object] == Owned(b)[l.node as object] + Owned(a)[l.node as object]
                                       + OwnedAll(rest)[l.node as object] + base[l.node as object];
  }

  /** The store after the shell is exchanged for the new node. */
  lemma SaneExchange(shell: Store, vector: Store, others: Store, e: object)
    requires Sane(shell + vector + others) && e !in shell + vector + others
    ensures Sane(vector + others + One(e))
  {
    forall o | o in vector + others + One(e) ensures (vector + others + One(e))[o] == 1 {
      assert (shell + vector + others)[o] == shell[o] + vector[o] + others[o];
    }
  }

  /** Makes the CASE node of its operands; the values `vs` below stay as they are. */
  method CaseNode(live: Store, operand: Memory.Expr?, shell: Memory.Expr, otherwise: Memory.Expr?, vs: List<Value>,
                  ghost a: Tree, ghost l: Tree, ghost b: Tree, ghost n: Node, ghost rest: List<Entry>, ghost base: Store)
    returns (e: Memory.Expr, after: Store, ghost t: Tree)
    requires n.OpCase? && AllGood(vs, rest)
    requires Ref(a) == operand && Linked(a) && RepresentsOpt(a, n.base)
    requires Ref(l) == shell && Linked(l) && RepresentsCaseList(l, n.arms)
    requires Ref(b) == otherwise && Linked(b) && RepresentsOpt(b, n.otherwise)
    requires live == Owned(l) + (Owned(b) + (Owned(a) + (OwnedAll(rest) + base))) && Sane(live)
    modifies shell
    ensures AllGood(vs, rest) && Built(t, e, n) && t == Branch(e, a, l.list, b, NO_LEAVES)
    ensures after == Owned(t) + (OwnedAll(rest) + base) && Sane(after)
    ensures forall o | o in after :: o in live || fresh(o)
  {
    hide Owned, OwnedVector, OwnedAll, Linked, Represents, RepresentsOpt, RepresentsCaseList, AllGood, Built,
        CaseList;
    ShellShape(l, n.arms);
    ShellApart(l, a, b, rest, base);
    assert allocated(FeetAll(rest));
    ghost var others := Owned(b) + (Owned(a) + (OwnedAll(rest) + base));
    e, after, t := MakeCase(live, operand, shell, otherwise, a, l, b, n, others);
    CaseListOwns(shell, l.list.vec, l.list.items, []);
    SaneExchange(One(shell), OwnedVector(l.list), others, e);
    CaseOwns(e, shell, l.list.vec, l.list.items, a, b, OwnedAll(rest) + base);
  }

  lemma AppliesCase(based: bool, otherwise: bool, es: List<Entry>)
    requires Applies(CaseAction(based, otherwise), Meanings(es))
    ensures otherwise ==> es.Cons? && es.head.ExprE?
    ensures var es' := if otherwise then es.tail else es;
            es'.Cons? && es'.head.ArmsE? && (based ==> es'.tail.Cons? && es'.tail.head.ExprE?)
  {
    if otherwise {
      assert Meanings(es) == Cons(MeaningOf(es.head), Meanings(es.tail));
    }
    var es' := if otherwise then es.tail else es;
    assert Meanings(es') == Cons(MeaningOf(es'.head), Meanings(es'.tail));
  }

  lemma DoesCase(a: Tree, oa: OptNode, l: Tree, ns: NodeArms, b: Tree, ob: OptNode, t: Tree, rest: List<Entry>)
    ensures Does(CaseAction(oa.SomeNode?, ob.SomeNode?), Meanings(CaseEntries(a, oa, l, ns, b, ob, rest)),
                 Meanings(Cons(ExprE(t, OpCase(oa, ns, ob)), rest)))
  {
    assert Meanings(Cons(ArmsE(l, ns), Optional(a, oa, rest))) == Cons(ArmsM(ns), Meanings(Optional(a, oa, rest)));
  }

  method DoCase(st: State, based: bool, otherwise: bool, ghost es: List<Entry>, ghost base: Store)
    returns (after: State, ghost es': List<Entry>)
    requires Holds(st, es, base) && Applies(CaseAction(based, otherwise), Meanings(es))
    modifies FeetAll(es)
    ensures Holds(after, es', base) && after.params == st.params
    ensures forall o | o in after.live :: o in st.live || fresh(o)
    ensures Does(CaseAction(based, otherwise), Meanings(es), Meanings(es'))
  {
    hide Owned, OwnedAll, Marks, MarksAll, Numbered, Linked, Represents, RepresentsOpt, RepresentsCaseList, Sane,
        Applies, Does;
    AppliesCase(based, otherwise, es);
    var elseExpr, operand, vs, vs';
    ghost var a, b, oa, ob, es1, rest;
    elseExpr, vs, b, ob, es1 := TakeOptional(st.values, otherwise, es);
    assert Good(vs.head, es1.head) && AllGood(vs.tail, es1.tail);
    ghost var l, ns := es1.head.tree, es1.head.arms;
    assert allocated(Feet(l)) && allocated(Feet(b));
    operand, vs', a, oa, rest := TakeOptional(vs.tail, based, es1.tail);
    ShellShape(l, ns);
    assert es == CaseEntries(a, oa, l, ns, b, ob, rest);
    CaseEntriesOwn(a, oa, l, ns, b, ob, rest);
    CaseLive(Owned(l), Owned(b), Owned(a), OwnedAll(rest), base);
    assert FeetAll(es1) <= FeetAll(es);
    assert vs.head.shell in Feet(l);
    var e, live; ghost var t;
    e, live, t := CaseNode(st.live, operand, vs.head.shell, elseExpr, vs', a, l, b, OpCase(oa, ns, ob), rest, base);
    after := State(Cons(ExprV(e), vs'), live, st.params);
    es' := Cons(ExprE(t, OpCase(oa, ns, ob)), rest);
    DoesCase(a, oa, l, ns, b, ob, t, rest);
    CaseMarks(e, l.node, l.list.vec, l.list.items, a, b, MarksAll(rest));
    CaseStack(t, OpCase(oa, ns, ob), rest, base);
    Pushed(ExprV(e), es'.head, vs', rest, live, base, st.params);
  }

  lemma CaseLive(l: Store, b: Store, a: Store, rest: Store, base: Store)
    ensures b + (l + (a + rest)) + base == l + (b + (a + (rest + base)))
  {}

  lemma CaseStack(t: Tree, n: Node, rest: List<Entry>, base: Store)
    ensures OwnedAll(Cons(ExprE(t, n), rest)) + base == Owned(t) + (OwnedAll(rest) + base)
    ensures MarksAll(Cons(ExprE(t, n), rest)) == Marks(MarksAll(rest), t)
  {
    hide Owned, Marks;
  }
}
