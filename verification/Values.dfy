/**
 The value stack of the parser on the heap: the semantic values, the objects that each of them owns,
 and the destructors that the parser runs on the whole stack after a syntax error.
 */
module Values {
  import opened Tokens
  import opened Ast
  import opened Memory
  import opened Nodes
  import opened Actions

  /** A semantic value: a string, an expression, a list of expressions or the shell of a CASE. */
  datatype Value =
    | StringV(text: CString)
    | ExprV(expr: Memory.Expr)
    | ListV(list: ExprVector)
    | ArmsV(shell: Memory.Expr)

  /** What a value owns and what it stands for. */
  datatype Entry =
    | StringE(text: CString)
    | ExprE(tree: Tree, node: Node)
    | ListE(trees: Trees, nodes: NodeList)
    | ArmsE(tree: Tree, arms: NodeArms)

  /** The values, the allocated objects and `param_list`. */
  datatype State = State(values: List<Value>, live: Store, params: seq<Memory.Expr>)

  ghost function OwnedEntry(en: Entry): Store {
    match en
    case StringE(s) => One(s)
    case ExprE(t, _) => Owned(t)
    case ListE(ts, _) => OwnedVector(ts)
    case ArmsE(t, _) => Owned(t)
  }

  ghost function OwnedAll(es: List<Entry>): Store {
    match es
    case Nil => multiset{}
    case Cons(en, rest) => OwnedEntry(en) + OwnedAll(rest)
  }

  ghost function FeetEntry(en: Entry): set<object> {
    match en
    case StringE(_) => {}
    case ExprE(t, _) => Feet(t)
    case ListE(ts, _) => FeetVector(ts)
    case ArmsE(t, _) => Feet(t)
  }

  ghost function FeetAll(es: List<Entry>): set<object> {
    match es
    case Nil => {}
    case Cons(en, rest) => FeetEntry(en) + FeetAll(rest)
  }

  ghost function MeaningOf(en: Entry): Meaning {
    match en
    case StringE(s) => StringM(s.text)
    case ExprE(_, n) => ExprM(n)
    case ListE(_, ns) => ListM(ns)
    case ArmsE(_, ns) => ArmsM(ns)
  }

  ghost function Meanings(es: List<Entry>): List<Meaning> {
    match es
    case Nil => Nil
    case Cons(en, rest) => Cons(MeaningOf(en), Meanings(rest))
  }

  ghost function EntryMarks(before: seq<Mark>, en: Entry): seq<Mark> {
    match en
    case StringE(_) => before
    case ExprE(t, _) => Marks(before, t)
    case ListE(ts, _) => MarksVector(before, ts)
    case ArmsE(t, _) => Marks(before, t)
  }

  /** The parameters inside the values, in the order of their tokens. */
  ghost function MarksAll(es: List<Entry>): seq<Mark> {
    match es
    case Nil => []
    case Cons(en, rest) => EntryMarks(MarksAll(rest), en)
  }

  ghost function Numbered(params: seq<Memory.Expr>): seq<Mark> {
    seq(|params|, i requires 0 <= i < |params| => Mark(params[i], i))
  }

  ghost predicate Good(v: Value, en: Entry)
    reads FeetEntry(en)
  {
    match en
    case StringE(s) => v == StringV(s)
    case ExprE(t, n) => v.ExprV? && Built(t, v.expr, n)
    case ListE(ts, ns) => v.ListV? && VecRef(ts) == v.list && LinkedVector(ts) && RepresentsVector(ts, ns) && ns.Nodes?
    case ArmsE(t, ns) => v.ArmsV? && Ref(t) == v.shell && Linked(t) && RepresentsCaseList(t, ns) && ns.NodeArm?
  }

  ghost predicate AllGood(vs: List<Value>, es: List<Entry>)
    reads FeetAll(es)
    decreases es
  {
    match es
    case Nil => vs.Nil?
    case Cons(en, rest) => vs.Cons? && Good(vs.head, en) && AllGood(vs.tail, rest)
  }

  /** The invariant of the run. The values own every object that was not there before (`base`), no
      two of them own the same object, and the parameters inside them are those of the list, numbered
      in order. */
  ghost predicate Holds(st: State, es: List<Entry>, base: Store)
    reads FeetAll(es)
  {
    AllGood(st.values, es) && st.live == OwnedAll(es) + base && Sane(st.live) && MarksAll(es) == Numbered(st.params)
  }

  // ----- separation -----

  lemma FeetEntryAreOwned(en: Entry)
    ensures forall o | o in FeetEntry(en) :: o in OwnedEntry(en)
  {
    match en
    case StringE(_) =>
    case ExprE(t, _) => FeetAreOwned(t);
    case ListE(ts, _) => FeetVectorAreOwned(ts);
    case ArmsE(t, _) => FeetAreOwned(t);
  }

  lemma {:induction false} FeetAllAreOwned(es: List<Entry>)
    ensures forall o | o in FeetAll(es) :: o in OwnedAll(es)
  {
    match es
    case Nil =>
    case Cons(en, rest) =>
      FeetAllAreOwned(rest);
      FeetEntryAreOwned(en);
  }

  /** Values below the top do not notice what happens to the objects of the top. */
  lemma BelowApart(es: List<Entry>, base: Store)
    requires es.Cons? && Sane(OwnedAll(es) + base)
    ensures forall o | o in FeetEntry(es.head) :: o !in FeetAll(es.tail)
  {
    var top, rest := OwnedEntry(es.head), OwnedAll(es.tail);
    assert OwnedAll(es) == top + rest;
    FeetAllAreOwned(es.tail);
    FeetEntryAreOwned(es.head);
    hide OwnedEntry, FeetEntry, OwnedAll, FeetAll;
    forall o | o in FeetEntry(es.head) ensures o !in FeetAll(es.tail) {
      assert (top + rest + base)[o] == top[o] + rest[o] + base[o];
    }
  }

  /** The node of a tree is not below itself, nor anywhere else on the stack. */
  lemma NodeApart(t: Tree, rest: Store)
    requires t.Tree? && Sane(Owned(t) + rest)
    ensures t.node !in Feet(t.expr) && t.node !in FeetVector(t.list) && t.node !in Feet(t.expr2)
    ensures forall o | o in Feet(t) :: o !in rest
  {
    var inner := OwnedLeaves(t.own) + Owned(t.expr) + OwnedVector(t.list) + Owned(t.expr2) + Owned(t.escape);
    FeetAreOwned(t);
    FeetAreOwned(t.expr);
    FeetVectorAreOwned(t.list);
    FeetAreOwned(t.expr2);
    assert Owned(t) == multiset{t.node} + inner;
    hide Owned, OwnedVector, OwnedLeaves, Feet, FeetVector;
    assert (Owned(t) + rest)[t.node as object] == 1 + inner[t.node as object] + rest[t.node as object];
    forall o | o in Feet(t) ensures o !in rest {
      assert (Owned(t) + rest)[o] == Owned(t)[o] + rest[o];
    }
  }

  /** The same for the vector of a list. */
  lemma VectorApart(ts: Trees, rest: Store)
    requires ts.Vector? && Sane(OwnedVector(ts) + rest)
    ensures ts.vec !in FeetItems(ts.items)
    ensures forall o | o in FeetVector(ts) :: o !in rest
  {
    FeetVectorAreOwned(ts);
    FeetItemsAreOwned(ts.items);
    assert OwnedVector(ts) == multiset{ts.vec} + OwnedItems(ts.items);
    hide Owned, OwnedVector, OwnedItems, FeetItems, FeetVector;
    assert (OwnedVector(ts) + rest)[ts.vec as object] == 1 + OwnedItems(ts.items)[ts.vec as object] + rest[ts.vec as object];
    forall o | o in FeetVector(ts) ensures o !in rest {
      assert (OwnedVector(ts) + rest)[o] == OwnedVector(ts)[o] + rest[o];
    }
  }

  function At(es: List<Entry>, i: nat): Entry
    requires i < es.Size()
  {
    if i == 0 then es.head else At(es.tail, i - 1)
  }

  lemma {:induction false} EntryInAll(es: List<Entry>, i: nat)
    requires i < es.Size()
    ensures forall o | o in OwnedEntry(At(es, i)) :: o in OwnedAll(es)
  {
    hide OwnedEntry;
    if i > 0 {
      EntryInAll(es.tail, i - 1);
    }
  }

  lemma TopApart(top: Store, rest: Store, base: Store)
    requires Sane(top + rest + base)
    ensures Sane(rest + base)
    ensures forall o | o in top :: o !in rest && o !in base
  {
    forall o | o in rest + base ensures (rest + base)[o] == 1 {
      assert (top + rest + base)[o] == top[o] + rest[o] + base[o];
    }
    forall o | o in top ensures o !in rest && o !in base {
      assert (top + rest + base)[o] == top[o] + rest[o] + base[o];
    }
  }

  lemma SplitTop(es: List<Entry>)
    requires es.Cons?
    ensures OwnedAll(es) == OwnedEntry(es.head) + OwnedAll(es.tail)
  {
    hide OwnedEntry;
  }

  /** Different values on the stack own different objects. */
  lemma {:induction false} ValuesAreDisjoint(es: List<Entry>, base: Store, i: nat, j: nat)
    requires Sane(OwnedAll(es) + base) && i < j < es.Size()
    ensures forall o | o in OwnedEntry(At(es, i)) :: o !in OwnedEntry(At(es, j)) && o !in base
  {
    hide OwnedEntry, OwnedAll, Sane;
    SplitTop(es);
    TopApart(OwnedEntry(es.head), OwnedAll(es.tail), base);
    if i > 0 {
      ValuesAreDisjoint(es.tail, base, i - 1, j - 1);
    } else {
      EntryInAll(es.tail, j - 1);
    }
  }

  /** A new object keeps the store sane. */
  lemma SaneNew(live: Store, o: object?)
    requires Sane(live) && (o != null ==> o !in live)
    ensures Sane(live + One(o))
  {
    forall x | x in live + One(o) ensures (live + One(o))[x] == 1 {
      assert x == o || x in live;
    }
  }

  // ----- the top of the stack -----

  lemma Pushed(v: Value, en: Entry, vs: List<Value>, es: List<Entry>, live: Store, base: Store,
               params: seq<Memory.Expr>)
    requires Good(v, en) && AllGood(vs, es)
    requires live == OwnedAll(Cons(en, es)) + base && Sane(live) && MarksAll(Cons(en, es)) == Numbered(params)
    ensures Holds(State(Cons(v, vs), live, params), Cons(en, es), base)
  {}

  lemma Popped(st: State, es: List<Entry>, base: Store)
    requires Holds(st, es, base) && Meanings(es).Cons?
    ensures es.Cons? && Meanings(es) == Cons(MeaningOf(es.head), Meanings(es.tail))
    ensures st.values.Cons? && Good(st.values.head, es.head) && AllGood(st.values.tail, es.tail)
    ensures st.live == OwnedAll(es) + base && MarksAll(es) == Numbered(st.params)
    ensures OwnedAll(es) == OwnedEntry(es.head) + OwnedAll(es.tail)
  {}

  lemma PoppedTwo(st: State, es: List<Entry>, base: Store)
    requires Holds(st, es, base) && Meanings(es).Cons? && Meanings(es).tail.Cons?
    ensures es.Cons? && es.tail.Cons? && st.values.Cons? && st.values.tail.Cons?
    ensures Meanings(es) == Cons(MeaningOf(es.head), Cons(MeaningOf(es.tail.head), Meanings(es.tail.tail)))
    ensures Good(st.values.head, es.head) && Good(st.values.tail.head, es.tail.head)
        && AllGood(st.values.tail.tail, es.tail.tail)
    ensures st.live == OwnedAll(es) + base && MarksAll(es) == Numbered(st.params)
  {
    hide Owned, OwnedAll, Marks, MarksAll, Numbered, Linked, Represents, Sane;
    assert AllGood(st.values.tail, es.tail);
  }

  lemma PoppedThree(st: State, es: List<Entry>, base: Store)
    requires Holds(st, es, base) && Meanings(es).Cons? && Meanings(es).tail.Cons? && Meanings(es).tail.tail.Cons?
    ensures es.Cons? && es.tail.Cons? && es.tail.tail.Cons? && st.values.Cons? && st.values.tail.Cons?
              && st.values.tail.tail.Cons?
    ensures Meanings(es) == Cons(MeaningOf(es.head), Cons(MeaningOf(es.tail.head),
        Cons(MeaningOf(es.tail.tail.head), Meanings(es.tail.tail.tail))))
    ensures Good(st.values.head, es.head) && Good(st.values.tail.head, es.tail.head)
    ensures Good(st.values.tail.tail.head, es.tail.tail.head) && AllGood(st.values.tail.tail.tail, es.tail.tail.tail)
    ensures st.live == OwnedAll(es) + base && MarksAll(es) == Numbered(st.params)
  {
    hide Owned, OwnedAll, Marks, MarksAll, Numbered, Linked, Represents, Sane;
    assert AllGood(st.values.tail, es.tail);
    assert AllGood(st.values.tail.tail, es.tail.tail);
    assert Meanings(es.tail) == Cons(MeaningOf(es.tail.head), Meanings(es.tail.tail));
  }

  // ----- the destructors -----

  /** The destructor of one value. */
  method Destroy(live: Store, v: Value, ghost en: Entry, ghost rest: Store) returns (after: Store)
    requires Good(v, en) && live == OwnedEntry(en) + rest
    ensures after == rest
  {
    match v
    case StringV(s) => after := Release(live, s, rest);
    case ExprV(e) => after := DeleteExpr(live, e, en.tree, rest);
    case ListV(list) => after := DeleteVector(live, list, en.trees, rest);
    case ArmsV(e) => after := DeleteExpr(live, e, en.tree, rest);
  }

  /** After a syntax error every value on the stack is destroyed: nothing that the run allocated is
      left, nothing else is freed. */
  method DestroyAll(st: State, ghost es: List<Entry>, ghost base: Store) returns (after: Store)
    requires Holds(st, es, base)
    ensures after == base
  {
    var vs := st.values;
    ghost var rest := es;
    after := st.live;
    while vs.Cons?
      invariant AllGood(vs, rest) && after == OwnedAll(rest) + base
      decreases vs
    {
      assert Good(vs.head, rest.head) && AllGood(vs.tail, rest.tail);
      assert allocated(FeetAll(rest.tail));
      after := Destroy(after, vs.head, rest.head, OwnedAll(rest.tail) + base);
      vs, rest := vs.tail, rest.tail;
    }
  }
}
