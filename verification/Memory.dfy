/**
 The heap: which objects are allocated, the expression node with its owning pointers, and its
 destructor. Ownership is described by an immutable tree of references that the fields of the nodes
 have to agree with; the objects a tree owns form a multiset, so that `Owned(t) <= multiset(live)`
 says at once that all of them are allocated and that none is owned twice.
 */
module Memory {
  import opened Tokens

  class CString {
    const text: string

    constructor (text: string)
      ensures this.text == text
    {
      this.text := text;
    }
  }

  /** A nested select: an opaque object that its expression owns. */
  class SelectStatement {
    const id: nat

    constructor (id: nat)
      ensures this.id == id
    {
      this.id := id;
    }
  }

  /** A heap-allocated `std::vector<Expr*>`. */
  class ExprVector {
    var items: seq<Expr>

    /** An empty vector onto which `elements` are pushed. */
    constructor (elements: seq<Expr>)
      ensures items == elements
    {
      items := elements;
    }
  }

  datatype ExprType =
    | KLiteralFloat | KLiteralString | KLiteralInt | KLiteralNull | KStar | KParameter
    | KColumnRef | KFunctionRef | KOperator | KSelect | KNamedParameter

  datatype OperatorType =
    | KNone | KBetween | KCase | KCaseList | KCaseListElement
    | KPlus | KMinus | KAsterisk | KSlash | KPercentage | KCaret
    | KEquals | KNotEquals | KLess | KLessEq | KGreater | KGreaterEq
    | KLike | KNotLike | KAnd | KOr | KIn | KConcat
    | KNot | KUnaryMinus | KIsNull | KExists

  /** The fields of `hsql::Expr` (src/sql/Expr.h:81-101). Number values keep their text. */
  class Expr {
    var type_: ExprType
    var opType: OperatorType
    var expr: Expr?
    var expr2: Expr?
    var exprList: ExprVector?
    var select: SelectStatement?
    var name: CString?
    var table: CString?
    var alias: CString?
    var number: string
    var ival: int
    var ival2: int
    var distinct: bool
    var escape: Expr?

    /** A new node with the fields that its maker sets; the others keep their defaults. */
    constructor (type_: ExprType, opType: OperatorType, expr: Expr?, exprList: ExprVector?, expr2: Expr?,
                 select: SelectStatement?, name: CString?, table: CString?, number: string, distinct: bool)
      ensures this.type_ == type_ && this.opType == opType
      ensures this.expr == expr && this.exprList == exprList && this.expr2 == expr2
      ensures this.select == select && this.name == name && this.table == table
      ensures this.number == number && this.distinct == distinct
      ensures alias == null && escape == null && ival == 0 && ival2 == 0
    {
      this.type_, this.opType, this.expr, this.exprList, this.expr2 := type_, opType, expr, exprList, expr2;
      this.select, this.name, this.table, this.number, this.distinct := select, name, table, number, distinct;
      alias, escape, ival, ival2 := null, null, 0, 0;
    }
  }

  /** The allocated objects, handed from call to call. A pointer that is freed has to be among them
      and leaves them, so freeing it again is impossible. */
  type Store = multiset<object>

  /** No object is allocated twice. */
  ghost predicate Sane(live: Store) {
    forall o | o in live :: live[o] == 1
  }

  /** `free` and `delete` of an object without children; both accept a null pointer. The rest of the
      store is untouched. */
  method Release(live: Store, o: object?, ghost rest: Store) returns (after: Store)
    requires live == One(o) + rest
    ensures after == rest
  {
    after := if o == null then live else live - multiset{o};
  }

  ghost function One(o: object?): Store {
    if o == null then multiset{} else multiset{o}
  }

  // ----- ownership trees -----

  /** What a node owns. `param` is the index that a node made for a `?` was given. */
  datatype Tree =
    | NullTree
    | Tree(node: Expr, expr: Tree, list: Trees, expr2: Tree, escape: Tree, own: Leaves, param: Option<nat>)

  datatype Leaves = Leaves(select: SelectStatement?, name: CString?, table: CString?, alias: CString?)

  datatype Trees = NullVector | Vector(vec: ExprVector, items: seq<Tree>)

  const NO_LEAVES := Leaves(null, null, null, null)

  function Ref(t: Tree): Expr? {
    if t.NullTree? then null else t.node
  }

  function VecRef(ts: Trees): ExprVector? {
    if ts.NullVector? then null else ts.vec
  }

  /** The objects of a tree, each as often as the tree points to it. */
  ghost function Owned(t: Tree): Store {
    match t
    case NullTree => multiset{}
    case Tree(node, e, list, e2, escape, own, _) =>
      multiset{node} + OwnedLeaves(own) + Owned(e) + OwnedVector(list) + Owned(e2) + Owned(escape)
  }

  ghost function OwnedLeaves(l: Leaves): Store {
    One(l.select) + One(l.name) + One(l.table) + One(l.alias)
  }

  ghost function OwnedVector(ts: Trees): Store {
    match ts
    case NullVector => multiset{}
    case Vector(vec, items) => multiset{vec} + OwnedItems(items)
  }

  ghost function OwnedItems(items: seq<Tree>): Store {
    if items == [] then multiset{} else Owned(items[0]) + OwnedItems(items[1..])
  }

  /** The same objects as a set, for the frames. */
  ghost function Feet(t: Tree): set<object>
  {
    match t
    case NullTree => {}
    case Tree(node, e, list, e2, escape, own, _) =>
      {node} + FeetVector(list) + Feet(e) + Feet(e2) + Feet(escape)
  }

  ghost function FeetVector(ts: Trees): set<object>
  {
    match ts
    case NullVector => {}
    case Vector(vec, items) => {vec} + FeetItems(items)
  }

  ghost function FeetItems(items: seq<Tree>): set<object> {
    set i, o | 0 <= i < |items| && o in Feet(items[i]) :: o
  }

  /** The fields of the nodes are the references of the tree. */
  ghost predicate Linked(t: Tree)
    reads Feet(t)
  {
    match t
    case NullTree => true
    case Tree(node, e, list, e2, escape, own, param) =>
      && node.expr == Ref(e) && node.exprList == VecRef(list) && node.expr2 == Ref(e2) && node.escape == Ref(escape)
      && node.select == own.select && node.name == own.name && node.table == own.table && node.alias == own.alias
      && (if param.Some? then node.type_ == KParameter && node.ival2 == param.value else node.type_ != KParameter)
      && Linked(e) && LinkedVector(list) && Linked(e2) && Linked(escape)
  }

  ghost predicate LinkedVector(ts: Trees)
    reads FeetVector(ts)
  {
    match ts
    case NullVector => true
    case Vector(vec, items) => LinkedItems(items, vec.items)
  }

  ghost predicate LinkedItems(items: seq<Tree>, refs: seq<Expr>)
    reads FeetItems(items)
  {
    && |items| == |refs|
    && forall i | 0 <= i < |items| :: items[i].Tree? && items[i].node == refs[i] && Linked(items[i])
  }

  /** A node made for a `?`, and its index. */
  datatype Mark = Mark(node: Expr, index: nat)

  /** `before`, followed by the parameters of a tree in the order of their tokens. */
  ghost function Marks(before: seq<Mark>, t: Tree): seq<Mark>
    decreases t
  {
    match t
    case NullTree => before
    case Tree(node, e, list, e2, escape, _, param) =>
      var own := if param.Some? then before + [Mark(node, param.value)] else before;
      Marks(Marks(MarksVector(Marks(own, e), list), e2), escape)
  }

  ghost function MarksVector(before: seq<Mark>, ts: Trees): seq<Mark>
    decreases ts
  {
    match ts
    case NullVector => before
    case Vector(_, items) => MarksItems(before, items)
  }

  ghost function MarksItems(before: seq<Mark>, items: seq<Tree>): seq<Mark>
    decreases items
  {
    if items == [] then before else Marks(MarksItems(before, items[..|items| - 1]), items[|items| - 1])
  }

  /** The destructor of an expression, and the deallocation of the node: everything the tree owns
      is freed, each object once, and nothing else. */
  method DeleteExpr(live: Store, e: Expr?, ghost t: Tree, ghost rest: Store) returns (after: Store)
    requires Ref(t) == e && Linked(t) && live == Owned(t) + rest
    ensures after == rest
    decreases t, 2
  {
    after := live;
    if e != null {
      assert allocated(FeetVector(t.list)) && allocated(Feet(t.escape));
      after := DeleteOperands(after, e, t, OwnedVector(t.list) + (Owned(t.escape) + (One(e) + rest)));
      after := DeleteLists(after, e, t, One(e) + rest);
      after := Release(after, e, rest);
    }
  }

  /** The first part of the destructor: both operands, the select and the strings. */
  method DeleteOperands(live: Store, e: Expr, ghost t: Tree, ghost rest: Store) returns (after: Store)
    requires t.Tree? && t.node == e && Linked(t)
    requires live == Owned(t.expr) + (Owned(t.expr2) + (OwnedLeaves(t.own) + rest))
    ensures after == rest
    decreases t, 1
  {
    assert allocated(Feet(t.expr2));
    after := DeleteExpr(live, e.expr, t.expr, Owned(t.expr2) + (OwnedLeaves(t.own) + rest));
    after := DeleteExpr(after, e.expr2, t.expr2, OwnedLeaves(t.own) + rest);
    after := ReleaseLeaves(after, e, rest);
  }

  method ReleaseLeaves(live: Store, e: Expr, ghost rest: Store) returns (after: Store)
    requires live == OwnedLeaves(Leaves(e.select, e.name, e.table, e.alias)) + rest
    ensures after == rest
  {
    after := Release(live, e.select, One(e.name) + (One(e.table) + (One(e.alias) + rest)));
    after := Release(after, e.name, One(e.table) + (One(e.alias) + rest));
    after := Release(after, e.table, One(e.alias) + rest);
    after := Release(after, e.alias, rest);
  }

  /** The second part: the element list and the escape expression. */
  method DeleteLists(live: Store, e: Expr, ghost t: Tree, ghost rest: Store) returns (after: Store)
    requires t.Tree? && e.exprList == VecRef(t.list) && e.escape == Ref(t.escape)
    requires LinkedVector(t.list) && Linked(t.escape)
    requires live == OwnedVector(t.list) + (Owned(t.escape) + rest)
    ensures after == rest
    decreases t, 1
  {
    assert allocated(Feet(t.escape));
    after := DeleteVector(live, e.exprList, t.list, Owned(t.escape) + rest);
    after := DeleteExpr(after, e.escape, t.escape, rest);
  }

  /** Deletes the elements of a vector in order, then the vector. */
  method DeleteVector(live: Store, v: ExprVector?, ghost ts: Trees, ghost rest: Store) returns (after: Store)
    requires VecRef(ts) == v && LinkedVector(ts) && live == OwnedVector(ts) + rest
    ensures after == rest
    decreases ts
  {
    after := live;
    if v != null {
      after := DeleteItems(after, v, ts.items, One(v) + rest);
      after := Release(after, v, rest);
    }
  }

  method DeleteItems(live: Store, v: ExprVector, ghost items: seq<Tree>, ghost rest: Store) returns (after: Store)
    requires LinkedItems(items, v.items) && live == OwnedItems(items) + rest
    ensures after == rest
    decreases items, 1
  {
    after := live;
    var i := 0;
    assert items[0..] == items;
    while i < |v.items|
      invariant 0 <= i <= |v.items|
      invariant LinkedItems(items, v.items)
      invariant after == OwnedItems(items[i..]) + rest
    {
      after := DeleteItem(after, v, items, i, rest);
      i := i + 1;
    }
  }

  method DeleteItem(live: Store, v: ExprVector, ghost items: seq<Tree>, i: nat, ghost rest: Store)
    returns (after: Store)
    requires LinkedItems(items, v.items) && i < |items| && live == OwnedItems(items[i..]) + rest
    ensures LinkedItems(items, v.items) && after == OwnedItems(items[i + 1..]) + rest
    decreases items, 0
  {
    hide Owned, Linked;
    assert items[i..][1..] == items[i + 1..];
    assert allocated(FeetItems(items));
    after := DeleteExpr(live, v.items[i], items[i], OwnedItems(items[i + 1..]) + rest);
  }

  // ----- feet and owned objects -----

  lemma {:induction false} FeetAreOwned(t: Tree)
    ensures forall o | o in Feet(t) :: o in Owned(t)
    decreases t, 0
  {
    if t.Tree? {
      FeetAreOwned(t.expr);
      FeetVectorAreOwned(t.list);
      FeetAreOwned(t.expr2);
      FeetAreOwned(t.escape);
    }
  }

  lemma {:induction false} FeetVectorAreOwned(ts: Trees)
    ensures forall o | o in FeetVector(ts) :: o in OwnedVector(ts)
    decreases ts, 1
  {
    if ts.Vector? {
      FeetItemsAreOwned(ts.items);
    }
  }

  lemma {:induction false} FeetItemsAreOwned(items: seq<Tree>)
    ensures forall o | o in FeetItems(items) :: o in OwnedItems(items)
    decreases items, 0
  {
    if items != [] {
      FeetAreOwned(items[0]);
      FeetItemsAreOwned(items[1..]);
      forall o | o in FeetItems(items) ensures o in OwnedItems(items) {
        var i :| 0 <= i < |items| && o in Feet(items[i]);
        if i > 0 {
          assert items[1..][i - 1] == items[i];
        }
      }
    }
  }

  lemma {:induction false} OwnedSnoc(items: seq<Tree>, t: Tree)
    ensures OwnedItems(items + [t]) == OwnedItems(items) + Owned(t)
  {
    if items == [] {
      assert [] + [t] == [t] && [t][1..] == [];
    } else {
      assert (items + [t])[1..] == items[1..] + [t];
      OwnedSnoc(items[1..], t);
    }
  }
}
