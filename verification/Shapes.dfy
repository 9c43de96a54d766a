/**
 What each semantic action does to the ownership of the stack: the objects it allocates are added, the
 objects of the values it takes move into the value it leaves, and the parameters keep their order.
 */
module Shapes {
  import opened Tokens
  import opened Ast
  import opened Memory
  import opened Values

  /** `es'` owns the objects of `es` and `added`, and holds the same parameters in the same order. */
  ghost predicate Accounts(es: List<Entry>, added: Store, es': List<Entry>) {
    OwnedAll(es') == OwnedAll(es) + added && MarksAll(es') == MarksAll(es)
  }

  /** The invariant after an action that replaced the values of `es` on top by one value. */
  lemma Replaced(st: State, es: List<Entry>, base: Store, added: Store, live: Store, v: Value, vs: List<Value>,
                 en: Entry, rest: List<Entry>)
    requires st.live == OwnedAll(es) + base && MarksAll(es) == Numbered(st.params)
    requires Accounts(es, added, Cons(en, rest)) && live == st.live + added && Sane(live)
    requires Good(v, en) && AllGood(vs, rest)
    ensures Holds(State(Cons(v, vs), live, st.params), Cons(en, rest), base)
  {
    hide OwnedAll, Owned, Marks, MarksAll, Numbered, Good, Sane;
  }

  lemma Chained(es: List<Entry>, a: Store, es': List<Entry>, b: Store, es'': List<Entry>)
    requires Accounts(es, a, es') && Accounts(es', b, es'')
    ensures Accounts(es, a + b, es'')
  {
    hide OwnedAll, MarksAll;
  }

  function Branch(e: Memory.Expr, a: Tree, ts: Trees, b: Tree, own: Leaves): Tree {
    Tree(e, a, ts, b, NullTree, own, None)
  }

  lemma BranchOwns(e: Memory.Expr, a: Tree, ts: Trees, b: Tree, own: Leaves)
    ensures Owned(Branch(e, a, ts, b, own)) == One(e) + OwnedLeaves(own) + Owned(a) + OwnedVector(ts) + Owned(b)
  {}

  lemma BranchMarks(before: seq<Mark>, e: Memory.Expr, a: Tree, ts: Trees, b: Tree, own: Leaves)
    ensures Marks(before, Branch(e, a, ts, b, own)) == Marks(MarksVector(Marks(before, a), ts), b)
  {}

  lemma NothingOwned()
    ensures Owned(NullTree) == OwnedVector(NullVector) == OwnedLeaves(NO_LEAVES) == multiset{}
    ensures forall before :: Marks(before, NullTree) == before == MarksVector(before, NullVector)
  {}

  /** A vector with one more element. */
  lemma PushedOwns(v: ExprVector, items: seq<Tree>, t: Tree)
    ensures OwnedVector(Vector(v, items + [t])) == OwnedVector(Vector(v, items)) + Owned(t)
  {
    OwnedSnoc(items, t);
  }

  lemma PushedMarks(before: seq<Mark>, v: ExprVector, items: seq<Tree>, t: Tree)
    ensures MarksVector(before, Vector(v, items + [t])) == Marks(MarksVector(before, Vector(v, items)), t)
  {
    assert (items + [t])[..|items|] == items;
  }

  lemma SingleOwns(v: ExprVector, t: Tree)
    ensures OwnedVector(Vector(v, [])) == One(v)
    ensures OwnedVector(Vector(v, [t])) == One(v) + Owned(t)
  {
    assert [t][1..] == [];
    assert OwnedItems([t]) == Owned(t);
  }

  lemma SingleMarks(before: seq<Mark>, v: ExprVector, t: Tree)
    ensures MarksVector(before, Vector(v, [])) == before
    ensures MarksVector(before, Vector(v, [t])) == Marks(before, t)
  {
    assert [t][..0] == [];
  }

  /** The alias of a list element. */
  function Aliased(t: Tree, alias: CString?): Tree
    requires t.Tree?
  {
    t.(own := t.own.(alias := alias))
  }

  lemma AliasedOwns(t: Tree, alias: CString?)
    requires t.Tree? && t.own.alias == null
    ensures Owned(Aliased(t, alias)) == Owned(t) + One(alias)
  {
    assert OwnedLeaves(Aliased(t, alias).own) == OwnedLeaves(t.own) + One(alias);
  }

  lemma AliasedMarks(t: Tree, alias: CString?, before: seq<Mark>)
    requires t.Tree?
    ensures Marks(before, Aliased(t, alias)) == Marks(before, t)
  {}

  /** Sums of stores in two groupings. */
  lemma Regroup(t: Store, e: Store, own: Store, a: Store, v: Store, b: Store, r: Store)
    requires t == e + own + a + v + b
    ensures own == b == multiset{} ==> t + r == (v + (a + r)) + e
    ensures a == b == multiset{} ==> t + r == (v + (own + r)) + e
    ensures own == v == multiset{} ==> t + r == (b + (a + r)) + e
  {}

  lemma RegroupThree(t: Store, e: Store, own: Store, a: Store, v: Store, x: Store, b: Store, c: Store,
                     none: Store, r: Store)
    requires t == e + own + a + v + none && v == x + b + c && own == none == multiset{}
    ensures t + r == (c + (b + (a + r))) + (x + e)
  {}

  lemma RegroupMoved(v': Store, v: Store, t': Store, t: Store, added: Store, r: Store)
    requires t' == t + added && v' == v + t'
    ensures v' + r == (t + (v + r)) + added
  {}

  // ----- one lemma for each kind of action -----

  lemma AtomAccounts(e: Memory.Expr, own: Leaves, n: Node, es: List<Entry>)
    ensures Accounts(es, OwnedLeaves(own) + One(e), Cons(ExprE(Branch(e, NullTree, NullVector, NullTree, own), n), es))
  {
    hide Owned, OwnedVector, OwnedLeaves, One, Marks, MarksVector;
    NothingOwned();
    BranchOwns(e, NullTree, NullVector, NullTree, own);
    BranchMarks(MarksAll(es), e, NullTree, NullVector, NullTree, own);
  }

  lemma UnaryAccounts(e: Memory.Expr, a: Tree, own: Leaves, n: Node, n': Node, es: List<Entry>)
    ensures Accounts(Cons(ExprE(a, n), es), OwnedLeaves(own) + One(e),
                     Cons(ExprE(Branch(e, a, NullVector, NullTree, own), n'), es))
  {
    hide Owned, OwnedVector, OwnedLeaves, One, Marks, MarksVector;
    NothingOwned();
    BranchOwns(e, a, NullVector, NullTree, own);
    BranchMarks(MarksAll(es), e, a, NullVector, NullTree, own);
  }

  lemma BinaryAccounts(e: Memory.Expr, a: Tree, b: Tree, n: Node, m: Node, n': Node, es: List<Entry>)
    ensures Accounts(Cons(ExprE(b, m), Cons(ExprE(a, n), es)), One(e),
              Cons(ExprE(Branch(e, a, NullVector, b, NO_LEAVES), n'), es))
  {
    hide Owned, OwnedVector, OwnedLeaves, One, Marks, MarksVector;
    NothingOwned();
    BranchOwns(e, a, NullVector, b, NO_LEAVES);
    BranchMarks(MarksAll(es), e, a, NullVector, b, NO_LEAVES);
    assert MarksAll(Cons(ExprE(a, n), es)) == Marks(MarksAll(es), a);
    assert OwnedAll(Cons(ExprE(a, n), es)) == Owned(a) + OwnedAll(es);
    Regroup(Owned(Branch(e, a, NullVector, b, NO_LEAVES)), One(e), OwnedLeaves(NO_LEAVES), Owned(a),
        OwnedVector(NullVector), Owned(b), OwnedAll(es));
  }

  lemma PairOwns(v: ExprVector, b: Tree, c: Tree, before: seq<Mark>)
    ensures OwnedVector(Vector(v, [b, c])) == One(v) + Owned(b) + Owned(c)
    ensures MarksVector(before, Vector(v, [b, c])) == Marks(Marks(before, b), c)
  {
    hide Owned, OwnedVector, One, Marks, MarksVector;
    assert [b, c] == [b] + [c];
    PushedOwns(v, [b], c);
    SingleOwns(v, b);
    PushedMarks(before, v, [b], c);
    SingleMarks(before, v, b);
  }

  lemma BetweenAccounts(e: Memory.Expr, v: ExprVector, a: Tree, b: Tree, c: Tree, n: Node, m: Node, l: Node,
                        n': Node, es: List<Entry>)
    ensures Accounts(Cons(ExprE(c, l), Cons(ExprE(b, m), Cons(ExprE(a, n), es))), One(v) + One(e),
                     Cons(ExprE(Branch(e, a, Vector(v, [b, c]), NullTree, NO_LEAVES), n'), es))
  {
    hide Owned, OwnedVector, OwnedLeaves, One, Marks, MarksVector;
    NothingOwned();
    PairOwns(v, b, c, Marks(MarksAll(es), a));
    BranchOwns(e, a, Vector(v, [b, c]), NullTree, NO_LEAVES);
    BranchMarks(MarksAll(es), e, a, Vector(v, [b, c]), NullTree, NO_LEAVES);
    assert MarksAll(Cons(ExprE(a, n), es)) == Marks(MarksAll(es), a);
    assert MarksAll(Cons(ExprE(b, m), Cons(ExprE(a, n), es))) == Marks(Marks(MarksAll(es), a), b);
    assert OwnedAll(Cons(ExprE(b, m), Cons(ExprE(a, n), es))) == Owned(b) + (Owned(a) + OwnedAll(es));
    RegroupThree(Owned(Branch(e, a, Vector(v, [b, c]), NullTree, NO_LEAVES)), One(e), OwnedLeaves(NO_LEAVES), Owned(a),
                 OwnedVector(Vector(v, [b, c])), One(v), Owned(b), Owned(c), Owned(NullTree), OwnedAll(es));
  }

  lemma NextItemAccounts(v: ExprVector, items: seq<Tree>, alias: CString?, a: Tree, n: Node, ns: NodeList,
                         ns': NodeList, es: List<Entry>)
    requires a.Tree? && a.own.alias == null
    ensures Accounts(Cons(ExprE(a, n), Cons(ListE(Vector(v, items), ns), es)), One(alias),
                     Cons(ListE(Vector(v, items + [Aliased(a, alias)]), ns'), es))
  {
    hide Owned, OwnedVector, One, Marks, MarksVector;
    AliasedOwns(a, alias);
    PushedOwns(v, items, Aliased(a, alias));
    AliasedMarks(a, alias, MarksVector(MarksAll(es), Vector(v, items)));
    PushedMarks(MarksAll(es), v, items, Aliased(a, alias));
    assert MarksAll(Cons(ListE(Vector(v, items), ns), es)) == MarksVector(MarksAll(es), Vector(v, items));
    assert OwnedAll(Cons(ListE(Vector(v, items), ns), es)) == OwnedVector(Vector(v, items)) + OwnedAll(es);
    RegroupMoved(OwnedVector(Vector(v, items + [Aliased(a, alias)])), OwnedVector(Vector(v, items)),
        Owned(Aliased(a, alias)), Owned(a),
                 One(alias), OwnedAll(es));
  }

  lemma FirstItemAccounts(v: ExprVector, alias: CString?, a: Tree, n: Node, ns: NodeList, es: List<Entry>)
    requires a.Tree? && a.own.alias == null
    ensures Accounts(Cons(ExprE(a, n), es), One(alias) + One(v), Cons(ListE(Vector(v, [Aliased(a, alias)]), ns), es))
  {
    hide Owned, OwnedVector, One, Marks, MarksVector;
    AliasedOwns(a, alias);
    SingleOwns(v, Aliased(a, alias));
    AliasedMarks(a, alias, MarksAll(es));
    SingleMarks(MarksAll(es), v, Aliased(a, alias));
  }

  function Called(name: CString): Leaves {
    Leaves(null, name, null, null)
  }

  lemma CalledOwns(name: CString)
    ensures OwnedLeaves(Called(name)) == One(name)
  {}

  lemma CallAccounts(e: Memory.Expr, ts: Trees, s: CString, ns: NodeList, n': Node, es: List<Entry>)
    ensures Accounts(Cons(ListE(ts, ns), Cons(StringE(s), es)), One(e),
              Cons(ExprE(Branch(e, NullTree, ts, NullTree, Called(s)), n'), es))
  {
    hide Owned, OwnedVector, OwnedLeaves, One, Marks, MarksVector;
    NothingOwned();
    CalledOwns(s);
    BranchOwns(e, NullTree, ts, NullTree, Called(s));
    BranchMarks(MarksAll(es), e, NullTree, ts, NullTree, Called(s));
    assert MarksAll(Cons(StringE(s), es)) == MarksAll(es);
    assert OwnedAll(Cons(StringE(s), es)) == One(s) + OwnedAll(es);
    Regroup(Owned(Branch(e, NullTree, ts, NullTree, Called(s))), One(e), One(s), Owned(NullTree), OwnedVector(ts),
        Owned(NullTree), OwnedAll(es));
  }

  /** A call without arguments owns an empty vector. */
  lemma EmptyCallAccounts(e: Memory.Expr, v: ExprVector, s: CString, n': Node, es: List<Entry>)
    ensures Accounts(Cons(StringE(s), es), One(v) + One(e),
                     Cons(ExprE(Branch(e, NullTree, Vector(v, []), NullTree, Called(s)), n'), es))
  {
    hide Owned, OwnedVector, OwnedLeaves, One, Marks, MarksVector;
    CallAccounts(e, Vector(v, []), s, NoNodes, n', es);
    SingleOwns(v, NullTree);
    SingleMarks(MarksAll(Cons(StringE(s), es)), v, NullTree);
  }

  lemma ListInAccounts(e: Memory.Expr, ts: Trees, a: Tree, n: Node, ns: NodeList, n': Node, es: List<Entry>)
    ensures Accounts(Cons(ListE(ts, ns), Cons(ExprE(a, n), es)), One(e),
              Cons(ExprE(Branch(e, a, ts, NullTree, NO_LEAVES), n'), es))
  {
    hide Owned, OwnedVector, OwnedLeaves, One, Marks, MarksVector;
    NothingOwned();
    BranchOwns(e, a, ts, NullTree, NO_LEAVES);
    BranchMarks(MarksAll(es), e, a, ts, NullTree, NO_LEAVES);
    assert MarksAll(Cons(ExprE(a, n), es)) == Marks(MarksAll(es), a);
    assert OwnedAll(Cons(ExprE(a, n), es)) == Owned(a) + OwnedAll(es);
    Regroup(Owned(Branch(e, a, ts, NullTree, NO_LEAVES)), One(e), OwnedLeaves(NO_LEAVES), Owned(a),
        OwnedVector(ts), Owned(NullTree), OwnedAll(es));
  }

  // ----- CASE -----

  function CaseList(l: Memory.Expr, v: ExprVector, items: seq<Tree>): Tree {
    Branch(l, NullTree, Vector(v, items), NullTree, NO_LEAVES)
  }

  lemma CaseListOwns(l: Memory.Expr, v: ExprVector, items: seq<Tree>, before: seq<Mark>)
    ensures Owned(CaseList(l, v, items)) == One(l) + OwnedVector(Vector(v, items))
    ensures Marks(before, CaseList(l, v, items)) == MarksVector(before, Vector(v, items))
  {
    hide Owned, OwnedVector, OwnedLeaves, One, Marks, MarksVector;
    NothingOwned();
    BranchOwns(l, NullTree, Vector(v, items), NullTree, NO_LEAVES);
    BranchMarks(before, l, NullTree, Vector(v, items), NullTree, NO_LEAVES);
  }

  /** The element of an arm is a value like any binary node. */
  lemma FirstArmAccounts(l: Memory.Expr, v: ExprVector, t: Tree, n: Node, ns: NodeArms, es: List<Entry>)
    ensures Accounts(Cons(ExprE(t, n), es), One(l) + One(v), Cons(ArmsE(CaseList(l, v, [t]), ns), es))
  {
    hide Owned, OwnedVector, OwnedLeaves, One, Marks, MarksVector, CaseList;
    SingleOwns(v, t);
    SingleMarks(MarksAll(es), v, t);
    CaseListOwns(l, v, [t], MarksAll(es));
  }

  lemma NextArmAccounts(l: Memory.Expr, v: ExprVector, items: seq<Tree>, t: Tree, n: Node, ns: NodeArms,
                        ns': NodeArms, es: List<Entry>)
    ensures Accounts(Cons(ExprE(t, n), Cons(ArmsE(CaseList(l, v, items), ns), es)), multiset{},
                     Cons(ArmsE(CaseList(l, v, items + [t]), ns'), es))
  {
    hide Owned, OwnedVector, OwnedLeaves, One, Marks, MarksVector, CaseList;
    PushedOwns(v, items, t);
    PushedMarks(MarksAll(es), v, items, t);
    CaseListOwns(l, v, items, MarksAll(es));
    CaseListOwns(l, v, items + [t], MarksAll(es));
    assert MarksAll(Cons(ArmsE(CaseList(l, v, items), ns), es)) == MarksVector(MarksAll(es), Vector(v, items));
    assert OwnedAll(Cons(ArmsE(CaseList(l, v, items), ns), es)) == Owned(CaseList(l, v, items)) + OwnedAll(es);
  }

  /** The optional operands of a CASE. */
  function Optional(t: Tree, n: OptNode, es: List<Entry>): List<Entry> {
    match n
    case NoNode => es
    case SomeNode(x) => Cons(ExprE(t, x), es)
  }

  lemma OptionalOwns(t: Tree, n: OptNode, es: List<Entry>)
    requires n.NoNode? ==> t.NullTree?
    ensures OwnedAll(Optional(t, n, es)) == Owned(t) + OwnedAll(es)
    ensures MarksAll(Optional(t, n, es)) == Marks(MarksAll(es), t)
  {
    hide Owned, Marks;
    NothingOwned();
  }

  /** The node takes over the vector of arms; the shell `l` is what is left to delete. */
  lemma CaseOwns(e: Memory.Expr, l: Memory.Expr, v: ExprVector, items: seq<Tree>, a: Tree, b: Tree, rest: Store)
    ensures Owned(Branch(e, a, Vector(v, items), b, NO_LEAVES)) + rest
         == OwnedVector(Vector(v, items)) + (Owned(b) + (Owned(a) + rest)) + One(e)
    ensures Owned(b) + (Owned(CaseList(l, v, items)) + (Owned(a) + rest))
         == Owned(CaseList(l, v, items)) + (Owned(b) + (Owned(a) + rest))
  {
    hide Owned, OwnedVector, OwnedLeaves, One;
    NothingOwned();
    BranchOwns(e, a, Vector(v, items), b, NO_LEAVES);
  }

  lemma CaseMarks(e: Memory.Expr, l: Memory.Expr, v: ExprVector, items: seq<Tree>, a: Tree, b: Tree, before: seq<Mark>)
    ensures Marks(before, Branch(e, a, Vector(v, items), b, NO_LEAVES))
              == Marks(Marks(Marks(before, a), CaseList(l, v, items)), b)
  {
    hide Marks, MarksVector;
    BranchMarks(before, e, a, Vector(v, items), b, NO_LEAVES);
    CaseListOwns(l, v, items, Marks(before, a));
  }

  /** The stack below a complete CASE. */
  function CaseEntries(a: Tree, oa: OptNode, l: Tree, ns: NodeArms, b: Tree, ob: OptNode,
                       rest: List<Entry>): List<Entry> {
    Optional(b, ob, Cons(ArmsE(l, ns), Optional(a, oa, rest)))
  }

  lemma CaseEntriesOwn(a: Tree, oa: OptNode, l: Tree, ns: NodeArms, b: Tree, ob: OptNode, rest: List<Entry>)
    requires (oa.NoNode? ==> a.NullTree?) && (ob.NoNode? ==> b.NullTree?)
    ensures OwnedAll(CaseEntries(a, oa, l, ns, b, ob, rest)) == Owned(b) + (Owned(l) + (Owned(a) + OwnedAll(rest)))
    ensures MarksAll(CaseEntries(a, oa, l, ns, b, ob, rest)) == Marks(Marks(Marks(MarksAll(rest), a), l), b)
  {
    hide Owned, Marks, Optional;
    OptionalOwns(a, oa, rest);
    OptionalOwns(b, ob, Cons(ArmsE(l, ns), Optional(a, oa, rest)));
  }
}
