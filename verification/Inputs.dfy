/**
 A whole input: expressions between the tokens of the other rules. One list collects the parameters of
 all of them, so the k-th `?` of the input is the k-th parameter of the result.
 */
module Inputs {
  import opened Tokens
  import opened Syntax
  import opened Completeness
  import opened Ast
  import opened Rendering
  import opened Binding
  import opened Memory
  import opened Nodes
  import opened Actions
  import opened Schedule
  import opened Values
  import opened HeapParser
  import opened Parameters
  import opened Numbering
  import opened Result

  /** A piece of the input: tokens that the other rules take, one expression, or a LIMIT clause with
      two expressions. */
  datatype Part =
    | Words(tokens: List<Token>)
    | Single(tokens: List<Token>)
    | Limit(first: List<Token>, comma: bool, second: List<Token>)

  function PartTokens(p: Part): List<Token> {
    match p
    case Words(ts) => ts
    case Single(ts) => ts
    case Limit(a, comma, b) =>
      Cons(Kw(Reserved("LIMIT")), Append(a, Cons(if comma then Sym(',') else Kw(Reserved("OFFSET")), b)))
  }

  function AllTokens(parts: seq<Part>): List<Token> {
    if parts == [] then Nil else Append(AllTokens(parts[..|parts| - 1]), PartTokens(parts[|parts| - 1]))
  }

  /** The token lists of the expressions, in the order of the tokens. */
  function PartExprs(p: Part): seq<List<Token>> {
    match p
    case Words(_) => []
    case Single(ts) => [ts]
    case Limit(a, _, b) => [a, b]
  }

  function Exprs(parts: seq<Part>): seq<List<Token>> {
    if parts == [] then [] else Exprs(parts[..|parts| - 1]) + PartExprs(parts[|parts| - 1])
  }

  /** Only expressions have `?` markers. */
  predicate PartParses(p: Part) {
    match p
    case Words(ts) => Questions(ts) == 0
    case Single(ts) => ParseNode(ts).Some?
    case Limit(a, _, b) => ParseNode(a).Some? && ParseNode(b).Some?
  }

  predicate Parses(parts: seq<Part>) {
    forall p | p in parts :: PartParses(p)
  }

  // ----- counting and binding over the whole input -----

  /** The markers of some token lists. */
  function Before(lists: seq<List<Token>>): nat {
    if lists == [] then 0 else Before(lists[..|lists| - 1]) + Questions(lists[|lists| - 1])
  }

  lemma {:induction false} AppendBinds(a: List<Token>, b: List<Token>, v: Texts, k: nat)
    ensures Questions(Append(a, b)) == Questions(a) + Questions(b)
    ensures BindTokens(Append(a, b), v, k) == Append(BindTokens(a, v, k), BindTokens(b, v, k + Questions(a)))
  {
    if a.Cons? {
      AppendBinds(a.tail, b, v, k + if a.head == Sym('?') then 1 else 0);
    }
  }

  function BindPart(p: Part, v: Texts, k: nat): Part {
    match p
    case Words(ts) => Words(BindTokens(ts, v, k))
    case Single(ts) => Single(BindTokens(ts, v, k))
    case Limit(a, comma, b) => Limit(BindTokens(a, v, k), comma, BindTokens(b, v, k + Questions(a)))
  }

  function BindParts(parts: seq<Part>, v: Texts): seq<Part> {
    if parts == [] then []
    else
      var init := parts[..|parts| - 1];
      BindParts(init, v) + [BindPart(parts[|parts| - 1], v, Questions(AllTokens(init)))]
  }

  lemma PartBinds(p: Part, v: Texts, k: nat)
    ensures PartTokens(BindPart(p, v, k)) == BindTokens(PartTokens(p), v, k)
  {
    if p.Limit? {
      var separator := if p.comma then Sym(',') else Kw(Reserved("OFFSET"));
      AppendBinds(p.first, Cons(separator, p.second), v, k);
    }
  }

  lemma LastPart(parts: seq<Part>, v: Texts)
    requires parts != []
    ensures var init, p := parts[..|parts| - 1], parts[|parts| - 1];
            AllTokens(BindParts(parts, v))
              == Append(AllTokens(BindParts(init, v)), PartTokens(BindPart(p, v, Questions(AllTokens(init)))))
  {
    var init := parts[..|parts| - 1];
    BindPartsSize(init, v);
    assert BindParts(parts, v)[..|parts| - 1] == BindParts(init, v);
  }

  /** Binding the parts is binding the tokens of the whole input. */
  lemma {:induction false} PartsBind(parts: seq<Part>, v: Texts)
    ensures AllTokens(BindParts(parts, v)) == BindTokens(AllTokens(parts), v, 0)
  {
    if parts != [] {
      hide Questions, PartTokens, BindPart, Append, BindTokens, BindParts;
      var init, p := parts[..|parts| - 1], parts[|parts| - 1];
      PartsBind(init, v);
      LastPart(parts, v);
      PartBinds(p, v, Questions(AllTokens(init)));
      AppendBinds(AllTokens(init), PartTokens(p), v, 0);
      assert AllTokens(BindParts(parts, v)) == BindTokens(AllTokens(parts), v, 0);
    }
  }

  lemma {:induction false} BindPartsSize(parts: seq<Part>, v: Texts)
    ensures |BindParts(parts, v)| == |parts|
  {
    if parts != [] {
      BindPartsSize(parts[..|parts| - 1], v);
    }
  }

  lemma BeforeSnoc(lists: seq<List<Token>>, ts: List<Token>)
    ensures Before(lists + [ts]) == Before(lists) + Questions(ts)
  {
    assert (lists + [ts])[..|lists|] == lists;
  }

  lemma BeforePart(lists: seq<List<Token>>, p: Part)
    requires PartParses(p)
    ensures Before(lists + PartExprs(p)) == Before(lists) + Questions(PartTokens(p))
  {
    hide ParseNode;
    match p
    case Words(_) => assert lists + [] == lists;
    case Single(ts) => BeforeSnoc(lists, ts);
    case Limit(a, comma, b) =>
      BeforeSnoc(lists, a);
      BeforeSnoc(lists + [a], b);
      assert lists + [a, b] == lists + [a] + [b];
      var separator := if comma then Sym(',') else Kw(Reserved("OFFSET"));
      AppendBinds(a, Cons(separator, b), [], 0);
      assert Questions(Cons(separator, b)) == Questions(b);
  }

  /** All markers of the input are in its expressions. */
  lemma {:induction false} MarkersAreInExprs(parts: seq<Part>)
    requires Parses(parts)
    ensures Before(Exprs(parts)) == Questions(AllTokens(parts))
  {
    if parts != [] {
      var init, p := parts[..|parts| - 1], parts[|parts| - 1];
      MarkersAreInExprs(init);
      BeforePart(Exprs(init), p);
      AppendBinds(AllTokens(init), PartTokens(p), [], 0);
    }
  }

  /** Some expressions, bound one behind the other. */
  function BindLists(lists: seq<List<Token>>, v: Texts): (bound: seq<List<Token>>)
    ensures |bound| == |lists|
  {
    if lists == [] then []
    else
      var init := lists[..|lists| - 1];
      BindLists(init, v) + [BindTokens(lists[|lists| - 1], v, Before(init))]
  }

  lemma BindListsSnoc(lists: seq<List<Token>>, ts: List<Token>, v: Texts)
    ensures BindLists(lists + [ts], v) == BindLists(lists, v) + [BindTokens(ts, v, Before(lists))]
  {
    assert (lists + [ts])[..|lists|] == lists;
  }

  lemma {:induction false} BindListsAt(lists: seq<List<Token>>, v: Texts, j: nat)
    requires j < |lists|
    ensures BindLists(lists, v)[j] == BindTokens(lists[j], v, Before(lists[..j]))
  {
    var init := lists[..|lists| - 1];
    if j < |init| {
      BindListsAt(init, v, j);
      assert init[..j] == lists[..j];
    }
  }

  lemma BindListsPart(lists: seq<List<Token>>, p: Part, v: Texts)
    ensures BindLists(lists + PartExprs(p), v) == BindLists(lists, v) + PartExprs(BindPart(p, v, Before(lists)))
  {
    hide BindTokens, Questions, BindLists, Before;
    match p
    case Words(_) => assert lists + [] == lists;
    case Single(ts) => BindListsSnoc(lists, ts, v);
    case Limit(a, _, b) =>
      BindListsSnoc(lists, a, v);
      BindListsSnoc(lists + [a], b, v);
      BeforeSnoc(lists, a);
      assert lists + [a, b] == lists + [a] + [b];
  }

  /** The expressions of the bound input. */
  lemma {:induction false} ExprsBind(parts: seq<Part>, v: Texts)
    requires Parses(parts)
    ensures Exprs(BindParts(parts, v)) == BindLists(Exprs(parts), v)
  {
    if parts != [] {
      hide ParseNode;
      var init, p := parts[..|parts| - 1], parts[|parts| - 1];
      ExprsBind(init, v);
      MarkersAreInExprs(init);
      BindPartsSize(init, v);
      assert BindParts(parts, v)[..|parts| - 1] == BindParts(init, v);
      BindListsPart(Exprs(init), p, v);
    }
  }

  // ----- what the stack holds behind some expressions -----

  /** Every expression parses. */
  predicate AllParse(lists: seq<List<Token>>) {
    forall i | 0 <= i < |lists| :: ParseNode(lists[i]).Some?
  }

  ghost function StackOf(lists: seq<List<Token>>): List<Meaning>
    requires AllParse(lists)
  {
    if lists == [] then Nil
    else Cons(ExprM(ParseNode(lists[|lists| - 1]).value), StackOf(lists[..|lists| - 1]))
  }

  /** The trees and the expressions on the stack, first one first. */
  ghost function TreesOn(es: List<Entry>): seq<Tree> {
    match es
    case Nil => []
    case Cons(en, rest) => TreesOn(rest) + [if en.ExprE? then en.tree else NullTree]
  }

  lemma StackSnoc(lists: seq<List<Token>>, ts: List<Token>)
    requires AllParse(lists) && ParseNode(ts).Some?
    ensures AllParse(lists + [ts]) && StackOf(lists + [ts]) == Cons(ExprM(ParseNode(ts).value), StackOf(lists))
  {
    assert (lists + [ts])[..|lists|] == lists;
  }

  /** One more expression of the input. */
  method ParseNext(ts: List<Token>, st0: State, ghost es0: List<Entry>, ghost base: Store,
                   ghost lists: seq<List<Token>>)
    returns (ok: bool, st: State, ghost es: List<Entry>)
    requires Holds(st0, es0, base) && AllParse(lists) && Meanings(es0) == StackOf(lists)
    requires |st0.params| == Before(lists)
    modifies set o | o in OwnedAll(es0)
    ensures ok <==> ParseNode(ts).Some?
    ensures ok ==> AllParse(lists + [ts]) && Holds(st, es, base) && Meanings(es) == StackOf(lists + [ts])
    ensures ok ==> |st.params| == Before(lists + [ts])
    ensures ok ==> forall o | o in st.live :: o in st0.live || fresh(o)
    ensures !ok ==> st.live == base
  {
    hide *;
    ok, st, es := ParseOnto(ts, st0, es0, base);
    if ok {
      StackSnoc(lists, ts);
      BeforeSnoc(lists, ts);
    }
  }

  method ParsePart(p: Part, st0: State, ghost es0: List<Entry>, ghost base: Store, ghost lists: seq<List<Token>>)
    returns (ok: bool, st: State, ghost es: List<Entry>)
    requires Holds(st0, es0, base) && AllParse(lists) && Meanings(es0) == StackOf(lists)
    requires |st0.params| == Before(lists)
    modifies set o | o in OwnedAll(es0)
    ensures ok <==> PartParses(p)
    ensures ok ==> AllParse(lists + PartExprs(p)) && Holds(st, es, base)
    ensures ok ==> Meanings(es) == StackOf(lists + PartExprs(p))
    ensures ok ==> |st.params| == Before(lists + PartExprs(p))
    ensures ok ==> forall o | o in st.live :: o in st0.live || fresh(o)
    ensures !ok ==> st.live == base
  {
    hide Owned, OwnedAll, FeetAll, Marks, MarksAll, Meanings, AllGood, Sane, Numbered, ParseNode, StackOf, Before,
        AllParse;
    match p
    case Words(ts) =>
      assert lists + PartExprs(p) == lists;
      if Questions(ts) == 0 {
        ok, st, es := true, st0, es0;
      } else {
        var after := DestroyAll(st0, es0, base);
        ok, st, es := false, State(Nil, after, []), Nil;
      }
    case Single(ts) =>
      ok, st, es := ParseNext(ts, st0, es0, base, lists);
    case Limit(a, _, b) =>
      assert lists + PartExprs(p) == lists + [a] + [b];
      ok, st, es := ParseNext(a, st0, es0, base, lists);
      if ok {
        OwnedBefore(es0, st0.live, es, st.live, base);
        ok, st, es := ParseNext(b, st, es, base, lists + [a]);
      }
  }

  lemma NothingOwned(es: List<Entry>, st: State, live: Store)
    requires Holds(st, es, live)
    ensures forall o | o in OwnedAll(es) :: o !in live && o in st.live
  {
    hide OwnedAll;
    forall o | o in OwnedAll(es) ensures o !in live && o in st.live {
      assert st.live[o] == OwnedAll(es)[o] + live[o];
    }
  }

  /** Parses the expressions of an input. Accepted: the stack holds one tree for each expression, in
      order, and the list one parameter for each `?` of the input. Rejected: nothing is left. */
  method ParseParts(parts: seq<Part>, live: Store) returns (ok: bool, st: State, ghost es: List<Entry>)
    requires Sane(live)
    ensures ok <==> Parses(parts)
    ensures ok ==> AllParse(Exprs(parts)) && Holds(st, es, live) && Meanings(es) == StackOf(Exprs(parts))
    ensures ok ==> |st.params| == Questions(AllTokens(parts))
    ensures ok ==> forall o | o in st.live :: o in live || fresh(o)
    ensures !ok ==> st.live == live
  {
    hide Owned, OwnedAll, FeetAll, Marks, MarksAll, AllGood, Sane, Numbered, ParseNode;
    EmptyHolds(live);
    ok, st, es := true, State(Nil, live, []), Nil;
    assert parts[..0] == [];
    for i := 0 to |parts|
      invariant Parses(parts[..i]) && AllParse(Exprs(parts[..i])) && Meanings(es) == StackOf(Exprs(parts[..i]))
      invariant Holds(st, es, live) && |st.params| == Before(Exprs(parts[..i]))
      invariant forall o | o in st.live :: o in live || fresh(o)
    {
      assert parts[..i + 1] == parts[..i] + [parts[i]] && parts[..i + 1][..i] == parts[..i];
      NothingOwned(es, st, live);
      ok, st, es := ParsePart(parts[i], st, es, live, Exprs(parts[..i]));
      if !ok {
        assert parts[i] in parts;
        return;
      }
    }
    assert parts[..|parts|] == parts;
    MarkersAreInExprs(parts);
    ok := true;
  }

  // ----- the accepted input -----

  function ExprsOn(vs: List<Value>): seq<Memory.Expr> {
    match vs
    case Nil => []
    case Cons(x, rest) => ExprsOn(rest) + if x.ExprV? then [x.expr] else []
  }

  lemma TopOfStack(vs: List<Value>, es: List<Entry>, lists: seq<List<Token>>)
    requires AllGood(vs, es) && AllParse(lists) && Meanings(es) == StackOf(lists)
    ensures lists == [] ==> es.Nil? && vs.Nil?
    ensures lists != [] ==>
              && es.Cons? && es.head.ExprE? && vs.Cons? && vs.head.ExprV?
              && Built(es.head.tree, vs.head.expr, ParseNode(lists[|lists| - 1]).value) && AllGood(vs.tail, es.tail)
              && AllParse(lists[..|lists| - 1]) && Meanings(es.tail) == StackOf(lists[..|lists| - 1])
  {
    hide Built, ParseNode, Owned, Marks;
  }

  lemma StackParts(vs: List<Value>, es: List<Entry>)
    requires es.Cons? && es.head.ExprE? && vs.Cons? && vs.head.ExprV?
    ensures TreesOn(es) == TreesOn(es.tail) + [es.head.tree] && ExprsOn(vs) == ExprsOn(vs.tail) + [vs.head.expr]
    ensures MarksAll(es) == Marks(MarksAll(es.tail), es.head.tree)
    ensures OwnedAll(es) == Owned(es.head.tree) + OwnedAll(es.tail)
  {}

  lemma EmptyStack()
    ensures TreesOn(Nil) == [] && ExprsOn(Nil) == [] && MarksAll(Nil) == [] && OwnedAll(Nil) == multiset{}
    ensures OwnedItems([]) == multiset{} && MarksItems([], []) == []
  {}

  lemma MarksSnoc(trees: seq<Tree>, t: Tree)
    ensures MarksItems([], trees + [t]) == Marks(MarksItems([], trees), t)
  {
    assert (trees + [t])[..|trees|] == trees;
  }

  /** The stack holds one expression for each list; together they own what the stack owns. */
  lemma {:induction false} StackHolds(vs: List<Value>, es: List<Entry>, lists: seq<List<Token>>)
    requires AllGood(vs, es) && AllParse(lists) && Meanings(es) == StackOf(lists)
    ensures |TreesOn(es)| == |ExprsOn(vs)| == |lists|
    ensures forall j | 0 <= j < |lists| :: Built(TreesOn(es)[j], ExprsOn(vs)[j], ParseNode(lists[j]).value)
    ensures OwnedItems(TreesOn(es)) == OwnedAll(es) && MarksItems([], TreesOn(es)) == MarksAll(es)
  {
    hide Owned, OwnedAll, OwnedItems, Marks, MarksAll, MarksItems, Built, ParseNode, TreesOn, ExprsOn, StackOf,
        Meanings, AllGood;
    TopOfStack(vs, es, lists);
    EmptyStack();
    if lists != [] {
      var n := |lists| - 1;
      StackHolds(vs.tail, es.tail, lists[..n]);
      StackParts(vs, es);
      OwnedSnoc(TreesOn(es.tail), es.head.tree);
      MarksSnoc(TreesOn(es.tail), es.head.tree);
      forall j | 0 <= j < |lists| ensures Built(TreesOn(es)[j], ExprsOn(vs)[j], ParseNode(lists[j]).value) {
        if j < n {
          assert lists[..n][j] == lists[j];
          assert TreesOn(es)[j] == TreesOn(es.tail)[j] && ExprsOn(vs)[j] == ExprsOn(vs.tail)[j];
        }
      }
    }
  }

  const MARKER: List<Token> := Cons(Sym('?'), Nil)

  /** The j-th tree is filled from the marker on that comes behind those of the lists before it; if its
      list is one marker, its node is the parameter for that marker. */
  ghost predicate FilledAt(trees: seq<Tree>, marks: seq<Mark>, lists: seq<List<Token>>, v: Texts, j: nat)
    requires AllParse(lists) && |trees| == |lists| && j < |lists|
  {
    var n, k := ParseNode(lists[j]).value, Before(lists[..j]);
    && Fill(trees[j], n, v) == BindNode(n, v, k)
    && (lists[j] == MARKER ==> k < |marks| && trees[j].Tree? && marks[k].node == trees[j].node)
  }

  lemma MarkerParses()
    ensures ParseNode(MARKER) == Some(Parameter)
  {
    assert ExprTokens(Plain(Leaf(Sym('?'))), Nil) == MARKER;
    ParseIsComplete(Plain(Leaf(Sym('?'))));
  }

  lemma MarkerIsParameter(before: seq<Mark>, t: Tree, e: Memory.Expr?)
    requires Built(t, e, Parameter)
    ensures t.Tree? && |Marks(before, t)| == |before| + 1 && Marks(before, t)[|before|].node == t.node
  {
    assert Linked(t) && Represents(t, Parameter, None);
    assert Children(t.expr, t.list, t.expr2, Parameter);
    assert t.expr.NullTree? && t.list.NullVector? && t.expr2.NullTree? && t.escape.NullTree?;
    assert Marks(before, t) == before + [Mark(t.node, t.param.value)];
  }

  /** The last tree. */
  lemma LastFills(before: seq<Mark>, t: Tree, e: Memory.Expr?, ts: List<Token>, v: Texts)
    requires ParseNode(ts).Some? && Built(t, e, ParseNode(ts).value) && InOrder(Marks(before, t), |before|)
    ensures Fill(t, ParseNode(ts).value, v) == BindNode(ParseNode(ts).value, v, |before|)
    ensures |Marks(before, t)| == |before| + Questions(ts) && before <= Marks(before, t)
    ensures ts == MARKER ==> t.Tree? && |Marks(before, t)| > |before| && Marks(before, t)[|before|].node == t.node
  {
    var n := ParseNode(ts).value;
    hide Marks, ParseNode, Fill, BindNode, Slots;
    MarksExtend(before, t);
    FillIsBind(before, t, n, None, v);
    BindingCommutes(ts, v, |before|);
    if ts == MARKER {
      MarkerParses();
      MarkerIsParameter(before, t, e);
    }
  }

  /** The marks on the stack count the markers of the lists, and stand in order. */
  lemma {:induction false} StackCounts(vs: List<Value>, es: List<Entry>, lists: seq<List<Token>>)
    requires AllGood(vs, es) && AllParse(lists) && Meanings(es) == StackOf(lists) && InOrder(MarksAll(es), 0)
    ensures |MarksAll(es)| == Before(lists)
  {
    hide Marks, MarksAll, Built, ParseNode, StackOf, Meanings, AllGood;
    TopOfStack(vs, es, lists);
    EmptyStack();
    if lists != [] {
      var n := |lists| - 1;
      StackParts(vs, es);
      MarksExtend(MarksAll(es.tail), es.head.tree);
      OrderSplits([], MarksAll(es.tail), MarksAll(es));
      StackCounts(vs.tail, es.tail, lists[..n]);
      LastFills(MarksAll(es.tail), es.head.tree, vs.head.expr, lists[n], []);
    }
  }

  lemma FilledBelow(trees: seq<Tree>, t: Tree, below: seq<Mark>, marks: seq<Mark>, lists: seq<List<Token>>,
                    v: Texts, j: nat)
    requires AllParse(lists) && |lists| == |trees| + 1 && j < |trees| && below <= marks
    requires AllParse(lists[..|trees|]) && FilledAt(trees, below, lists[..|trees|], v, j)
    ensures FilledAt(trees + [t], marks, lists, v, j)
  {
    hide ParseNode;
    assert lists[..|trees|][..j] == lists[..j] && lists[..|trees|][j] == lists[j];
  }

  lemma {:induction false} StackFills(vs: List<Value>, es: List<Entry>, lists: seq<List<Token>>, v: Texts, j: nat)
    requires AllGood(vs, es) && AllParse(lists) && Meanings(es) == StackOf(lists) && InOrder(MarksAll(es), 0)
    requires j < |lists| == |TreesOn(es)|
    ensures FilledAt(TreesOn(es), MarksAll(es), lists, v, j)
  {
    hide Marks, MarksAll, Built, ParseNode, StackOf, Meanings, AllGood, TreesOn, OwnedAll, Fill, BindNode, Before;
    TopOfStack(vs, es, lists);
    var n := |lists| - 1;
    var below := MarksAll(es.tail);
    StackParts(vs, es);
    MarksExtend(below, es.head.tree);
    OrderSplits([], below, MarksAll(es));
    if j < n {
      StackFills(vs.tail, es.tail, lists[..n], v, j);
      FilledBelow(TreesOn(es.tail), es.head.tree, below, MarksAll(es), lists, v, j);
    } else {
      StackCounts(vs.tail, es.tail, lists[..n]);
      LastFills(below, es.head.tree, vs.head.expr, lists[n], v);
    }
  }

  // ----- LIMIT clauses -----

  /** What `new LimitDescription` is called with. */
  datatype LimitDescription = LimitDescription(limit: Memory.Expr, offset: Memory.Expr)

  /** `LIMIT a OFFSET b`, or `LIMIT b, a`. */
  function LimitOf(comma: bool, first: Memory.Expr, second: Memory.Expr): LimitDescription {
    if comma then LimitDescription(second, first) else LimitDescription(first, second)
  }

  /** What becomes of the i-th part: the expressions of a LIMIT clause are those at its place. */
  ghost predicate LimitAt(parts: seq<Part>, exprs: seq<Memory.Expr>, i: nat, l: Option<LimitDescription>)
    requires i < |parts|
  {
    var j := |Exprs(parts[..i])|;
    if parts[i].Limit? then j + 1 < |exprs| && l == Some(LimitOf(parts[i].comma, exprs[j], exprs[j + 1]))
    else l == None
  }

  lemma ExprsOfLast(parts: seq<Part>)
    requires parts != []
    ensures |Exprs(parts)| == |Exprs(parts[..|parts| - 1])| + |PartExprs(parts[|parts| - 1])|
  {}

  /** The descriptions of the LIMIT clauses, given the expressions of the input. */
  function Limits(parts: seq<Part>, exprs: seq<Memory.Expr>): (limits: seq<Option<LimitDescription>>)
    requires |exprs| == |Exprs(parts)|
    ensures |limits| == |parts|
  {
    if parts == [] then []
    else
      var m := |parts| - 1;
      var n := |exprs| - |PartExprs(parts[m])|;
      ExprsOfLast(parts);
      Limits(parts[..m], exprs[..n])
      + [if parts[m].Limit? then Some(LimitOf(parts[m].comma, exprs[n], exprs[n + 1])) else None]
  }

  lemma LimitsUnfold(parts: seq<Part>, exprs: seq<Memory.Expr>)
    requires |exprs| == |Exprs(parts)| && parts != []
    ensures var m := |parts| - 1;
            var n := |Exprs(parts[..m])|;
            && n <= |exprs| && LimitAt(parts, exprs, m, Limits(parts, exprs)[m])
            && forall i | 0 <= i < m :: Limits(parts, exprs)[i] == Limits(parts[..m], exprs[..n])[i]
  {
    ExprsOfLast(parts);
  }

  lemma LimitAtLonger(parts: seq<Part>, exprs: seq<Memory.Expr>, m: nat, n: nat, i: nat, l: Option<LimitDescription>)
    requires i < m <= |parts| && n <= |exprs| && LimitAt(parts[..m], exprs[..n], i, l)
    ensures LimitAt(parts, exprs, i, l)
  {
    hide Exprs;
    assert parts[..m][..i] == parts[..i];
  }

  lemma {:induction false} LimitsAreAt(parts: seq<Part>, exprs: seq<Memory.Expr>, i: nat)
    requires |exprs| == |Exprs(parts)| && i < |parts|
    ensures LimitAt(parts, exprs, i, Limits(parts, exprs)[i])
    decreases |parts|
  {
    hide Exprs, Limits, LimitAt;
    var m := |parts| - 1;
    var n := |Exprs(parts[..m])|;
    LimitsUnfold(parts, exprs);
    if i < m {
      LimitsAreAt(parts[..m], exprs[..n], i);
      LimitAtLonger(parts, exprs, m, n, i, Limits(parts, exprs)[i]);
    }
  }

  // ----- from the tokens of the input to the result -----

  lemma NumberedInOrder(params: seq<Memory.Expr>)
    ensures InOrder(Numbered(params), 0)
  {}

  /** With numbers for its markers, the j-th expression of the bound input is the j-th tree filled by the
      indices in its parameter nodes. */
  lemma InputFills(parts: seq<Part>, st: State, es: List<Entry>, base: Store, v: Texts, j: nat)
    requires Parses(parts) && AllParse(Exprs(parts)) && Holds(st, es, base) && Meanings(es) == StackOf(Exprs(parts))
    requires j < |Exprs(parts)| == |TreesOn(es)|
    ensures |Exprs(BindParts(parts, v))| == |Exprs(parts)|
    ensures ParseNode(Exprs(BindParts(parts, v))[j])
         == Some(Fill(TreesOn(es)[j], ParseNode(Exprs(parts)[j]).value, v))
    ensures Exprs(parts)[j] == MARKER ==>
              var k := Before(Exprs(parts)[..j]);
              k < |st.params| && TreesOn(es)[j].Tree? && TreesOn(es)[j].node == st.params[k]
  {
    hide Owned, OwnedAll, Marks, MarksAll, Built, ParseNode, StackOf, Meanings, AllGood, Fill, BindNode, TreesOn,
        Before, Exprs, BindTokens;
    var lists := Exprs(parts);
    NumberedInOrder(st.params);
    StackFills(st.values, es, lists, v, j);
    ExprsBind(parts, v);
    BindListsAt(lists, v, j);
    BindingCommutes(lists[j], v, Before(lists[..j]));
  }

  /** What the trees and the parameters of a parsed input have to do with its tokens: one parameter for
      each `?`, in order; an expression that is one `?` is the parameter for it; and with numbers for
      the markers, each expression of the bound input is its tree, filled by the indices in the nodes. */
  ghost predicate Finished(parts: seq<Part>, exprs: seq<Memory.Expr>, trees: seq<Tree>, params: seq<Memory.Expr>) {
    && AllParse(Exprs(parts)) && |exprs| == |trees| == |Exprs(parts)|
    && |params| == Questions(AllTokens(parts)) && MarksItems([], trees) == Numbered(params)
    && (forall j | 0 <= j < |exprs| && Exprs(parts)[j] == MARKER ::
          Before(Exprs(parts)[..j]) < |params| && exprs[j] == params[Before(Exprs(parts)[..j])])
    && (forall v: Texts, j | 0 <= j < |exprs| ::
          && |Exprs(BindParts(parts, v))| == |exprs|
          && ParseNode(Exprs(BindParts(parts, v))[j]) == Some(Fill(trees[j], ParseNode(Exprs(parts)[j]).value, v)))
  }

  lemma InputFinished(parts: seq<Part>, st: State, es: List<Entry>, base: Store)
    requires Parses(parts) && AllParse(Exprs(parts)) && Holds(st, es, base) && Meanings(es) == StackOf(Exprs(parts))
    requires |st.params| == Questions(AllTokens(parts))
    ensures Finished(parts, ExprsOn(st.values), TreesOn(es), st.params)
  {
    hide Owned, OwnedAll, Marks, MarksAll, MarksItems, Built, ParseNode, StackOf, Meanings, AllGood, Fill, TreesOn,
        ExprsOn, Before, Exprs, BindParts, Numbered, Questions, AllTokens;
    var lists, exprs, trees := Exprs(parts), ExprsOn(st.values), TreesOn(es);
    StackHolds(st.values, es, lists);
    forall v: Texts, j | 0 <= j < |exprs|
      ensures |Exprs(BindParts(parts, v))| == |exprs|
      ensures ParseNode(Exprs(BindParts(parts, v))[j]) == Some(Fill(trees[j], ParseNode(lists[j]).value, v))
    {
      InputFills(parts, st, es, base, v, j);
    }
    forall j | 0 <= j < |exprs| && lists[j] == MARKER
      ensures Before(lists[..j]) < |st.params| && exprs[j] == st.params[Before(lists[..j])]
    {
      InputFills(parts, st, es, base, [], j);
      BuiltRoot(trees[j], exprs[j], ParseNode(lists[j]).value);
    }
  }

  lemma BuiltRoot(t: Tree, e: Memory.Expr, n: Node)
    requires Built(t, e, n)
    ensures t.Tree? && t.node == e
  {}

  lemma {:induction false} NonNullAll(params: seq<Memory.Expr>)
    ensures NonNull(params) == params
  {
    if params != [] {
      NonNullAll(params[..|params| - 1]);
      assert params == params[..|params| - 1] + [params[|params| - 1]];
    }
  }

  /** What a parsed input has left on the stack, before its parameters get their final numbers. */
  lemma ParsedParts(parts: seq<Part>, st: State, es: List<Entry>, live: Store)
    requires Parses(parts) && AllParse(Exprs(parts)) && Holds(st, es, live) && Meanings(es) == StackOf(Exprs(parts))
    requires |st.params| == Questions(AllTokens(parts))
    ensures Finished(parts, ExprsOn(st.values), TreesOn(es), st.params)
    ensures |TreesOn(es)| == |ExprsOn(st.values)| == |Exprs(parts)|
    ensures forall j | 0 <= j < |Exprs(parts)| ::
              Built(TreesOn(es)[j], ExprsOn(st.values)[j], ParseNode(Exprs(parts)[j]).value)
    ensures st.live == OwnedItems(TreesOn(es)) + live && Sane(st.live)
    ensures Distinct(st.params) && forall x | x in st.params :: x in st.live && x !in live
    ensures forall k | 0 <= k < |st.params| :: st.params[k].type_ == KParameter && st.params[k].ival2 == k
  {
    hide Owned, OwnedAll, OwnedItems, Marks, MarksAll, Built, ParseNode, StackOf, Meanings, AllGood, TreesOn,
        ExprsOn, Exprs, Finished, AllTokens, Questions;
    InputFinished(parts, st, es, live);
    StackHolds(st.values, es, Exprs(parts));
    ParametersAreDistinct(es, st.params, live);
    NothingOwned(es, st, live);
    AllMarksAreWritten(st.values, es);
    forall k | 0 <= k < |st.params| ensures st.params[k].type_ == KParameter && st.params[k].ival2 == k {
      assert MarksAll(es)[k] == Mark(st.params[k], k);
    }
  }

  /** Parses an input into a result without parameters. The k-th `?` of the whole input is the k-th
      parameter of the result, and both of its numbers are k. */
  method ParseInput(parts: seq<Part>, statements: seq<SQLStatement>, live: Store, result: SQLParserResult)
    returns (ok: bool, exprs: seq<Memory.Expr>, limits: seq<Option<LimitDescription>>, after: Store,
             ghost trees: seq<Tree>)
    requires Sane(live) && result.parameters_ == []
    modifies result`statements_, result`parameters_
    ensures ok <==> Parses(parts)
    ensures !ok ==> after == live && result.statements_ == old(result.statements_) && result.parameters_ == []
    ensures ok ==> Finished(parts, exprs, trees, result.parameters_)
    ensures ok ==> forall j | 0 <= j < |exprs| :: Built(trees[j], exprs[j], ParseNode(Exprs(parts)[j]).value)
    ensures ok ==> after == OwnedItems(trees) + live && Sane(after)
    ensures ok ==> forall k | 0 <= k < |result.parameters_| ::
                     && result.parameters_[k].type_ == KParameter
                     && result.parameters_[k].ival == k && result.parameters_[k].ival2 == k
    ensures ok ==> |limits| == |parts| && forall i | 0 <= i < |parts| :: LimitAt(parts, exprs, i, limits[i])
    ensures ok ==> result.statements_ == old(result.statements_) + statements
  {
    hide Owned, OwnedAll, OwnedItems, Marks, MarksAll, Holds, ParseNode, StackOf, Meanings, AllGood, TreesOn,
        ExprsOn, Exprs, Finished, Linked, Represents, LimitAt, Numbered, NonNull, Sane, Parses;
    var st;
    ghost var es;
    ok, st, es := ParseParts(parts, live);
    exprs, limits, after, trees := [], [], st.live, [];
    if ok {
      ParsedParts(parts, st, es, live);
      exprs, trees := ExprsOn(st.values), TreesOn(es);
      limits := Limits(parts, exprs);
      forall i | 0 <= i < |parts| ensures LimitAt(parts, exprs, i, limits[i]) {
        LimitsAreAt(parts, exprs, i);
      }
      NonNullAll(st.params);
      assert allocated(trees) && allocated(st.params);
      label Parsed:
      FinishInput(result, statements, st.params);
      assert result.parameters_ == st.params;
      assert forall k | 0 <= k < |st.params| :: st.params[k].type_ == KParameter;
      forall j | 0 <= j < |exprs| ensures Built(trees[j], exprs[j], ParseNode(Exprs(parts)[j]).value) {
        BuiltStays@Parsed(Claim(trees[j], ParseNode(Exprs(parts)[j]).value, None));
      }
    }
  }

  lemma {:induction false} ExprsSplit(parts: seq<Part>, i: nat)
    requires i < |parts|
    ensures Exprs(parts[..i]) + PartExprs(parts[i]) <= Exprs(parts)
    decreases |parts|
  {
    var n := |parts| - 1;
    if i < n {
      ExprsSplit(parts[..n], i);
      assert parts[..n][..i] == parts[..i];
    } else {
      assert parts[..i] == parts[..n];
    }
  }

  /** Behind LIMIT, the first expression is the offset if a comma follows it, and the limit if OFFSET does. */
  lemma LimitByWords(parts: seq<Part>, exprs: seq<Memory.Expr>, i: nat, l: Option<LimitDescription>)
    requires |exprs| == |Exprs(parts)| && i < |parts| && parts[i].Limit? && LimitAt(parts, exprs, i, l)
    ensures var j, a, b := |Exprs(parts[..i])|, parts[i].first, parts[i].second;
            && j + 1 < |exprs| && Exprs(parts)[j] == a && Exprs(parts)[j + 1] == b && l.Some?
            && ((PartTokens(parts[i]) == Cons(Kw(Reserved("LIMIT")), Append(a, Cons(Sym(','), b)))
                  && l.value.offset == exprs[j] && l.value.limit == exprs[j + 1])
                || (PartTokens(parts[i]) == Cons(Kw(Reserved("LIMIT")), Append(a, Cons(Kw(Reserved("OFFSET")), b)))
                  && l.value.limit == exprs[j] && l.value.offset == exprs[j + 1]))
  {
    hide Exprs;
    ExprsSplit(parts, i);
    var before := Exprs(parts[..i]);
    var both := before + PartExprs(parts[i]);
    assert both[|before|] == parts[i].first && both[|before| + 1] == parts[i].second;
  }

  const LIMIT_COMMA := Cons(Kw(Reserved("LIMIT")), Cons(Sym('?'), Cons(Sym(','), Cons(Sym('?'), Nil))))
  const LIMIT_OFFSET := Cons(Kw(Reserved("LIMIT")), Cons(Sym('?'), Cons(Kw(Reserved("OFFSET")), Cons(Sym('?'), Nil))))

  lemma LimitWords(p: Part)
    requires p.Limit? && p.first == MARKER == p.second
    ensures PartTokens(p) == if p.comma then LIMIT_COMMA else LIMIT_OFFSET
  {}

  /** In `LIMIT ?, ?` the offset is the earlier parameter; in `LIMIT ? OFFSET ?` it is the later one. */
  lemma LimitMarkers(parts: seq<Part>, exprs: seq<Memory.Expr>, trees: seq<Tree>, params: seq<Memory.Expr>, i: nat,
                     l: Option<LimitDescription>)
    requires Parses(parts) && Finished(parts, exprs, trees, params)
    requires i < |parts| && parts[i].Limit? && parts[i].first == MARKER == parts[i].second
    requires LimitAt(parts, exprs, i, l)
    ensures var k := Questions(AllTokens(parts[..i]));
            && k + 1 < |params| && l.Some?
            && ((PartTokens(parts[i]) == LIMIT_COMMA
                  && l.value.offset == params[k] && l.value.limit == params[k + 1])
                || (PartTokens(parts[i]) == LIMIT_OFFSET
                  && l.value.limit == params[k] && l.value.offset == params[k + 1]))
  {
    LimitWords(parts[i]);
    hide Finished, ParseNode, Fill, BindParts, AllTokens, Exprs, Before, Parses;
    MarkersOfLimit(parts, i);
    var j := |Exprs(parts[..i])|;
    MarkerAt(parts, exprs, trees, params, j);
    MarkerAt(parts, exprs, trees, params, j + 1);
  }

  lemma MarkerAt(parts: seq<Part>, exprs: seq<Memory.Expr>, trees: seq<Tree>, params: seq<Memory.Expr>, j: nat)
    requires Finished(parts, exprs, trees, params) && j < |Exprs(parts)| && Exprs(parts)[j] == MARKER
    ensures |exprs| == |Exprs(parts)| && Before(Exprs(parts)[..j]) < |params|
    ensures exprs[j] == params[Before(Exprs(parts)[..j])]
  {
    hide ParseNode, Fill, BindParts, AllTokens, Exprs, Before, Numbered, MarksItems;
  }

  lemma MarkersOfLimit(parts: seq<Part>, i: nat)
    requires Parses(parts) && i < |parts| && parts[i].Limit? && parts[i].first == MARKER == parts[i].second
    ensures var j, k := |Exprs(parts[..i])|, Questions(AllTokens(parts[..i]));
            && j + 1 < |Exprs(parts)| && Exprs(parts)[j] == MARKER == Exprs(parts)[j + 1]
            && Before(Exprs(parts)[..j]) == k && Before(Exprs(parts)[..j + 1]) == k + 1
  {
    hide ParseNode, Exprs, Before, AllTokens;
    var before := Exprs(parts[..i]);
    var j := |before|;
    ExprsSplit(parts, i);
    assert Before(before) == Questions(AllTokens(parts[..i])) by { MarkersAreInExprs(parts[..i]); }
    assert Before(before + [MARKER]) == Before(before) + 1 by {
      BeforeSnoc(before, MARKER);
      assert Questions(MARKER) == 1;
    }
    assert Exprs(parts)[..j] == before && Exprs(parts)[..j + 1] == before + [MARKER];
  }
}
