/**
 Numbering the parameters of a tree writes only `ival`, which nothing that the tree stands for depends
 on.
 */
module Numbering {
  import opened Tokens
  import opened Ast
  import opened Memory
  import opened Nodes

  /** Nothing but `ival` has changed in these objects. */
  twostate predicate OnlyNumbers(feet: set<object>)
    reads feet
  {
    && (forall e: Memory.Expr | e in feet && old(allocated(e)) ::
          && e.type_ == old(e.type_) && e.opType == old(e.opType) && e.number == old(e.number)
          && e.distinct == old(e.distinct) && e.ival2 == old(e.ival2)
          && e.expr == old(e.expr) && e.exprList == old(e.exprList) && e.expr2 == old(e.expr2)
          && e.escape == old(e.escape) && e.select == old(e.select)
          && e.name == old(e.name) && e.table == old(e.table) && e.alias == old(e.alias))
    && (forall v: ExprVector | v in feet && old(allocated(v)) :: v.items == old(v.items))
  }

  lemma ItemFeet(items: seq<Tree>, i: nat)
    requires i < |items|
    ensures Feet(items[i]) <= FeetItems(items) && FeetItems(items[..i]) <= FeetItems(items)
  {}

  twostate lemma LinkedStays(t: Tree)
    requires OnlyNumbers(Feet(t))
    ensures Linked(t) == old(Linked(t))
    decreases t, 1
  {
    if t.Tree? {
      LinkedStays(t.expr);
      VectorStays(t.list);
      LinkedStays(t.expr2);
      LinkedStays(t.escape);
    }
  }

  twostate lemma VectorStays(ts: Trees)
    requires OnlyNumbers(FeetVector(ts))
    ensures LinkedVector(ts) == old(LinkedVector(ts))
    decreases ts, 0
  {
    if ts.Vector? {
      forall i | 0 <= i < |ts.items| ensures Linked(ts.items[i]) == old(Linked(ts.items[i])) {
        ItemFeet(ts.items, i);
        LinkedStays(ts.items[i]);
      }
    }
  }

  /** A tree and what it is said to stand for. */
  datatype Claim = Claim(tree: Tree, node: Node, alias: Option<string>)

  datatype OptClaim = OptClaim(tree: Tree, node: OptNode)

  datatype ListClaim = ListClaim(items: seq<Tree>, nodes: NodeList)

  datatype ArmsClaim = ArmsClaim(items: seq<Tree>, arms: NodeArms)

  twostate lemma RepresentsStays(c: Claim)
    requires OnlyNumbers(Feet(c.tree))
    ensures Represents(c.tree, c.node, c.alias) == old(Represents(c.tree, c.node, c.alias))
    decreases c.node, 3
  {
    if c.tree.Tree? {
      ChildrenStay(c);
      hide Children;
    }
  }

  twostate lemma ChildrenStay(c: Claim)
    requires c.tree.Tree? && OnlyNumbers(Feet(c.tree))
    ensures Children(c.tree.expr, c.tree.list, c.tree.expr2, c.node)
         == old(Children(c.tree.expr, c.tree.list, c.tree.expr2, c.node))
    decreases c.node, 2
  {
    if c.node.OpBinary? || c.node.OpAnd? || c.node.OpOr? {
      PairStays(c);
    } else if c.node.OpUnary? || c.node.OpInSelect? {
      RepresentsStays(Claim(c.tree.expr, c.node.expr, None));
    } else if c.node.OpBetween? {
      BetweenStays(c);
    } else if c.node.OpCase? {
      CaseStays(c);
    } else if c.node.OpIn? {
      InStays(c);
    } else if c.node.FunctionRef? {
      CallStays(c);
    }
  }

  twostate lemma PairStays(c: Claim)
    requires c.tree.Tree? && OnlyNumbers(Feet(c.tree)) && (c.node.OpBinary? || c.node.OpAnd? || c.node.OpOr?)
    ensures Children(c.tree.expr, c.tree.list, c.tree.expr2, c.node)
         == old(Children(c.tree.expr, c.tree.list, c.tree.expr2, c.node))
    decreases c.node, 1
  {
    RepresentsStays(Claim(c.tree.expr, c.node.expr, None));
    RepresentsStays(Claim(c.tree.expr2, c.node.expr2, None));
  }

  twostate lemma BetweenStays(c: Claim)
    requires c.tree.Tree? && OnlyNumbers(Feet(c.tree)) && c.node.OpBetween?
    ensures Children(c.tree.expr, c.tree.list, c.tree.expr2, c.node)
         == old(Children(c.tree.expr, c.tree.list, c.tree.expr2, c.node))
    decreases c.node, 1
  {
    RepresentsStays(Claim(c.tree.expr, c.node.expr, None));
    if c.tree.list.Vector? {
      var items := c.tree.list.items;
      assert FeetItems(items) <= FeetVector(c.tree.list);
      if |items| == 2 {
        ItemFeet(items, 0);
        ItemFeet(items, 1);
        RepresentsStays(Claim(items[0], c.node.low, None));
        RepresentsStays(Claim(items[1], c.node.high, None));
      }
      assert RepresentsBounds(items, c.node) == old(RepresentsBounds(items, c.node));
    }
  }

  twostate lemma CaseStays(c: Claim)
    requires c.tree.Tree? && OnlyNumbers(Feet(c.tree)) && c.node.OpCase?
    ensures Children(c.tree.expr, c.tree.list, c.tree.expr2, c.node)
         == old(Children(c.tree.expr, c.tree.list, c.tree.expr2, c.node))
    decreases c.node, 1
  {
    OptStays(OptClaim(c.tree.expr, c.node.base));
    OptStays(OptClaim(c.tree.expr2, c.node.otherwise));
    if c.tree.list.Vector? {
      assert FeetItems(c.tree.list.items) <= FeetVector(c.tree.list);
      ArmsStay(ArmsClaim(c.tree.list.items, c.node.arms));
    }
  }

  twostate lemma InStays(c: Claim)
    requires c.tree.Tree? && OnlyNumbers(Feet(c.tree)) && c.node.OpIn?
    ensures Children(c.tree.expr, c.tree.list, c.tree.expr2, c.node)
         == old(Children(c.tree.expr, c.tree.list, c.tree.expr2, c.node))
    decreases c.node, 1
  {
    RepresentsStays(Claim(c.tree.expr, c.node.expr, None));
    if c.tree.list.Vector? {
      assert FeetItems(c.tree.list.items) <= FeetVector(c.tree.list);
      ListStays(ListClaim(c.tree.list.items, c.node.items));
    }
  }

  twostate lemma CallStays(c: Claim)
    requires c.tree.Tree? && OnlyNumbers(Feet(c.tree)) && c.node.FunctionRef?
    ensures Children(c.tree.expr, c.tree.list, c.tree.expr2, c.node)
         == old(Children(c.tree.expr, c.tree.list, c.tree.expr2, c.node))
    decreases c.node, 1
  {
    if c.tree.list.Vector? {
      assert FeetItems(c.tree.list.items) <= FeetVector(c.tree.list);
      ListStays(ListClaim(c.tree.list.items, c.node.args));
    }
  }

  twostate lemma OptStays(c: OptClaim)
    requires OnlyNumbers(Feet(c.tree))
    ensures RepresentsOpt(c.tree, c.node) == old(RepresentsOpt(c.tree, c.node))
    decreases c.node, 4
  {
    if c.node.SomeNode? {
      RepresentsStays(Claim(c.tree, c.node.node, None));
    }
  }

  twostate lemma ListStays(c: ListClaim)
    requires OnlyNumbers(FeetItems(c.items))
    ensures RepresentsList(c.items, c.nodes) == old(RepresentsList(c.items, c.nodes))
    decreases c.nodes, 0
  {
    if c.nodes.Nodes? && c.items != [] {
      var k := |c.items| - 1;
      ItemFeet(c.items, k);
      RepresentsStays(Claim(c.items[k], c.nodes.last, c.nodes.alias));
      ListStays(ListClaim(c.items[..k], c.nodes.init));
    }
  }

  twostate lemma ArmsStay(c: ArmsClaim)
    requires OnlyNumbers(FeetItems(c.items))
    ensures RepresentsArms(c.items, c.arms) == old(RepresentsArms(c.items, c.arms))
    decreases c.arms, 1
  {
    if c.arms.NodeArm? && c.items != [] {
      var k := |c.items| - 1;
      ItemFeet(c.items, k);
      ArmStays(ArmsClaim([c.items[k]], c.arms));
      ArmsStay(ArmsClaim(c.items[..k], c.arms.init));
    }
  }

  /** One arm. */
  twostate lemma ArmStays(c: ArmsClaim)
    requires c.arms.NodeArm? && |c.items| == 1 && OnlyNumbers(Feet(c.items[0]))
    ensures RepresentsArm(c.items[0], c.arms) == old(RepresentsArm(c.items[0], c.arms))
    decreases c.arms, 0
  {
    var t := c.items[0];
    if t.Tree? {
      RepresentsStays(Claim(t.expr, c.arms.when, None));
      RepresentsStays(Claim(t.expr2, c.arms.then_, None));
    }
  }

  /** A tree that stands for a node still does when its parameters are numbered. */
  twostate lemma BuiltStays(c: Claim)
    requires OnlyNumbers(Feet(c.tree))
    ensures Linked(c.tree) == old(Linked(c.tree))
    ensures Represents(c.tree, c.node, c.alias) == old(Represents(c.tree, c.node, c.alias))
  {
    hide *;
    LinkedStays(c.tree);
    RepresentsStays(c);
  }
}
