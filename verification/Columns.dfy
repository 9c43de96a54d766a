/**
 The constructor of a column definition: it folds the list of constraints into flags, keeps the last
 DEFAULT and the last foreign key, and deletes everything else.
 */
module Columns {
  import opened Tokens
  import opened Memory

  datatype ConstraintType = PrimaryKey | NotNull | Unique | Default | AutoIncrement | ForeignKey

  class ForeignKeyConstraint {
    constructor () {}
  }

  /** The destructor of a constraint frees neither `expr` nor `fk`. */
  class ColumnConstraint {
    const type_: ConstraintType
    const expr: Expr?
    const fk: ForeignKeyConstraint?

    constructor (type_: ConstraintType, expr: Expr?, fk: ForeignKeyConstraint?)
      ensures this.type_ == type_ && this.expr == expr && this.fk == fk
    {
      this.type_, this.expr, this.fk := type_, expr, fk;
    }

    /** Only a DEFAULT has an expression, only a foreign key has a table. */
    predicate Typed() {
      (expr != null ==> type_ == Default) && (fk != null ==> type_ == ForeignKey)
    }
  }

  /** A heap-allocated vector of constraints. */
  class ConstraintVector {
    const items: seq<ColumnConstraint>

    constructor (items: seq<ColumnConstraint>)
      ensures this.items == items
    {
      this.items := items;
    }
  }

  // ----- what the fold computes -----

  datatype Flags = Flags(primaryKey: bool, unique: bool, nullable: bool, autoIncrement: bool, foreignKey: bool)

  /** The flags of a column say which types of constraints it has; a primary key is unique and not
      nullable. */
  ghost function FlagsOf(types: set<ConstraintType>): Flags {
    Flags(PrimaryKey in types, PrimaryKey in types || Unique in types, PrimaryKey !in types && NotNull !in types,
          AutoIncrement in types, ForeignKey in types)
  }

  /** What one round of the loop does to the flags. */
  function NextFlags(f: Flags, t: ConstraintType): Flags {
    match t
    case PrimaryKey => f.(primaryKey := true, unique := true, nullable := false)
    case NotNull => f.(nullable := false)
    case Unique => f.(unique := true)
    case Default => f
    case AutoIncrement => f.(autoIncrement := true)
    case ForeignKey => f.(foreignKey := true)
  }

  /** The flags after all rounds, in the order of the list. */
  ghost function FoldFlags(cs: seq<ColumnConstraint>): Flags {
    if cs == [] then Flags(false, false, true, false, false)
    else NextFlags(FoldFlags(cs[..|cs| - 1]), cs[|cs| - 1].type_)
  }

  lemma OneMoreType(types: set<ConstraintType>, t: ConstraintType)
    ensures FlagsOf(types + {t}) == NextFlags(FlagsOf(types), t)
  {}

  ghost function Types(cs: seq<ColumnConstraint>): set<ConstraintType> {
    set c | c in cs :: c.type_
  }

  lemma {:induction false} FoldIsFlagsOf(cs: seq<ColumnConstraint>)
    ensures FoldFlags(cs) == FlagsOf(Types(cs))
  {
    if cs == [] {
      assert Types(cs) == {};
    } else {
      var n := |cs| - 1;
      FoldIsFlagsOf(cs[..n]);
      OneMoreType(Types(cs[..n]), cs[n].type_);
      assert cs == cs[..n] + [cs[n]];
      assert Types(cs) == Types(cs[..n]) + {cs[n].type_};
    }
  }

  /** The flags do not depend on the order of the constraints, nor on repetitions. */
  lemma FlagsAreOrderFree(cs: seq<ColumnConstraint>, ds: seq<ColumnConstraint>)
    requires forall c :: c in multiset(cs) <==> c in multiset(ds)
    ensures FoldFlags(cs) == FoldFlags(ds)
  {
    forall c | c in cs ensures c in ds {
      assert c in multiset(cs);
    }
    forall c | c in ds ensures c in cs {
      assert c in multiset(ds);
    }
    assert Types(cs) == Types(ds);
    FoldIsFlagsOf(cs);
    FoldIsFlagsOf(ds);
  }

  /** The index of the last constraint of a type, or -1. */
  ghost function Last(cs: seq<ColumnConstraint>, type_: ConstraintType): (i: int)
    ensures -1 <= i < |cs|
    ensures i >= 0 ==> cs[i].type_ == type_
    ensures forall j | i < j < |cs| :: cs[j].type_ != type_
  {
    if cs == [] then -1
    else if cs[|cs| - 1].type_ == type_ then |cs| - 1
    else Last(cs[..|cs| - 1], type_)
  }

  /** No later constraint has the type of the i-th. */
  predicate IsLast(cs: seq<ColumnConstraint>, i: nat)
    requires i < |cs|
  {
    forall j | i < j < |cs| :: cs[j].type_ != cs[i].type_
  }

  ghost function LastTree(cs: seq<ColumnConstraint>, trees: seq<Tree>): Tree
    requires |trees| == |cs|
  {
    var i := Last(cs, Default);
    if i == -1 then NullTree else trees[i]
  }

  ghost function LastKey(cs: seq<ColumnConstraint>): ForeignKeyConstraint? {
    var i := Last(cs, ForeignKey);
    if i == -1 then null else cs[i].fk
  }

  /** The constraints, with the expression trees and the keys that they carry. */
  ghost function OwnedConstraints(cs: seq<ColumnConstraint>, trees: seq<Tree>): Store
    requires |trees| == |cs|
  {
    if cs == [] then multiset{} else OwnedConstraint(cs[0], trees[0]) + OwnedConstraints(cs[1..], trees[1..])
  }

  ghost function OwnedConstraint(c: ColumnConstraint, t: Tree): Store {
    One(c) + Owned(t) + One(c.fk)
  }

  /** A constraint and the tree of its expression. */
  ghost predicate Fits(c: ColumnConstraint, t: Tree)
    reads Feet(t)
  {
    c.Typed() && Ref(t) == c.expr && Linked(t)
  }

  class ColumnDefinition {
    const name: CString?
    const type_: int
    var isPrimaryKey: bool
    var isUnique: bool
    var nullable: bool
    var defaultVal: Expr?
    var isAutoIncrement: bool
    var hasTypemod: bool
    var isForeignKey: bool
    var foreignKeyConstraint: ForeignKeyConstraint?

    /** The initialisers of the constructor. */
    constructor (name: CString?, type_: int)
      ensures this.name == name && this.type_ == type_
      ensures Flagged() == FlagsOf({}) && defaultVal == null && foreignKeyConstraint == null && !hasTypemod
    {
      this.name, this.type_ := name, type_;
      isPrimaryKey, isUnique, nullable, defaultVal, isAutoIncrement := false, false, true, null, false;
      hasTypemod, isForeignKey, foreignKeyConstraint := false, false, null;
    }

    ghost function Flagged(): Flags
      reads this
    {
      Flags(isPrimaryKey, isUnique, nullable, isAutoIncrement, isForeignKey)
    }

    lemma FlaggedIs()
      ensures Flagged() == Flags(isPrimaryKey, isUnique, nullable, isAutoIncrement, isForeignKey)
    {}

    /** A DEFAULT: its expression replaces the one before, which is deleted. */
    method TakeDefault(live: Store, c: ColumnConstraint, ghost d: Tree, ghost t: Tree, ghost rest: Store)
      returns (after: Store)
      requires c.type_ == Default && c.Typed()
      requires Ref(d) == defaultVal && Linked(d) && Ref(t) == c.expr && Linked(t) && this !in Feet(t)
      requires live == Owned(d) + OwnedConstraint(c, t) + rest
      modifies this`defaultVal
      ensures defaultVal == c.expr && Linked(t) && after == Owned(t) + rest
      ensures Flagged() == old(Flagged())
    {
      hide Owned, Linked, One, OwnedConstraint, ColumnConstraint.Typed;
      Carries(c, t);
      TakeStore(Owned(d), One(c), Owned(t), rest);
      assert allocated(Feet(t));
      after := DeleteExpr(live, defaultVal, d, One(c) + (Owned(t) + rest));
      defaultVal := c.expr;
      after := Release(after, c, Owned(t) + rest);
    }

    /** A foreign key likewise. */
    method TakeKey(live: Store, c: ColumnConstraint, ghost t: Tree, ghost rest: Store) returns (after: Store)
      requires c.type_ == ForeignKey && c.Typed() && Ref(t) == c.expr
      requires live == One(foreignKeyConstraint) + OwnedConstraint(c, t) + rest
      modifies this`isForeignKey, this`foreignKeyConstraint
      ensures foreignKeyConstraint == c.fk && after == One(c.fk) + rest
      ensures Flagged() == old(Flagged()).(foreignKey := true)
    {
      hide Owned, Linked, One, OwnedConstraint, ColumnConstraint.Typed;
      Carries(c, t);
      TakeStore(One(foreignKeyConstraint), One(c), One(c.fk), rest);
      isForeignKey := true;
      after := Release(live, foreignKeyConstraint, One(c) + (One(c.fk) + rest));
      foreignKeyConstraint := c.fk;
      after := Release(after, c, One(c.fk) + rest);
    }

    /** The types of constraints that only set flags. */
    method TakeFlags(t: ConstraintType)
      requires t != Default && t != ForeignKey
      modifies this`isPrimaryKey, this`isUnique, this`nullable, this`isAutoIncrement
      ensures Flagged() == NextFlags(old(Flagged()), t)
    {
      match t
      case PrimaryKey =>
        isPrimaryKey := true;
        isUnique := true;
        nullable := false;
      case NotNull =>
        nullable := false;
      case Unique =>
        isUnique := true;
      case AutoIncrement =>
        isAutoIncrement := true;
    }

    /** The column has the flags of `types`, the default value `d`, and what it holds is allocated. */
    ghost predicate Holding(live: Store, d: Tree, types: set<ConstraintType>, rest: Store)
      reads this, Feet(d)
    {
      Flagged() == FlagsOf(types) && Ref(d) == defaultVal && Linked(d)
          && live == Owned(d) + One(foreignKeyConstraint) + rest
    }

    method RoundDefault(live: Store, c: ColumnConstraint, ghost d: Tree, ghost t: Tree,
                        ghost types: set<ConstraintType>, ghost rest: Store)
      returns (after: Store, ghost d': Tree)
      requires c.type_ == Default && Fits(c, t) && this !in Feet(d) && this !in Feet(t)
      requires Holding(live, d, types, OwnedConstraint(c, t) + rest)
      modifies this
      ensures Holding(after, d', types + {c.type_}, rest) && hasTypemod == old(hasTypemod)
      ensures d' == (if c.type_ == Default then t else d)
      ensures foreignKeyConstraint == if c.type_ == ForeignKey then c.fk else old(foreignKeyConstraint)
    {
      hide Feet;
      hide Owned, Linked, One, FlagsOf, OwnedConstraint, ColumnConstraint.Typed, Flagged;
      ghost var key := One(foreignKeyConstraint);
      OneMoreType(types, Default);
      SecondLast(Owned(d), key, OwnedConstraint(c, t), rest);
      after := TakeDefault(live, c, d, t, key + rest);
      d' := t;
      Last3(Owned(t), key, rest);
    }

    method RoundKey(live: Store, c: ColumnConstraint, ghost d: Tree, ghost t: Tree,
                    ghost types: set<ConstraintType>, ghost rest: Store)
      returns (after: Store, ghost d': Tree)
      requires c.type_ == ForeignKey && Fits(c, t) && this !in Feet(d) && this !in Feet(t)
      requires Holding(live, d, types, OwnedConstraint(c, t) + rest)
      modifies this
      ensures Holding(after, d', types + {c.type_}, rest) && hasTypemod == old(hasTypemod)
      ensures d' == (if c.type_ == Default then t else d)
      ensures foreignKeyConstraint == if c.type_ == ForeignKey then c.fk else old(foreignKeyConstraint)
    {
      hide Owned, Linked, One, FlagsOf, OwnedConstraint, ColumnConstraint.Typed, Flagged;
      OneMoreType(types, ForeignKey);
      FirstLast(Owned(d), One(foreignKeyConstraint), OwnedConstraint(c, t), rest);
      assert allocated(Feet(d));
      after := TakeKey(live, c, t, Owned(d) + rest);
      d' := d;
      Last3(Owned(d), One(c.fk), rest);
    }

    method RoundFlags(live: Store, c: ColumnConstraint, ghost d: Tree, ghost t: Tree,
                      ghost types: set<ConstraintType>, ghost rest: Store)
      returns (after: Store, ghost d': Tree)
      requires c.type_ != Default && c.type_ != ForeignKey && Fits(c, t) && this !in Feet(d) && this !in Feet(t)
      requires Holding(live, d, types, OwnedConstraint(c, t) + rest)
      modifies this
      ensures Holding(after, d', types + {c.type_}, rest) && hasTypemod == old(hasTypemod)
      ensures d' == (if c.type_ == Default then t else d)
      ensures foreignKeyConstraint == if c.type_ == ForeignKey then c.fk else old(foreignKeyConstraint)
    {
      hide Owned, Linked, One, FlagsOf, OwnedConstraint, ColumnConstraint.Typed, Flagged;
      OneMoreType(types, c.type_);
      Carries(c, t);
      ThirdFirst(Owned(d), One(foreignKeyConstraint), One(c), rest);
      assert allocated(Feet(d));
      TakeFlags(c.type_);
      after := Release(live, c, Owned(d) + One(foreignKeyConstraint) + rest);
      d' := d;
    }

    /** One round of the loop: the column takes what the constraint carries, the value that it
        replaces is deleted, and so is the constraint. */
    method Take(live: Store, c: ColumnConstraint, ghost d: Tree, ghost t: Tree,
                ghost types: set<ConstraintType>, ghost rest: Store)
      returns (after: Store, ghost d': Tree)
      requires Fits(c, t) && this !in Feet(d) && this !in Feet(t)
      requires Holding(live, d, types, OwnedConstraint(c, t) + rest)
      modifies this
      ensures Holding(after, d', types + {c.type_}, rest) && hasTypemod == old(hasTypemod)
      ensures d' == (if c.type_ == Default then t else d)
      ensures foreignKeyConstraint == if c.type_ == ForeignKey then c.fk else old(foreignKeyConstraint)
    {
      hide Holding, OwnedConstraint, Fits;
      if c.type_ == Default {
        after, d' := RoundDefault(live, c, d, t, types, rest);
      } else if c.type_ == ForeignKey {
        after, d' := RoundKey(live, c, d, t, types, rest);
      } else {
        after, d' := RoundFlags(live, c, d, t, types, rest);
      }
    }
  }

  lemma SecondLast(d: Store, key: Store, c: Store, rest: Store)
    ensures d + key + c + rest == d + c + (key + rest)
  {}

  lemma FirstLast(d: Store, key: Store, c: Store, rest: Store)
    ensures d + key + c + rest == key + c + (d + rest)
  {}

  lemma ThirdFirst(d: Store, key: Store, c: Store, rest: Store)
    ensures d + key + c + rest == c + (d + key + rest)
  {}

  lemma Last3(d: Store, key: Store, rest: Store)
    ensures d + (key + rest) == key + (d + rest) == d + key + rest
  {}

  /** A constraint carries only what its type says. */
  lemma Carries(c: ColumnConstraint, t: Tree)
    requires c.Typed() && Ref(t) == c.expr
    ensures OwnedConstraint(c, t)
         == if c.type_ == Default then One(c) + Owned(t)
            else if c.type_ == ForeignKey then One(c) + One(c.fk)
            else One(c)
  {}

  lemma TakeStore(old_: Store, c: Store, new_: Store, rest: Store)
    ensures old_ + (c + new_) + rest == old_ + (c + (new_ + rest))
  {}

  /** The constraints that are still to be taken. */
  ghost predicate Pending(cs: seq<ColumnConstraint>, trees: seq<Tree>)
    reads FeetItems(trees)
  {
    |trees| == |cs| && forall i | 0 <= i < |cs| :: Fits(cs[i], trees[i])
  }

  lemma LastSnoc(cs: seq<ColumnConstraint>, trees: seq<Tree>, i: nat)
    requires |trees| == |cs| && i < |cs|
    ensures LastTree(cs[..i + 1],
        trees[..i + 1]) == if cs[i].type_ == Default then trees[i] else LastTree(cs[..i], trees[..i])
    ensures LastKey(cs[..i + 1]) == if cs[i].type_ == ForeignKey then cs[i].fk else LastKey(cs[..i])
    ensures Types(cs[..i + 1]) == Types(cs[..i]) + {cs[i].type_}
  {
    assert cs[..i + 1][..i] == cs[..i] && cs[..i + 1] == cs[..i] + [cs[i]];
    assert LastTree(cs[..i + 1], trees[..i + 1])
        == if cs[i].type_ == Default then trees[i] else LastTree(cs[..i], trees[..i]) by {
      assert trees[..i + 1][..i] == trees[..i];
    }
  }

  lemma TakeFirst(cs: seq<ColumnConstraint>, trees: seq<Tree>, i: nat)
    requires |trees| == |cs| && i < |cs|
    ensures OwnedConstraints(cs[i..], trees[i..]) == OwnedConstraint(cs[i],
        trees[i]) + OwnedConstraints(cs[i + 1..], trees[i + 1..])
  {
    assert cs[i..][1..] == cs[i + 1..] && trees[i..][1..] == trees[i + 1..];
  }

  lemma OneIs(o: object)
    ensures One(o) == multiset{o}
  {}

  lemma StartStore(none: Store, cs: Store, vector: Store, column: Store, rest: Store)
    requires none == multiset{}
    ensures cs + (vector + rest) + column == none + none + (cs + (vector + (column + rest)))
  {}

  lemma Whole<T, U>(cs: seq<T>, ts: seq<U>)
    ensures cs[0..] == cs[..|cs|] == cs && ts[0..] == ts[..|ts|] == ts && cs[|cs|..] == [] && ts[|ts|..] == []
  {}

  lemma StartFold(cs: seq<ColumnConstraint>, trees: seq<Tree>)
    requires |trees| == |cs|
    ensures FlagsOf({}) == FlagsOf(Types(cs[..0])) && LastTree(cs[..0], trees[..0]) == NullTree
              && LastKey(cs[..0]) == null
    ensures Linked(NullTree) && Owned(NullTree) == One(null) == OwnedConstraints([], []) == multiset{}
  {
    assert Types(cs[..0]) == {};
  }

  lemma FlagsByType(cs: seq<ColumnConstraint>, f: Flags)
    requires f == FlagsOf(Types(cs))
    ensures f.primaryKey <==> exists c | c in cs :: c.type_ == PrimaryKey
    ensures f.unique <==> exists c | c in cs :: c.type_ == PrimaryKey || c.type_ == Unique
    ensures f.nullable <==> forall c | c in cs :: c.type_ != PrimaryKey && c.type_ != NotNull
    ensures f.autoIncrement <==> exists c | c in cs :: c.type_ == AutoIncrement
    ensures f.foreignKey <==> exists c | c in cs :: c.type_ == ForeignKey
  {}

  lemma LastByType(cs: seq<ColumnConstraint>, trees: seq<Tree>, d: Tree)
    requires Pending(cs, trees) && d == LastTree(cs, trees)
    ensures forall i | 0 <= i < |cs| && IsLast(cs, i) ::
              && (cs[i].type_ == Default ==> Ref(d) == cs[i].expr)
              && (cs[i].type_ == ForeignKey ==> LastKey(cs) == cs[i].fk)
    ensures (forall c | c in cs :: c.type_ != Default) ==> Ref(d) == null
    ensures (forall c | c in cs :: c.type_ != ForeignKey) ==> LastKey(cs) == null
  {
    var a, b := Last(cs, Default), Last(cs, ForeignKey);
    assert a >= 0 ==> cs[a] in cs;
    assert b >= 0 ==> cs[b] in cs;
    forall i | 0 <= i < |cs| && IsLast(cs, i)
      ensures cs[i].type_ == Default ==> i == a
      ensures cs[i].type_ == ForeignKey ==> i == b
    {
    }
  }

  /** The constructor: the flags say which types of constraints there are, the last DEFAULT and the last
      foreign key belong to the column, and everything else that came with the list is deleted, each
      object once. */
  method NewColumn(live: Store, name: CString?, type_: int, constraints: ConstraintVector,
                   ghost trees: seq<Tree>, ghost rest: Store)
    returns (column: ColumnDefinition, after: Store, ghost d: Tree)
    requires Pending(constraints.items, trees)
    requires live == OwnedConstraints(constraints.items, trees) + (One(constraints) + rest)
    ensures fresh(column) && column.name == name && column.type_ == type_ && !column.hasTypemod
    ensures column.Flagged() == FlagsOf(Types(constraints.items)) == FoldFlags(constraints.items)
    ensures var cs := constraints.items;
            && (column.isPrimaryKey <==> exists c | c in cs :: c.type_ == PrimaryKey)
            && (column.isUnique <==> exists c | c in cs :: c.type_ == PrimaryKey || c.type_ == Unique)
            && (column.nullable <==> forall c | c in cs :: c.type_ != PrimaryKey && c.type_ != NotNull)
            && (column.isAutoIncrement <==> exists c | c in cs :: c.type_ == AutoIncrement)
            && (column.isForeignKey <==> exists c | c in cs :: c.type_ == ForeignKey)
    ensures forall i | 0 <= i < |constraints.items| && IsLast(constraints.items, i) ::
              var c := constraints.items[i];
              && (c.type_ == Default ==> column.defaultVal == c.expr)
              && (c.type_ == ForeignKey ==> column.foreignKeyConstraint == c.fk)
    ensures (forall c | c in constraints.items :: c.type_ != Default) ==> column.defaultVal == null
    ensures (forall c | c in constraints.items :: c.type_ != ForeignKey) ==> column.foreignKeyConstraint == null
    ensures d == LastTree(constraints.items, trees) && Ref(d) == column.defaultVal && Linked(d)
    ensures column.foreignKeyConstraint == LastKey(constraints.items)
    ensures after == Owned(d) + One(column.foreignKeyConstraint) + (One(column) + rest)
  {
    hide Owned, OwnedConstraints, OwnedConstraint, Linked, FlagsOf, ColumnDefinition.Flagged, Types, LastTree,
        LastKey, One, Fits;
    var cs := constraints.items;
    FoldIsFlagsOf(cs);
    assert allocated(FeetItems(trees));
    column := new ColumnDefinition(name, type_);
    StartFold(cs, trees);
    Whole(cs, trees);
    after, d := live + multiset{column}, NullTree;
    OneIs(column);
    ghost var others := One(constraints) + (One(column) + rest);
    StartStore(Owned(d), OwnedConstraints(cs, trees), One(constraints), One(column), rest);
    var i := 0;
    while i < |cs|
      invariant 0 <= i <= |cs|
      invariant Pending(cs, trees) && column !in FeetItems(trees) && column !in Feet(d)
      invariant column.Holding(after, d, Types(cs[..i]), OwnedConstraints(cs[i..], trees[i..]) + others)
      invariant d == LastTree(cs[..i], trees[..i]) && column.foreignKeyConstraint == LastKey(cs[..i])
                && !column.hasTypemod
    {
      LastSnoc(cs, trees, i);
      TakeFirst(cs, trees, i);
      ghost var later := OwnedConstraints(cs[i + 1..], trees[i + 1..]);
      Associate(OwnedConstraint(cs[i], trees[i]), later, others);
      after, d := column.Take(after, cs[i], d, trees[i], Types(cs[..i]), later + others);
      i := i + 1;
    }
    assert allocated(Feet(d));
    ThirdFirst(Owned(d), One(column.foreignKeyConstraint), One(constraints), One(column) + rest);
    after := Release(after, constraints, Owned(d) + One(column.foreignKeyConstraint) + (One(column) + rest));
    FlagsByType(cs, column.Flagged());
    LastByType(cs, trees, d);
    column.FlaggedIs();
  }

  lemma Associate(a: Store, b: Store, c: Store)
    ensures (a + b) + c == a + (b + c)
  {}

  /** The destructor, and the deallocation of the column. */
  method DeleteColumn(live: Store, column: ColumnDefinition, ghost d: Tree, ghost rest: Store) returns (after: Store)
    requires Ref(d) == column.defaultVal && Linked(d)
    requires live == One(column.name) + (Owned(d) + (One(column.foreignKeyConstraint) + (One(column) + rest)))
    ensures after == rest
  {
    hide Owned, Linked, One;
    assert allocated(Feet(d));
    after := Release(live, column.name, Owned(d) + (One(column.foreignKeyConstraint) + (One(column) + rest)));
    after := DeleteExpr(after, column.defaultVal, d, One(column.foreignKeyConstraint) + (One(column) + rest));
    after := Release(after, column.foreignKeyConstraint, One(column) + rest);
    after := Release(after, column, rest);
  }
}
